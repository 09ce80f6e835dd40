/** The repository's example runs (tests/csv_test.go, tests/mxj_test.go)
    restated over the model: a row of delimited data copied by position and
    by name plus a computed full name, and a tree document copied path by
    path with a default for an absent optional path. */
module Scenarios {
  import opened Values
  import TreeDoc
  import CsvData
  import Sources
  import MxjData
  import Mapjitsu

  /** The full-name formula of the examples: first and last name joined by
      a space when both are present; an error when both are empty. */
  function FullName(first: string, last: string): (r: Result<Value>)
    ensures r.Ok? <==> first != "" || last != ""
    ensures first != "" && last != "" ==> r == Ok(VStr(first + " " + last))
  {
    var result := if first != "" && last != "" then first + " " else first;
    var result := result + last;
    if result == "" then Err(Opaque("could not calculate Customer FullName missing either a first_name or last_name"))
    else Ok(VStr(result))
  }

  /** The error handler of the tree example: an absent path yields `d`;
      any other error is passed on. */
  function OnNotExistReturnDefault(d: Value): TreeDoc.ReadHandler
  {
    (path: string, v: Value, e: Error) => if e == PathNotExist then Ok(d) else Err(e)
  }

  const InputHeader: seq<string> := ["first_name", "last_name", "dob"]
  const OutputHeader: seq<string> :=
    ["Customer DOB", "Customer FirstName", "Customer FullName", "Customer LastName", "Customer Title"]

  /** The row mappings of the delimited example, over input and output records. */
  function CsvMappings(input: array<string>, output: array<string>, first: string, last: string)
    : seq<Mapjitsu.Mapping>
  {
    [ Mapjitsu.Mapping(Mapjitsu.CsvSource(Sources.Csv([], input, 1, "")), [],
                       Mapjitsu.CsvTarget(CsvData.Target([], output, 2, ""))),
      Mapjitsu.Mapping(Mapjitsu.CsvSource(Sources.Csv(InputHeader, input, 0, "last_name")), [],
                       Mapjitsu.CsvTarget(CsvData.Target(OutputHeader, output, 0, "Customer LastName"))),
      Mapjitsu.Mapping(Mapjitsu.CsvSource(Sources.Csv(InputHeader, input, 0, "dob")), [],
                       Mapjitsu.CsvTarget(CsvData.Target(OutputHeader, output, 0, "Customer DOB"))),
      Mapjitsu.Mapping(Mapjitsu.Calculated(Sources.Calculated(() => FullName(first, last))), [],
                       Mapjitsu.CsvTarget(CsvData.Target(OutputHeader, output, 0, "Customer FullName"))) ]
  }

  /** Field-level facts of the delimited example's first row. */
  lemma CsvRowFields()
    ensures CsvData.ReadField([], ["Tim", "Test", ""], 1, "") == Ok(VStr("Tim"))
    ensures CsvData.ReadField(InputHeader, ["Tim", "Test", ""], 0, "last_name") == Ok(VStr("Test"))
    ensures CsvData.ReadField(InputHeader, ["Tim", "Test", ""], 0, "dob") == Ok(VStr(""))
    ensures CsvData.WriteField([], ["", "", "", "", ""], 2, "", VStr("Tim")) == Ok(["", "Tim", "", "", ""])
    ensures CsvData.WriteField(OutputHeader, ["", "Tim", "", "", ""], 0, "Customer LastName", VStr("Test"))
            == Ok(["", "Tim", "", "Test", ""])
    ensures CsvData.WriteField(OutputHeader, ["", "Tim", "", "Test", ""], 0, "Customer DOB", VStr(""))
            == Ok(["", "Tim", "", "Test", ""])
    ensures CsvData.WriteField(OutputHeader, ["", "Tim", "", "Test", ""], 0, "Customer FullName", VStr("Tim Test"))
            == Ok(["", "Tim", "Tim Test", "Test", ""])
  {
    CsvData.FirstIndexIsEarliest(InputHeader, "last_name", 1);
    CsvData.FirstIndexIsEarliest(InputHeader, "dob", 2);
    CsvData.FirstIndexIsEarliest(OutputHeader, "Customer LastName", 3);
    CsvData.FirstIndexIsEarliest(OutputHeader, "Customer DOB", 0);
    CsvData.FirstIndexIsEarliest(OutputHeader, "Customer FullName", 2);
    assert ["", "", "", "", ""][1 := "Tim"] == ["", "Tim", "", "", ""];
    assert ["", "Tim", "", "", ""][3 := "Test"] == ["", "Tim", "", "Test", ""];
    assert ["", "Tim", "", "Test", ""][0 := ""] == ["", "Tim", "", "Test", ""];
    assert ["", "Tim", "", "Test", ""][2 := "Tim Test"] == ["", "Tim", "Tim Test", "Test", ""];
  }

  /** A mapping with an empty pipeline into a delimited target succeeds when
      its source yields a string the target accepts. */
  lemma CopyIntoCsv(m: Mapjitsu.Mapping, w: Mapjitsu.World, s: string, cells: seq<string>)
    requires m.target.CsvTarget? && m.transform == []
    requires Mapjitsu.SourceCovered(m.source, w) && Mapjitsu.TargetCovered(m.target, w)
    requires Mapjitsu.SourceIn(m.source, w) == Ok(VStr(s))
    requires var t := m.target.csv;
      CsvData.WriteField(t.header, w.cells[t.record], t.columnNumber, t.columnName, VStr(s)) == Ok(cells)
    ensures Mapjitsu.StepIn(m, w) == Ok(w.(cells := w.cells[m.target.csv.record := cells]))
  {
  }

  /** `ApplyIn` past a first mapping that succeeds. */
  lemma ApplyPast(ms: seq<Mapjitsu.Mapping>, w: Mapjitsu.World, w': Mapjitsu.World)
    requires |ms| > 0 && Mapjitsu.Covers(ms, w) && Mapjitsu.Covers(ms[1..], w')
    requires Mapjitsu.StepIn(ms[0], w) == Ok(w')
    ensures Mapjitsu.ApplyIn(ms, w) == Mapjitsu.ApplyIn(ms[1..], w')
  {
  }

  /** The state of the delimited example: the first input row and the
      output row as filled so far. */
  function RowWorld(input: array<string>, output: array<string>, out: seq<string>): Mapjitsu.World
  {
    Mapjitsu.World(map[input := ["Tim", "Test", ""], output := out], map[])
  }

  lemma RowWorldCovers(input: array<string>, output: array<string>, out: seq<string>, k: nat)
    requires k <= 4
    ensures Mapjitsu.Covers(CsvMappings(input, output, "Tim", "Test")[k..], RowWorld(input, output, out))
  {
  }

  /** The mapping at index k of the delimited example takes the output row
      from `before` to `after`. */
  lemma CsvRowStep(input: array<string>, output: array<string>, k: nat, before: seq<string>, after: seq<string>)
    requires input != output && k < 4
    requires k == 0 ==> before == ["", "", "", "", ""] && after == ["", "Tim", "", "", ""]
    requires k == 1 ==> before == ["", "Tim", "", "", ""] && after == ["", "Tim", "", "Test", ""]
    requires k == 2 ==> before == ["", "Tim", "", "Test", ""] && after == before
    requires k == 3 ==> before == ["", "Tim", "", "Test", ""] && after == ["", "Tim", "Tim Test", "Test", ""]
    ensures var ms := CsvMappings(input, output, "Tim", "Test");
      Mapjitsu.SourceCovered(ms[k].source, RowWorld(input, output, before)) &&
      Mapjitsu.TargetCovered(ms[k].target, RowWorld(input, output, before)) &&
      Mapjitsu.StepIn(ms[k], RowWorld(input, output, before)) == Ok(RowWorld(input, output, after))
  {
    var ms := CsvMappings(input, output, "Tim", "Test");
    var w := RowWorld(input, output, before);
    CsvRowFields();
    var s := if k == 0 then "Tim" else if k == 1 then "Test" else if k == 2 then "" else "Tim Test";
    if k == 3 {
      assert "Tim" + " " + "Test" == "Tim Test";
    } else {
      assert w.cells[input] == ["Tim", "Test", ""];
    }
    assert Mapjitsu.SourceIn(ms[k].source, w) == Ok(VStr(s));
    CopyIntoCsv(ms[k], w, s, after);
    assert w.cells[output := after] == RowWorld(input, output, after).cells;
  }

  /** The first input row "Tim,Test," fills the output row ",Tim,Tim Test,Test,":
      positional and named reads and writes, and a computed full name. */
  lemma CsvRow(input: array<string>, output: array<string>)
    requires input != output
    ensures var w := RowWorld(input, output, ["", "", "", "", ""]);
      Mapjitsu.Covers(CsvMappings(input, output, "Tim", "Test"), w) &&
      Mapjitsu.ApplyIn(CsvMappings(input, output, "Tim", "Test"), w) ==
      Mapjitsu.Run(Pass, RowWorld(input, output, ["", "Tim", "Tim Test", "Test", ""]))
  {
    var ms := CsvMappings(input, output, "Tim", "Test");
    var o0, o1, o2, o4 := ["", "", "", "", ""], ["", "Tim", "", "", ""], ["", "Tim", "", "Test", ""],
                          ["", "Tim", "Tim Test", "Test", ""];
    RowWorldCovers(input, output, o0, 0);
    RowWorldCovers(input, output, o1, 1);
    RowWorldCovers(input, output, o2, 2);
    RowWorldCovers(input, output, o2, 3);
    RowWorldCovers(input, output, o4, 4);
    assert ms[0..] == ms;
    CsvRowStep(input, output, 0, o0, o1);
    CsvRowStep(input, output, 1, o1, o2);
    CsvRowStep(input, output, 2, o2, o2);
    CsvRowStep(input, output, 3, o2, o4);
    assert ms[1..][1..] == ms[2..] && ms[2..][1..] == ms[3..] && ms[3..][1..] == ms[4..] == [];
    ApplyPast(ms[3..], RowWorld(input, output, o2), RowWorld(input, output, o4));
    ApplyPast(ms[2..], RowWorld(input, output, o2), RowWorld(input, output, o2));
    ApplyPast(ms[1..], RowWorld(input, output, o1), RowWorld(input, output, o2));
    ApplyPast(ms, RowWorld(input, output, o0), RowWorld(input, output, o1));
  }

  /** The mappings of the tree example. */
  function TreeMappings(input: TreeDoc.Document, output: TreeDoc.Document): seq<Mapjitsu.Mapping>
  {
    [ Mapjitsu.Mapping(Mapjitsu.MxjDataSource(MxjData.Source(input, "user.first_name", None)), [],
                       Mapjitsu.MxjDataTarget(MxjData.Target(output, "Customer.FirstName", None))),
      Mapjitsu.Mapping(Mapjitsu.MxjDataSource(MxjData.Source(input, "user.last_name", None)), [],
                       Mapjitsu.MxjDataTarget(MxjData.Target(output, "Customer.LastName", None))),
      Mapjitsu.Mapping(Mapjitsu.MxjDataSource(MxjData.Source(input, "user.title", Some(OnNotExistReturnDefault(VStr(""))))), [],
                       Mapjitsu.MxjDataTarget(MxjData.Target(output, "Customer.Title", None))),
      Mapjitsu.Mapping(Mapjitsu.MxjDataSource(MxjData.Source(input, "user.dob", None)), [Mapjitsu.ToString],
                       Mapjitsu.MxjDataTarget(MxjData.Target(output, "Customer.DOB", None))),
      Mapjitsu.Mapping(Mapjitsu.Func(() => FullName("Tim", "Test")), [],
                       Mapjitsu.MxjDataTarget(MxjData.Target(output, "Customer.FullName", None))) ]
  }

  const InputTree: map<string, Value> :=
    map["user.first_name" := VStr("Tim"), "user.last_name" := VStr("Test"), "user.dob" := VNil]

  /** The output paths the tree example writes, in mapping order, and the
      values written to them. */
  const TreePaths: seq<string> :=
    ["Customer.FirstName", "Customer.LastName", "Customer.Title", "Customer.DOB", "Customer.FullName"]
  const TreeValues: seq<Value> := [VStr("Tim"), VStr("Test"), VStr(""), VStr(""), VStr("Tim Test")]

  /** The output document after the first k mappings of the tree example. */
  function TreeOutput(k: nat): map<string, Value>
    requires k <= 5
  {
    if k == 0 then map[] else TreeOutput(k - 1)[TreePaths[k - 1] := TreeValues[k - 1]]
  }

  function TreeWorld(input: TreeDoc.Document, output: TreeDoc.Document, k: nat): Mapjitsu.World
    requires k <= 5
  {
    Mapjitsu.World(map[], map[input := InputTree, output := TreeOutput(k)])
  }

  lemma TreeWorldCovers(input: TreeDoc.Document, output: TreeDoc.Document, k: nat, j: nat)
    requires k <= 5 && j <= 5
    ensures Mapjitsu.Covers(TreeMappings(input, output)[j..], TreeWorld(input, output, k))
  {
  }

  /** Mapping k of the tree example reads its value and stores it at its
      output path. */
  lemma TreeStep(input: TreeDoc.Document, output: TreeDoc.Document, k: nat)
    requires input != output && output.rejects == {} && k < 5
    ensures var ms := TreeMappings(input, output);
      Mapjitsu.SourceCovered(ms[k].source, TreeWorld(input, output, k)) &&
      Mapjitsu.TargetCovered(ms[k].target, TreeWorld(input, output, k)) &&
      Mapjitsu.StepIn(ms[k], TreeWorld(input, output, k)) == Ok(TreeWorld(input, output, k + 1))
  {
    var ms := TreeMappings(input, output);
    var w := TreeWorld(input, output, k);
    var v := TreeValues[k];
    if k == 2 {
      assert "user.title" !in InputTree;
    } else if k == 3 {
      assert Mapjitsu.SourceIn(ms[k].source, w) == Ok(VNil);
      assert Mapjitsu.RunPipeline(ms[k].transform, VNil) == Ok(VStr(""));
    } else if k == 4 {
      assert "Tim" + " " + "Test" == "Tim Test";
    }
    assert Mapjitsu.RunPipeline(ms[k].transform, Mapjitsu.SourceIn(ms[k].source, w).value) == Ok(v);
    assert w.trees[output := TreeOutput(k)[TreePaths[k] := v]] == TreeWorld(input, output, k + 1).trees;
  }

  /** The tree example: the absent optional path "user.title" becomes "" through
      the default handler, the nil "user.dob" becomes "" through `ToString`, and
      `Apply` reports no error. */
  lemma TreeDocument(input: TreeDoc.Document, output: TreeDoc.Document)
    requires input != output && output.rejects == {}
    ensures var w := TreeWorld(input, output, 0);
      Mapjitsu.Covers(TreeMappings(input, output), w) &&
      Mapjitsu.ApplyIn(TreeMappings(input, output), w) == Mapjitsu.Run(Pass, TreeWorld(input, output, 5))
    ensures TreeOutput(5) == map["Customer.FirstName" := VStr("Tim"), "Customer.LastName" := VStr("Test"),
      "Customer.Title" := VStr(""), "Customer.DOB" := VStr(""), "Customer.FullName" := VStr("Tim Test")]
  {
    var ms := TreeMappings(input, output);
    var k := 5;
    TreeWorldCovers(input, output, 5, 5);
    assert ms[5..] == [];
    while k > 0
      invariant 0 <= k <= 5
      invariant Mapjitsu.Covers(ms[k..], TreeWorld(input, output, k))
      invariant Mapjitsu.ApplyIn(ms[k..], TreeWorld(input, output, k)) == Mapjitsu.Run(Pass, TreeWorld(input, output, 5))
    {
      TreeWorldCovers(input, output, k - 1, k - 1);
      TreeStep(input, output, k - 1);
      assert ms[k - 1..][1..] == ms[k..];
      ApplyPast(ms[k - 1..], TreeWorld(input, output, k - 1), TreeWorld(input, output, k));
      k := k - 1;
    }
    assert ms[0..] == ms;
  }

  /** A source that yields "x" and one that fails, for the definitions below. */
  function Constant(): Mapjitsu.Source
  {
    Mapjitsu.Calculated(Sources.Calculated(() => Ok(VStr("x"))))
  }

  function Failing(): Mapjitsu.Source
  {
    Mapjitsu.Func(() => Err(Opaque("missing")))
  }

  function Column(output: array<string>, n: nat): Mapjitsu.Target
  {
    Mapjitsu.CsvTarget(CsvData.Target([], output, n, ""))
  }

  /** A definition whose second mapping's source fails: `Apply` returns that
      error, the third mapping never writes, and the first mapping's write
      stays. */
  lemma ShortCircuit(output: array<string>)
    ensures var w := Mapjitsu.World(map[output := ["", ""]], map[]);
      var ms := [Mapjitsu.Mapping(Constant(), [], Column(output, 1)),
                 Mapjitsu.Mapping(Failing(), [], Column(output, 2)),
                 Mapjitsu.Mapping(Constant(), [], Column(output, 2))];
      Mapjitsu.Covers(ms, w) &&
      Mapjitsu.ApplyIn(ms, w) == Mapjitsu.Run(Fail(Opaque("missing")), w.(cells := map[output := ["x", ""]]))
  {
    var w := Mapjitsu.World(map[output := ["", ""]], map[]);
    var w1 := w.(cells := map[output := ["x", ""]]);
    var ms := [Mapjitsu.Mapping(Constant(), [], Column(output, 1)),
               Mapjitsu.Mapping(Failing(), [], Column(output, 2)),
               Mapjitsu.Mapping(Constant(), [], Column(output, 2))];
    assert Mapjitsu.SourceIn(Constant(), w) == Ok(VStr("x"));
    assert ["", ""][0 := "x"] == ["x", ""];
    CopyIntoCsv(ms[0], w, "x", ["x", ""]);
    assert w.cells[output := ["x", ""]] == w1.cells;
    assert Mapjitsu.Covers(ms[1..], w1);
    ApplyPast(ms, w, w1);
    assert Mapjitsu.SourceIn(Failing(), w1) == Err(Opaque("missing"));
  }

  /** A stage that produces an integer for a delimited target fails that
      mapping with a type error before anything is written. */
  lemma TypeMismatchAborts(output: array<string>)
    ensures var w := Mapjitsu.World(map[output := ["", ""]], map[]);
      var toInt: Mapjitsu.Stage := (v: Value) => Ok(VInt(1));
      var ms := [Mapjitsu.Mapping(Constant(), [toInt], Column(output, 1)),
                 Mapjitsu.Mapping(Constant(), [], Column(output, 2))];
      Mapjitsu.Covers(ms, w) &&
      Mapjitsu.ApplyIn(ms, w) == Mapjitsu.Run(Fail(TypeMismatch("SetValue", "int")), w)
  {
    var w := Mapjitsu.World(map[output := ["", ""]], map[]);
    var toInt: Mapjitsu.Stage := (v: Value) => Ok(VInt(1));
    Mapjitsu.PipelineSingle(toInt, VStr("x"));
    assert Mapjitsu.SourceIn(Constant(), w) == Ok(VStr("x"));
  }
}
