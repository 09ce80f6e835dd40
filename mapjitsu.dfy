/** The mapping engine (mapjitsu.go): a `Definition` is an ordered list of
    (source, pipeline, target) mappings; `Apply` reads each source, folds
    the value through the pipeline and writes the target, stopping at the
    first error without undoing earlier writes. */
module Mapjitsu {
  import opened Values
  import Text
  import TreeDoc
  import CsvData
  import Sources
  import Targets
  import MxjData

  // ---------------------------------------------------------------------
  // Reference transforms

  /** `fmt.Sprintf("%v", v)`: a string prints as itself, and a 64-bit
      integer as decimal text that `strconv.Atoi` reads back to it. */
  function Format(v: Value): (r: string)
    ensures v.VStr? ==> r == v.s
    ensures v.VInt? ==> |r| > 0 && (v.i >= 0 <==> Text.IsDigit(r[0]))
    ensures v.VInt? && Text.MinInt <= v.i <= Text.MaxInt ==> Text.Atoi(r) == Ok(v.i)
  {
    match v
    case VNil => "<nil>"
    case VStr(s) => s
    case VInt(i) =>
      var r := Text.IntToString(i);
      assert Text.MinInt <= i <= Text.MaxInt ==> Text.Atoi(r) == Ok(i) by {
        if Text.MinInt <= i <= Text.MaxInt { Text.AtoiRoundTrip(i); }
      }
      r
    case VBool(b) => if b then "true" else "false"
  }

  /** Renders any value as a string; nil becomes the empty string. Never fails. */
  function ToString(v: Value): (r: Result<Value>)
    ensures r.Ok? && r.value.VStr?
    ensures v == VNil ==> r.value.s == ""
    ensures v.VStr? ==> r.value == v
    ensures v != VNil ==> r.value.s == Format(v)
  {
    if v == VNil then Ok(VStr("")) else Ok(VStr(Format(v)))
  }

  /** Upper-cases a string; any other value is a type error. */
  function ToUpper(v: Value): (r: Result<Value>)
    ensures r.Ok? <==> v.VStr?
    ensures r.Err? ==> r.error == TypeMismatch("ToUpper", TypeName(v))
    ensures r.Ok? ==> r.value.VStr? && Text.EqualFold(r.value.s, v.s)
    ensures r.Ok? ==> forall i :: 0 <= i < |r.value.s| ==> !Text.IsLowerLetter(r.value.s[i])
  {
    if v.VStr? then
      Text.UpperIdempotent(v.s);
      Ok(VStr(Text.Upper(v.s)))
    else Err(TypeMismatch("ToUpper", TypeName(v)))
  }

  /** As written, `ToLower` upper-cases its input (see `ToLowerIsToUpper`). */
  function ToLower(v: Value): (r: Result<Value>)
    ensures r.Ok? <==> v.VStr?
    ensures r.Err? ==> r.error == TypeMismatch("ToLower", TypeName(v))
  {
    if v.VStr? then Ok(VStr(Text.Upper(v.s))) else Err(TypeMismatch("ToLower", TypeName(v)))
  }

  /** On strings `ToLower` and `ToUpper` agree: the lower-casing transform
      upper-cases, so "a" comes out as "A". */
  lemma ToLowerIsToUpper(v: Value)
    ensures ToLower(v).Ok? == ToUpper(v).Ok?
    ensures ToLower(v).Ok? ==> ToLower(v) == ToUpper(v)
    ensures ToLower(VStr("a")) == Ok(VStr("A"))
  {
    assert Text.UpperChar('a') == 'A';
    assert Text.Upper("a") == "A";
  }

  /** The lower-casing transform the name promises. */
  function LowerIntended(v: Value): (r: Result<Value>)
    ensures r.Ok? <==> v.VStr?
    ensures r.Err? ==> r.error == TypeMismatch("ToLower", TypeName(v))
    ensures r.Ok? ==> r.value.VStr? && Text.EqualFold(r.value.s, v.s)
    ensures r.Ok? ==> forall i :: 0 <= i < |r.value.s| ==> !Text.IsUpperLetter(r.value.s[i])
  {
    if v.VStr? then
      Text.LowerFolds(v.s);
      Ok(VStr(Text.Lower(v.s)))
    else Err(TypeMismatch("ToLower", TypeName(v)))
  }

  /** The intended transform differs from the one written on "A". */
  lemma LowerIntendedDiffers()
    ensures LowerIntended(VStr("A")) == Ok(VStr("a"))
    ensures ToLower(VStr("A")) == Ok(VStr("A"))
  {
    assert Text.LowerChar('A') == 'a';
    assert Text.Lower("A") == "a";
    assert Text.UpperChar('A') == 'A';
    assert Text.Upper("A") == "A";
  }

  // ---------------------------------------------------------------------
  // Sources, targets, pipelines and definitions

  /** Every source variant `Apply` may be given. `Func` is the callable
      adapter `SourceFunc`, which behaves like `Calculated`. */
  datatype Source =
    | Calculated(calculated: Sources.Calculated)
    | Func(f: () -> Result<Value>)
    | MxjSource(mxj: Sources.Mxj)
    | MxjDataSource(mxjData: MxjData.Source)
    | CsvSource(csv: Sources.Csv)
    | CsvDataSource(csvData: CsvData.Source)

  /** Every target variant; `targets.CSV` is the delimited-field writer
      `CsvData.Target`. */
  datatype Target =
    | MxjTarget(mxj: Targets.Mxj)
    | MxjDataTarget(mxjData: MxjData.Target)
    | CsvTarget(csv: CsvData.Target)

  type Stage = Value -> Result<Value>
  type Pipeline = seq<Stage>

  datatype Mapping = Mapping(source: Source, transform: Pipeline, target: Target)

  datatype Definition = Definition(mappings: seq<Mapping>)

  /** Left fold of a value through the pipeline's stages, stopping at the
      first error. */
  function RunPipeline(p: Pipeline, v: Value): (r: Result<Value>)
    ensures p == [] ==> r == Ok(v)
  {
    if p == [] then Ok(v)
    else match p[0](v)
      case Err(e) => Err(e)
      case Ok(u) => RunPipeline(p[1..], u)
  }

  /** Running `p + q` is running `p` and then, if it succeeded, `q` on its
      output. */
  lemma {:induction false} PipelineAppend(p: Pipeline, q: Pipeline, v: Value)
    ensures RunPipeline(p + q, v) ==
      match RunPipeline(p, v)
      case Err(e) => Err(e)
      case Ok(u) => RunPipeline(q, u)
  {
    if p == [] {
      assert p + q == q;
    } else {
      assert (p + q)[0] == p[0];
      assert (p + q)[1..] == p[1..] + q;
      match p[0](v)
      case Err(e) =>
      case Ok(u) => PipelineAppend(p[1..], q, u);
    }
  }

  /** A one-stage pipeline is that stage. */
  lemma PipelineSingle(f: Stage, v: Value)
    ensures RunPipeline([f], v) == f(v)
  {
    assert [f][1..] == [];
  }

  /** The value handed on is f_n(...f_1(v)); when stage k fails on the value
      the earlier stages produced, the pipeline returns that stage's error
      and no later stage runs. */
  lemma PipelineStopsAtFailingStage(p: Pipeline, v: Value, k: nat, u: Value, e: Error)
    requires k < |p|
    requires RunPipeline(p[..k], v) == Ok(u) && p[k](u) == Err(e)
    ensures RunPipeline(p, v) == Err(e)
  {
    assert p == p[..k] + ([p[k]] + p[k + 1..]);
    PipelineAppend(p[..k], [p[k]] + p[k + 1..], v);
    PipelineAppend([p[k]], p[k + 1..], u);
    PipelineSingle(p[k], u);
  }

  // ---------------------------------------------------------------------
  // The state the mappings read and write

  /** The contents of the shared records and documents. */
  datatype World = World(cells: map<array<string>, seq<string>>, trees: map<TreeDoc.Document, map<string, Value>>)

  /** The result of `Apply`: its error and the state it leaves. */
  datatype Run = Run(status: Outcome, world: World)

  predicate SourceCovered(s: Source, w: World)
  {
    match s
    case MxjSource(x) => x.doc in w.trees
    case MxjDataSource(x) => x.doc in w.trees
    case CsvSource(x) => x.record in w.cells
    case CsvDataSource(x) => x.record in w.cells
    case _ => true
  }

  predicate TargetCovered(t: Target, w: World)
  {
    match t
    case MxjTarget(x) => x.doc in w.trees
    case MxjDataTarget(x) => x.doc in w.trees
    case CsvTarget(x) => x.record in w.cells
  }

  predicate Covers(ms: seq<Mapping>, w: World)
  {
    forall k :: 0 <= k < |ms| ==> SourceCovered(ms[k].source, w) && TargetCovered(ms[k].target, w)
  }

  /** What a source reads in state `w`. */
  function SourceIn(s: Source, w: World): (r: Result<Value>)
    requires SourceCovered(s, w)
    ensures s.Calculated? ==> r == s.calculated.formula()
    ensures s.Func? ==> r == s.f()
    ensures s.MxjSource? && s.mxj.path in w.trees[s.mxj.doc] ==> r == Ok(w.trees[s.mxj.doc][s.mxj.path])
    ensures s.MxjDataSource? && s.mxjData.path in w.trees[s.mxjData.doc] ==>
              r == Ok(w.trees[s.mxjData.doc][s.mxjData.path])
    ensures (s.CsvSource? || s.CsvDataSource?) && r.Ok? ==> r.value.VStr?
  {
    match s
    case Calculated(c) => c.Value()
    case Func(f) => f()
    case MxjSource(x) => x.ValueIn(w.trees[x.doc])
    case MxjDataSource(x) => x.ValueIn(w.trees[x.doc])
    case CsvSource(x) => CsvData.ReadField(x.header, w.cells[x.record], x.columnNumber, x.columnName)
    case CsvDataSource(x) => CsvData.ReadField(x.header, w.cells[x.record], x.columnNumber, x.columnName)
  }

  /** The state after a target stores `v` in state `w`, or its error; a
      failed write changes nothing, a successful one changes only the
      target's own record or document. */
  function TargetIn(t: Target, v: Value, w: World): (r: Result<World>)
    requires TargetCovered(t, w)
    ensures r.Ok? ==> r.value.cells.Keys == w.cells.Keys && r.value.trees.Keys == w.trees.Keys
  {
    match t
    case MxjTarget(x) =>
      (match x.SetIn(w.trees[x.doc], v)
       case Err(e) => Err(e)
       case Ok(tree) => Ok(w.(trees := w.trees[x.doc := tree])))
    case MxjDataTarget(x) =>
      (match x.SetIn(w.trees[x.doc], v)
       case Err(e) => Err(e)
       case Ok(tree) => Ok(w.(trees := w.trees[x.doc := tree])))
    case CsvTarget(x) =>
      (match CsvData.WriteField(x.header, w.cells[x.record], x.columnNumber, x.columnName, v)
       case Err(e) => Err(e)
       case Ok(cells) => Ok(w.(cells := w.cells[x.record := cells])))
  }

  /** One mapping: read, fold, write. */
  function StepIn(m: Mapping, w: World): (r: Result<World>)
    requires SourceCovered(m.source, w) && TargetCovered(m.target, w)
    ensures r.Ok? ==> r.value.cells.Keys == w.cells.Keys && r.value.trees.Keys == w.trees.Keys
  {
    match SourceIn(m.source, w)
    case Err(e) => Err(e)
    case Ok(v) =>
      match RunPipeline(m.transform, v)
      case Err(e) => Err(e)
      case Ok(u) => TargetIn(m.target, u, w)
  }

  /** A mapping fails with its source's error when the source fails, and
      then neither a stage nor the target runs. */
  lemma SourceFailureStopsMapping(m: Mapping, w: World, e: Error)
    requires SourceCovered(m.source, w) && TargetCovered(m.target, w)
    requires SourceIn(m.source, w) == Err(e)
    ensures StepIn(m, w) == Err(e)
  {
  }

  /** When the source succeeds, the target receives exactly the pipeline's
      output; a failing stage fails the mapping before the target write. */
  lemma TargetReceivesPipelineOutput(m: Mapping, w: World, v: Value)
    requires SourceCovered(m.source, w) && TargetCovered(m.target, w)
    requires SourceIn(m.source, w) == Ok(v)
    ensures RunPipeline(m.transform, v).Ok? ==>
      StepIn(m, w) == TargetIn(m.target, RunPipeline(m.transform, v).value, w)
    ensures RunPipeline(m.transform, v).Err? ==> StepIn(m, w) == Err(RunPipeline(m.transform, v).error)
    ensures m.transform == [] ==> StepIn(m, w) == TargetIn(m.target, v, w)
  {
  }

  /** `Apply` on state `w`: the mappings in order, stopping at the first error. */
  function ApplyIn(ms: seq<Mapping>, w: World): (r: Run)
    requires Covers(ms, w)
    ensures r.world.cells.Keys == w.cells.Keys && r.world.trees.Keys == w.trees.Keys
    decreases |ms|
  {
    if ms == [] then Run(Pass, w)
    else match StepIn(ms[0], w)
      case Err(e) => Run(Fail(e), w)
      case Ok(w') => ApplyIn(ms[1..], w')
  }

  lemma CoversSlices(ms: seq<Mapping>, w: World, w': World, i: nat, j: nat)
    requires Covers(ms, w) && i <= j <= |ms|
    requires w'.cells.Keys == w.cells.Keys && w'.trees.Keys == w.trees.Keys
    ensures Covers(ms[i..j], w')
  {
    forall k | 0 <= k < j - i
      ensures SourceCovered(ms[i..j][k].source, w') && TargetCovered(ms[i..j][k].target, w')
    {
      assert ms[i..j][k] == ms[i + k];
      assert SourceCovered(ms[i + k].source, w) && TargetCovered(ms[i + k].target, w);
    }
  }

  /** Applying `ms1 + ms2` applies `ms1` and, only if it succeeded, `ms2`
      from the state `ms1` left. */
  lemma {:induction false} ApplyAppend(ms1: seq<Mapping>, ms2: seq<Mapping>, w: World)
    requires Covers(ms1 + ms2, w)
    ensures Covers(ms1, w)
    ensures ApplyIn(ms1 + ms2, w) ==
      var r := ApplyIn(ms1, w);
      if r.status.Fail? then r
      else (CoversSlices(ms1 + ms2, w, r.world, |ms1|, |ms1 + ms2|);
            assert (ms1 + ms2)[|ms1|..] == ms2;
            ApplyIn(ms2, r.world))
    decreases |ms1|
  {
    CoversSlices(ms1 + ms2, w, w, 0, |ms1|);
    assert (ms1 + ms2)[..|ms1|] == ms1;
    if ms1 != [] {
      var ms := ms1 + ms2;
      assert ms[0] == ms1[0];
      match StepIn(ms1[0], w)
      case Err(e) =>
      case Ok(w') =>
        assert ms[1..] == ms1[1..] + ms2;
        CoversSlices(ms, w, w', 1, |ms|);
        ApplyAppend(ms1[1..], ms2, w');
    }
  }

  /** Short-circuit without rollback: if the first k mappings succeed,
      leaving `wk`, and mapping k fails with `e`, then `Apply` returns `e`,
      no later mapping runs, and the state is `wk`, earlier writes included. */
  lemma ApplyShortCircuit(ms: seq<Mapping>, w: World, k: nat, wk: World, e: Error)
    requires Covers(ms, w) && k < |ms|
    requires Covers(ms[..k], w) && ApplyIn(ms[..k], w) == Run(Pass, wk)
    requires SourceCovered(ms[k].source, wk) && TargetCovered(ms[k].target, wk)
    requires StepIn(ms[k], wk) == Err(e)
    ensures ApplyIn(ms, w) == Run(Fail(e), wk)
  {
    assert ms == ms[..k] + ms[k..];
    ApplyAppend(ms[..k], ms[k..], w);
    CoversSlices(ms, w, wk, k, |ms|);
    assert ms[k..][0] == ms[k];
  }

  /** `Apply` reports an error exactly when some mapping fails in the state
      its predecessors left, all of them having succeeded. */
  lemma {:induction false} ApplyFailsIff(ms: seq<Mapping>, w: World)
    requires Covers(ms, w)
    ensures ApplyIn(ms, w).status.Fail? <==>
      exists k :: 0 <= k < |ms| && FailsAt(ms, w, k)
    decreases |ms|
  {
    if ms != [] {
      CoversSlices(ms, w, w, 0, 1);
      assert ApplyIn(ms[..0], w) == Run(Pass, w) by { assert ms[..0] == []; }
      match StepIn(ms[0], w)
      case Err(e) =>
        assert FailsAt(ms, w, 0);
      case Ok(w') =>
        CoversSlices(ms, w, w', 1, |ms|);
        ApplyFailsIff(ms[1..], w');
        ShiftFailsAt(ms, w, w');
    }
  }

  /** Mapping k is the one that fails: the mappings before it succeed and
      it does not. */
  predicate FailsAt(ms: seq<Mapping>, w: World, k: nat)
    requires Covers(ms, w) && k < |ms|
  {
    CoversSlices(ms, w, w, 0, k);
    var r := ApplyIn(ms[..k], w);
    r.status == Pass &&
    (CoversSlices(ms, w, r.world, k, k + 1);
     assert ms[k..k + 1][0] == ms[k];
     StepIn(ms[k], r.world).Err?)
  }

  /** After a first mapping that succeeds, the failing mapping of `ms` is
      one past the failing mapping of the rest. */
  lemma ShiftFailsAt(ms: seq<Mapping>, w: World, w': World)
    requires Covers(ms, w) && |ms| > 0
    requires StepIn(ms[0], w) == Ok(w')
    requires Covers(ms[1..], w')
    ensures (exists k :: 0 <= k < |ms| && FailsAt(ms, w, k)) <==>
            (exists k :: 0 <= k < |ms| - 1 && FailsAt(ms[1..], w', k))
  {
    forall k | 0 <= k < |ms| - 1
      ensures FailsAt(ms, w, k + 1) <==> FailsAt(ms[1..], w', k)
    {
      assert ms[..k + 1] == [ms[0]] + ms[1..][..k];
      CoversSlices(ms, w, w, 0, k + 1);
      CoversSlices(ms[1..], w', w', 0, k);
      ApplyAppend([ms[0]], ms[1..][..k], w);
      assert [ms[0]][1..] == [];
      assert ms[1..][k] == ms[k + 1];
    }
    if exists k :: 0 <= k < |ms| && FailsAt(ms, w, k) {
      var k :| 0 <= k < |ms| && FailsAt(ms, w, k);
      assert ms[..0] == [];
      assert k != 0;
      assert FailsAt(ms[1..], w', k - 1);
    }
  }

  // ---------------------------------------------------------------------
  // Executing a definition against the heap

  function MappingArrays(m: Mapping): set<array<string>>
  {
    (match m.source
     case CsvSource(x) => {x.record}
     case CsvDataSource(x) => {x.record}
     case _ => {}) +
    (match m.target
     case CsvTarget(x) => {x.record}
     case _ => {})
  }

  function MappingDocs(m: Mapping): set<TreeDoc.Document>
  {
    (match m.source
     case MxjSource(x) => {x.doc}
     case MxjDataSource(x) => {x.doc}
     case _ => {}) +
    (match m.target
     case MxjTarget(x) => {x.doc}
     case MxjDataTarget(x) => {x.doc}
     case _ => {})
  }

  function Arrays(ms: seq<Mapping>): set<array<string>>
  {
    set k, a | 0 <= k < |ms| && a in MappingArrays(ms[k]) :: a
  }

  function Docs(ms: seq<Mapping>): set<TreeDoc.Document>
  {
    set k, x | 0 <= k < |ms| && x in MappingDocs(ms[k]) :: x
  }

  /** The objects a target may change. */
  function TargetObjects(t: Target): set<object>
  {
    match t
    case MxjTarget(x) => {x.doc}
    case MxjDataTarget(x) => {x.doc}
    case CsvTarget(x) => {x.record}
  }

  function Writes(ms: seq<Mapping>): set<object>
  {
    set k, o | 0 <= k < |ms| && o in TargetObjects(ms[k].target) :: o
  }

  /** `w` holds the current contents of every record and document it names. */
  ghost predicate Current(w: World)
    reads w.cells.Keys, w.trees.Keys
  {
    (forall a | a in w.cells :: w.cells[a] == a[..]) &&
    (forall x | x in w.trees :: w.trees[x] == x.entries)
  }

  /** The current contents of everything the mappings read or write. */
  ghost function Snapshot(ms: seq<Mapping>): (w: World)
    reads Arrays(ms), Docs(ms)
    ensures Covers(ms, w) && Current(w)
    ensures w.cells.Keys == Arrays(ms) && w.trees.Keys == Docs(ms)
  {
    var w := World(map a | a in Arrays(ms) :: a[..], map x | x in Docs(ms) :: x.entries);
    assert forall k :: 0 <= k < |ms| ==> MappingArrays(ms[k]) <= Arrays(ms) && MappingDocs(ms[k]) <= Docs(ms);
    w
  }

  method ReadSource(s: Source, ghost w: World) returns (r: Result<Value>)
    requires SourceCovered(s, w) && Current(w)
    ensures r == SourceIn(s, w)
  {
    match s
    case Calculated(c) => r := c.Value();
    case Func(f) => r := f();
    case MxjSource(x) => r := x.ValueIn(x.doc.entries);
    case MxjDataSource(x) => r := x.ValueIn(x.doc.entries);
    case CsvSource(x) => r := x.Value();
    case CsvDataSource(x) => r := x.Value();
  }

  method WriteTarget(t: Target, v: Value, ghost w: World) returns (err: Outcome)
    requires TargetCovered(t, w) && Current(w)
    modifies TargetObjects(t)
    ensures match TargetIn(t, v, w)
      case Ok(w') => err == Pass && Current(w')
      case Err(e) => err == Fail(e) && Current(w)
  {
    match t
    case MxjTarget(x) => err := x.SetValue(v);
    case MxjDataTarget(x) => err := x.SetValue(v);
    case CsvTarget(x) => err := x.SetValue(v);
  }

  /** The inner loop of `Apply`: fold `v` through the stages in order,
      returning the first error. */
  method Transform(p: Pipeline, v: Value) returns (r: Result<Value>)
    ensures r == RunPipeline(p, v)
  {
    var u := v;
    var j := 0;
    while j < |p|
      invariant 0 <= j <= |p|
      invariant RunPipeline(p, v) == RunPipeline(p[j..], u)
    {
      assert p[j..][1..] == p[j + 1..];
      var s := p[j](u);
      if s.Err? {
        return Err(s.error);
      }
      u := s.value;
      j := j + 1;
    }
    assert p[j..] == [];
    r := Ok(u);
  }

  /** One iteration of `Apply`'s loop: read the source, fold the value
      through the pipeline, write the target. */
  method ApplyMapping(m: Mapping, ghost w: World) returns (err: Outcome)
    requires SourceCovered(m.source, w) && TargetCovered(m.target, w) && Current(w)
    modifies TargetObjects(m.target)
    ensures match StepIn(m, w)
      case Ok(w') => err == Pass && Current(w')
      case Err(e) => err == Fail(e) && Current(w)
  {
    var r := ReadSource(m.source, w);
    if r.Err? {
      return Fail(r.error);
    }
    var u := Transform(m.transform, r.value);
    if u.Err? {
      return Fail(u.error);
    }
    err := WriteTarget(m.target, u.value, w);
  }

  /** `Apply` runs the mappings in order and ends in exactly the error and
      state `ApplyIn` prescribes for the state it started from. */
  method Apply(d: Definition) returns (err: Outcome)
    modifies Writes(d.mappings)
    ensures ApplyIn(d.mappings, old(Snapshot(d.mappings))) == Run(err, Snapshot(d.mappings))
  {
    var ms := d.mappings;
    ghost var w0 := Snapshot(ms);
    ghost var w := w0;
    var i := 0;
    while i < |ms|
      invariant 0 <= i <= |ms|
      invariant w.cells.Keys == Arrays(ms) && w.trees.Keys == Docs(ms)
      invariant Current(w) && Covers(ms, w)
      invariant Covers(ms[i..], w) && ApplyIn(ms[i..], w) == ApplyIn(ms, w0)
    {
      var m := ms[i];
      assert ms[i..][0] == m;
      assert ms[i..][1..] == ms[i + 1..];
      assert TargetObjects(m.target) <= Writes(ms);
      err := ApplyMapping(m, w);
      if err.Fail? {
        SnapshotIsCurrent(ms, w);
        return;
      }
      w := StepIn(m, w).value;
      CoversSlices(ms, w0, w, i + 1, |ms|);
      CoversSlices(ms, w0, w, 0, |ms|);
      assert ms[0..|ms|] == ms;
      i := i + 1;
    }
    err := Pass;
    SnapshotIsCurrent(ms, w);
  }

  /** A state that is current and names exactly the mappings' records and
      documents is their snapshot. */
  lemma SnapshotIsCurrent(ms: seq<Mapping>, w: World)
    requires w.cells.Keys == Arrays(ms) && w.trees.Keys == Docs(ms) && Current(w)
    ensures w == Snapshot(ms)
  {
  }
}
