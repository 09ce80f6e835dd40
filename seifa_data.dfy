/** The SEIFA lookup (seifa/data/data.go): pick one of six lookup tables,
    skip its header and return the first data row whose non-empty first
    cell equals a postal area case-insensitively; an absent row is not an
    error. Each table is given as the successive results of reading its
    text one record at a time, header first; the end of the sequence is
    the end of input. */
module SeifaData {
  import opened Values
  import Text

  /** One read of the next record: its cells, or the reader's error. */
  datatype RecordRead = Record(cells: seq<string>) | Unreadable(error: Error)

  type Table = seq<RecordRead>

  /** The six tables the package embeds. */
  datatype Tables = Tables(t1: Table, t2: Table, t3: Table, t4: Table, t5: Table, t6: Table)

  function SelectTable(ts: Tables, table: int): (r: Option<Table>)
    ensures r.Some? <==> 1 <= table <= 6
  {
    match table
    case 1 => Some(ts.t1)
    case 2 => Some(ts.t2)
    case 3 => Some(ts.t3)
    case 4 => Some(ts.t4)
    case 5 => Some(ts.t5)
    case 6 => Some(ts.t6)
    case _ => None
  }

  /** A row matches a postal area when its first cell is present, non-empty
      and equal to it ignoring case. */
  predicate Matches(cells: seq<string>, poa: string)
    ensures Matches(cells, poa) ==> |cells| > 0 && poa != "" && |cells[0]| == |poa|
    ensures |cells| > 0 && poa != "" && cells[0] == poa ==> Matches(cells, poa)
  {
    |cells| > 0 && cells[0] != "" && Text.EqualFold(cells[0], poa)
  }

  /** The data rows scanned in order until the end of input: the first
      reader error, the first matching row, or nothing. The reader reports
      the end of input as `EndOfInput`, which ends the scan like the end of
      the sequence; it is not an error. */
  function Scan(rows: Table, poa: string): (r: Result<Option<seq<string>>>)
    ensures r.Ok? && r.value.Some? ==> Matches(r.value.value, poa)
    ensures r.Err? ==> r.error != EndOfInput
  {
    if rows == [] then Ok(None)
    else match rows[0]
      case Unreadable(e) => if e == EndOfInput then Ok(None) else Err(e)
      case Record(cells) => if Matches(cells, poa) then Ok(Some(cells)) else Scan(rows[1..], poa)
  }

  /** What `FirstMatchingRecord(table, poa)` returns. */
  function FirstMatch(ts: Tables, table: int, poa: string): (r: Result<Option<seq<string>>>)
    ensures !(1 <= table <= 6) ==> r == Err(InvalidTable(table))
    ensures r.Ok? && r.value.Some? ==> Matches(r.value.value, poa)
    ensures 1 <= table <= 6 && SelectTable(ts, table).value == [] ==> r == Err(HeaderUnreadable(EndOfInput))
    ensures 1 <= table <= 6 && SelectTable(ts, table).value != [] && SelectTable(ts, table).value[0].Unreadable? ==>
              r == Err(HeaderUnreadable(SelectTable(ts, table).value[0].error))
    ensures 1 <= table <= 6 && SelectTable(ts, table).value != [] && SelectTable(ts, table).value[0].Record? ==>
              r == Scan(SelectTable(ts, table).value[1..], poa)
  {
    match SelectTable(ts, table)
    case None => Err(InvalidTable(table))
    case Some(t) =>
      if t == [] then Err(HeaderUnreadable(EndOfInput))
      else if t[0].Unreadable? then Err(HeaderUnreadable(t[0].error))
      else Scan(t[1..], poa)
  }

  /** Rows before position k were read and none of them matched. */
  predicate NoMatchBefore(rows: Table, poa: string, k: nat)
    requires k <= |rows|
  {
    forall j :: 0 <= j < k ==> rows[j].Record? && !Matches(rows[j].cells, poa)
  }

  /** The scan returns the first matching row: a row that matches after
      only readable, non-matching rows is the answer, whatever follows. */
  lemma {:induction false} ScanFindsFirst(rows: Table, poa: string, k: nat)
    requires k < |rows| && rows[k].Record? && Matches(rows[k].cells, poa)
    requires NoMatchBefore(rows, poa, k)
    ensures Scan(rows, poa) == Ok(Some(rows[k].cells))
  {
    if k > 0 {
      assert NoMatchBefore(rows[1..], poa, k - 1) by {
        forall j | 0 <= j < k - 1 ensures rows[1..][j] == rows[j + 1] { }
      }
      ScanFindsFirst(rows[1..], poa, k - 1);
    }
  }

  /** A read error ends the scan and is returned as it is: an unreadable
      row, other than the end of input, after only readable, non-matching
      rows makes the scan fail with that row's error. */
  lemma {:induction false} ScanStopsAtReadError(rows: Table, poa: string, k: nat, e: Error)
    requires k < |rows| && rows[k] == Unreadable(e) && e != EndOfInput
    requires NoMatchBefore(rows, poa, k)
    ensures Scan(rows, poa) == Err(e)
  {
    if k > 0 {
      assert NoMatchBefore(rows[1..], poa, k - 1) by {
        forall j | 0 <= j < k - 1 ensures rows[1..][j] == rows[j + 1] { }
      }
      ScanStopsAtReadError(rows[1..], poa, k - 1, e);
    }
  }

  /** Conversely, every error of the scan is the error of an unreadable row
      read before the end of input, after only readable, non-matching rows. */
  lemma {:induction false} ScanErrorIsFirst(rows: Table, poa: string)
    requires Scan(rows, poa).Err?
    ensures exists k :: 0 <= k < InputEnd(rows) && rows[k] == Unreadable(Scan(rows, poa).error) &&
                        NoMatchBefore(rows, poa, k)
  {
    if rows[0].Record? {
      ScanErrorIsFirst(rows[1..], poa);
      var k :| 0 <= k < InputEnd(rows[1..]) && rows[1..][k] == Unreadable(Scan(rows[1..], poa).error) &&
               NoMatchBefore(rows[1..], poa, k);
      assert rows[k + 1] == rows[1..][k];
      assert NoMatchBefore(rows, poa, k + 1) by {
        forall j | 1 <= j < k + 1 ensures rows[j] == rows[1..][j - 1] { }
      }
    } else {
      assert NoMatchBefore(rows, poa, 0);
    }
  }

  /** Conversely, a row the scan returns is a matching row read after only
      readable, non-matching rows. */
  lemma {:induction false} ScanResultIsFirst(rows: Table, poa: string)
    requires Scan(rows, poa).Ok? && Scan(rows, poa).value.Some?
    ensures exists k :: 0 <= k < |rows| && rows[k] == Record(Scan(rows, poa).value.value) &&
                        Matches(rows[k].cells, poa) && NoMatchBefore(rows, poa, k)
  {
    if !(rows[0].Record? && Matches(rows[0].cells, poa)) {
      ScanResultIsFirst(rows[1..], poa);
      var k :| 0 <= k < |rows[1..]| && rows[1..][k] == Record(Scan(rows[1..], poa).value.value) &&
               Matches(rows[1..][k].cells, poa) && NoMatchBefore(rows[1..], poa, k);
      assert rows[k + 1] == rows[1..][k];
      assert NoMatchBefore(rows, poa, k + 1) by {
        forall j | 1 <= j < k + 1 ensures rows[j] == rows[1..][j - 1] { }
      }
    } else {
      assert NoMatchBefore(rows, poa, 0);
    }
  }

  /** The number of rows read before the end of input: the position of the
      first `EndOfInput`, or all of them when there is none. */
  function InputEnd(rows: Table): (n: nat)
    ensures n <= |rows|
    ensures n < |rows| ==> rows[n] == Unreadable(EndOfInput)
    ensures forall j :: 0 <= j < n ==> rows[j] != Unreadable(EndOfInput)
  {
    if rows == [] || rows[0] == Unreadable(EndOfInput) then 0 else InputEnd(rows[1..]) + 1
  }

  /** Not found is not an error: the scan finds nothing exactly when every
      row before the end of input was read and none matched. */
  lemma {:induction false} ScanNotFoundIff(rows: Table, poa: string)
    ensures Scan(rows, poa) == Ok(None) <==> NoMatchBefore(rows, poa, InputEnd(rows))
  {
    if rows != [] && rows[0] != Unreadable(EndOfInput) {
      var n := InputEnd(rows[1..]);
      ScanNotFoundIff(rows[1..], poa);
      assert NoMatchBefore(rows, poa, n + 1) <==>
             rows[0].Record? && !Matches(rows[0].cells, poa) && NoMatchBefore(rows[1..], poa, n)
      by {
        if rows[0].Record? && !Matches(rows[0].cells, poa) && NoMatchBefore(rows[1..], poa, n) {
          forall j | 1 <= j < n + 1 ensures rows[j] == rows[1..][j - 1] { }
        }
      }
    }
  }

  /** Rows with an empty or missing first cell never match, so an empty
      postal area is never found. */
  lemma {:induction false} EmptyKeyNeverFound(rows: Table)
    ensures Scan(rows, "").Err? || Scan(rows, "") == Ok(None)
  {
    if rows != [] {
      EmptyKeyNeverFound(rows[1..]);
    }
  }

  /** A table number outside 1..6 is an error; within it, the header row is
      never returned: a result is one of the data rows. */
  lemma FirstMatchShape(ts: Tables, table: int, poa: string)
    ensures !(1 <= table <= 6) ==> FirstMatch(ts, table, poa) == Err(InvalidTable(table))
    ensures FirstMatch(ts, table, poa).Ok? && FirstMatch(ts, table, poa).value.Some? ==>
      var t := SelectTable(ts, table).value;
      exists k :: 1 <= k < |t| && t[k] == Record(FirstMatch(ts, table, poa).value.value)
  {
    var r := FirstMatch(ts, table, poa);
    if r.Ok? && r.value.Some? {
      var t := SelectTable(ts, table).value;
      ScanResultIsFirst(t[1..], poa);
      var k :| 0 <= k < |t[1..]| && t[1..][k] == Record(r.value.value) &&
               Matches(t[1..][k].cells, poa) && NoMatchBefore(t[1..], poa, k);
      assert t[k + 1] == t[1..][k];
    }
  }

  method FirstMatchingRecord(ts: Tables, table: int, poa: string) returns (r: Result<Option<seq<string>>>)
    ensures r == FirstMatch(ts, table, poa)
  {
    var t: Table;
    match table {
      case 1 => t := ts.t1;
      case 2 => t := ts.t2;
      case 3 => t := ts.t3;
      case 4 => t := ts.t4;
      case 5 => t := ts.t5;
      case 6 => t := ts.t6;
      case _ => return Err(InvalidTable(table));
    }
    if |t| == 0 {
      return Err(HeaderUnreadable(EndOfInput));
    }
    if t[0].Unreadable? {
      return Err(HeaderUnreadable(t[0].error));
    }
    var next := 1;
    while next < |t|
      invariant 1 <= next <= |t|
      invariant Scan(t[1..], poa) == Scan(t[next..], poa)
    {
      assert t[next..][1..] == t[next + 1..];
      var read := t[next];
      if read.Unreadable? {
        if read.error == EndOfInput {
          break;
        }
        return Err(read.error);
      }
      if |read.cells| > 0 && read.cells[0] != "" && Text.EqualFold(read.cells[0], poa) {
        return Ok(Some(read.cells));
      }
      next := next + 1;
    }
    r := Ok(None);
  }

  /** The matched row, when there is one, has cell `column`. */
  predicate ColumnPresent(ts: Tables, table: int, poa: string, column: int)
  {
    var r := FirstMatch(ts, table, poa);
    r.Ok? && r.value.Some? ==> 0 <= column < |r.value.value|
  }

  /** Go's `(int, bool, error)`: the lookup's error as `(0, false, err)`, no
      match as `(0, false, nil)`, a cell that is not an integer as
      `(0, false, err)`, otherwise the integer with `true`. */
  method ParseIntFromFirstMatchingRecord(ts: Tables, table: int, poa: string, column: int)
    returns (n: int, found: bool, err: Outcome)
    requires ColumnPresent(ts, table, poa, column)
    ensures err.Fail? || !found ==> n == 0
    ensures found ==> err == Pass
    ensures FirstMatch(ts, table, poa).Err? ==> err == Fail(FirstMatch(ts, table, poa).error)
    ensures FirstMatch(ts, table, poa) == Ok(None) ==> !found && err == Pass
    ensures FirstMatch(ts, table, poa).Ok? && FirstMatch(ts, table, poa).value.Some? ==>
      var cell := FirstMatch(ts, table, poa).value.value[column];
      (found <==> Text.Atoi(cell).Ok?) &&
      (found ==> n == Text.Atoi(cell).value) &&
      (!found ==> err == Fail(Text.Atoi(cell).error))
  {
    var matching := FirstMatchingRecord(ts, table, poa);
    if matching.Err? {
      return 0, false, Fail(matching.error);
    }
    if matching.value.None? {
      return 0, false, Pass;
    }
    var i := Text.Atoi(matching.value.value[column]);
    if i.Err? {
      return 0, false, Fail(i.error);
    }
    return i.value, true, Pass;
  }
}
