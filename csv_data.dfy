/** Delimited-record accessors (csv/data/data.go): a field is picked by an
    explicit 1-based column number or, failing that, by the first header
    cell equal to a column name; the resolved column must lie inside the
    record. The record is a slice shared with the caller, so it is an
    array here and the target writes into it in place. */
module CsvData {
  import opened Values

  /** The first index at which `name` occurs in `header`. */
  function FirstIndex(header: seq<string>, name: string): (r: Option<nat>)
    ensures r.Some? ==> r.value < |header| && header[r.value] == name
  {
    if header == [] then None
    else if header[0] == name then Some(0)
    else match FirstIndex(header[1..], name)
      case None => None
      case Some(i) => Some(i + 1)
  }

  /** `FirstIndex` finds the earliest occurrence, and finds none exactly
      when the name is absent. */
  lemma {:induction false} FirstIndexSpec(header: seq<string>, name: string)
    ensures FirstIndex(header, name).None? <==> name !in header
    ensures FirstIndex(header, name).Some? ==>
      var i := FirstIndex(header, name).value;
      i < |header| && header[i] == name && forall j :: 0 <= j < i ==> header[j] != name
  {
    if header != [] && header[0] != name {
      FirstIndexSpec(header[1..], name);
      assert header == [header[0]] + header[1..];
    }
  }

  /** The converse: the earliest occurrence is what `FirstIndex` returns. */
  lemma FirstIndexIsEarliest(header: seq<string>, name: string, i: nat)
    requires i < |header| && header[i] == name
    requires forall j :: 0 <= j < i ==> header[j] != name
    ensures FirstIndex(header, name) == Some(i)
  {
    FirstIndexSpec(header, name);
    var k := FirstIndex(header, name).value;
    assert !(k < i) && !(i < k);
  }

  /** The requested column before the range check: the explicit number when
      it is at least 1, otherwise one past the first header match. The
      record's length only enters the missing-identifier error. */
  function Locate(header: seq<string>, recordLength: nat, columnNumber: nat, columnName: string)
    : (r: Result<nat>)
    ensures r.Ok? ==> r.value >= 1
    ensures columnNumber >= 1 ==> r == Ok(columnNumber)
  {
    if columnNumber >= 1 then Ok(columnNumber)
    else if |header| < 1 || columnName == "" then Err(MissingFieldIdentifier(recordLength))
    else match FirstIndex(header, columnName)
      case None => Err(UnknownFieldName(columnName))
      case Some(i) => Ok(i + 1)
  }

  /** Field resolution: `Locate`, then the check against the record length. */
  function Resolve(header: seq<string>, recordLength: nat, columnNumber: nat, columnName: string)
    : (r: Result<nat>)
    ensures r.Ok? ==> 1 <= r.value <= recordLength
    ensures r.Ok? ==> Locate(header, recordLength, columnNumber, columnName) == r
    ensures r.Err? && Locate(header, recordLength, columnNumber, columnName).Ok? ==>
      r.error == FieldOutOfRange(Locate(header, recordLength, columnNumber, columnName).value, recordLength)
  {
    match Locate(header, recordLength, columnNumber, columnName)
    case Err(e) => Err(e)
    case Ok(col) => if col > recordLength then Err(FieldOutOfRange(col, recordLength)) else Ok(col)
  }

  /** What `Source.Value` returns for a record holding `cells`. */
  function ReadField(header: seq<string>, cells: seq<string>, columnNumber: nat, columnName: string)
    : (r: Result<Value>)
    ensures r.Ok? <==> Resolve(header, |cells|, columnNumber, columnName).Ok?
    ensures r.Ok? ==> r.value == VStr(cells[Resolve(header, |cells|, columnNumber, columnName).value - 1])
    ensures r.Err? ==> r.error == Resolve(header, |cells|, columnNumber, columnName).error
  {
    match Resolve(header, |cells|, columnNumber, columnName)
    case Err(e) => Err(e)
    case Ok(col) => Ok(VStr(cells[col - 1]))
  }

  /** The cells `Target.SetValue` leaves behind when it succeeds, or its
      error (in which case the record is untouched). Resolution and range
      are checked before the value's type. */
  function WriteField(header: seq<string>, cells: seq<string>, columnNumber: nat, columnName: string, v: Value)
    : (r: Result<seq<string>>)
    ensures r.Ok? <==> Resolve(header, |cells|, columnNumber, columnName).Ok? && v.VStr?
    ensures r.Ok? ==>
      var col := Resolve(header, |cells|, columnNumber, columnName).value;
      |r.value| == |cells| && r.value[col - 1] == v.s &&
      forall k :: 0 <= k < |cells| && k != col - 1 ==> r.value[k] == cells[k]
    ensures Resolve(header, |cells|, columnNumber, columnName).Err? ==>
      r == Err(Resolve(header, |cells|, columnNumber, columnName).error)
    ensures Resolve(header, |cells|, columnNumber, columnName).Ok? && !v.VStr? ==>
      r == Err(TypeMismatch("SetValue", TypeName(v)))
  {
    match Resolve(header, |cells|, columnNumber, columnName)
    case Err(e) => Err(e)
    case Ok(col) =>
      if v.VStr? then Ok(cells[col - 1 := v.s]) else Err(TypeMismatch("SetValue", TypeName(v)))
  }

  /** An explicit column number never consults the header or the name, so
      no name-related error can arise: the field exists iff it is inside
      the record. */
  lemma PositionalIgnoresNames(header: seq<string>, header': seq<string>, n: nat,
                               columnNumber: nat, name: string, name': string)
    requires columnNumber >= 1
    ensures Resolve(header, n, columnNumber, name) == Resolve(header', n, columnNumber, name')
    ensures columnNumber <= n ==> Resolve(header, n, columnNumber, name) == Ok(columnNumber)
    ensures Resolve(header, n, columnNumber, name).Ok? <==> columnNumber <= n
    ensures Resolve(header, n, columnNumber, name).Err? ==>
      Resolve(header, n, columnNumber, name).error == FieldOutOfRange(columnNumber, n)
  {
  }

  /** Without a column number, a missing header or name is reported as a
      missing identifier, and that is the only way to get that error. */
  lemma MissingIdentifierIff(header: seq<string>, n: nat, columnNumber: nat, name: string)
    ensures Resolve(header, n, columnNumber, name) == Err(MissingFieldIdentifier(n)) <==>
            columnNumber == 0 && (|header| == 0 || name == "")
  {
  }

  /** Name resolution picks the first matching header cell; duplicates later
      in the header are ignored. */
  lemma NameResolvesToFirstMatch(header: seq<string>, n: nat, name: string, i: nat)
    requires name != ""
    requires i < |header| && header[i] == name
    requires forall j :: 0 <= j < i ==> header[j] != name
    ensures Locate(header, n, 0, name) == Ok(i + 1)
    ensures Resolve(header, n, 0, name) ==
      if i + 1 <= n then Ok(i + 1) else Err(FieldOutOfRange(i + 1, n))
  {
    FirstIndexIsEarliest(header, name, i);
  }

  /** A name absent from a non-empty header is an unknown name, and only then. */
  lemma UnknownNameIff(header: seq<string>, n: nat, name: string)
    requires |header| >= 1 && name != ""
    ensures Resolve(header, n, 0, name) == Err(UnknownFieldName(name)) <==> name !in header
  {
    FirstIndexSpec(header, name);
  }

  /** The range check fails exactly when the requested column lies past the
      end of the record, even when the name was found in a longer header. */
  lemma OutOfRangeIff(header: seq<string>, n: nat, columnNumber: nat, name: string)
    ensures Resolve(header, n, columnNumber, name).Err? &&
            Resolve(header, n, columnNumber, name).error.FieldOutOfRange? <==>
            Locate(header, n, columnNumber, name).Ok? && Locate(header, n, columnNumber, name).value > n
  {
  }

  /** A non-string value is refused with a type error only once resolution
      and range have succeeded; otherwise the resolution error wins. */
  lemma TypeCheckedLast(header: seq<string>, cells: seq<string>, columnNumber: nat, name: string, v: Value)
    requires !v.VStr?
    ensures WriteField(header, cells, columnNumber, name, v) ==
      match Resolve(header, |cells|, columnNumber, name)
      case Err(e) => Err(e)
      case Ok(_) => Err(TypeMismatch("SetValue", TypeName(v)))
  {
  }

  /** Reading a field back after writing a string to it yields that string. */
  lemma WriteThenRead(header: seq<string>, cells: seq<string>, columnNumber: nat, name: string, s: string)
    requires WriteField(header, cells, columnNumber, name, VStr(s)).Ok?
    ensures ReadField(header, WriteField(header, cells, columnNumber, name, VStr(s)).value, columnNumber, name)
            == Ok(VStr(s))
  {
  }

  /** Writing the same value twice leaves the record as one write does. */
  lemma WriteIdempotent(header: seq<string>, cells: seq<string>, columnNumber: nat, name: string, v: Value)
    requires WriteField(header, cells, columnNumber, name, v).Ok?
    ensures var once := WriteField(header, cells, columnNumber, name, v).value;
            WriteField(header, once, columnNumber, name, v) == Ok(once)
  {
    var once := WriteField(header, cells, columnNumber, name, v).value;
    var col := Resolve(header, |cells|, columnNumber, name).value;
    assert once[col - 1 := v.s] == once;
  }

  /** The source variant: a value-receiver struct whose record is shared. */
  datatype Source = Source(header: seq<string>, record: array<string>, columnNumber: nat, columnName: string)
  {
    method Value() returns (r: Result<Value>)
      ensures r == ReadField(header, record[..], columnNumber, columnName)
    {
      var col := columnNumber;
      if col < 1 {
        if |header| < 1 || columnName == "" {
          return Err(MissingFieldIdentifier(record.Length));
        }
        var index := 0;
        while index < |header|
          invariant 0 <= index <= |header|
          invariant forall j :: 0 <= j < index ==> header[j] != columnName
        {
          if header[index] == columnName {
            col := index + 1;
            break;
          }
          index := index + 1;
        }
        if col < 1 {
          FirstIndexSpec(header, columnName);
          return Err(UnknownFieldName(columnName));
        }
        FirstIndexIsEarliest(header, columnName, col - 1);
      }
      if col > record.Length {
        return Err(FieldOutOfRange(col, record.Length));
      }
      r := Ok(VStr(record[col - 1]));
    }
  }

  /** The target variant; `SetValue` overwrites one cell of the shared record. */
  datatype Target = Target(header: seq<string>, record: array<string>, columnNumber: nat, columnName: string)
  {
    method SetValue(v: Value) returns (err: Outcome)
      modifies record
      ensures match WriteField(header, old(record[..]), columnNumber, columnName, v)
        case Ok(cells) => err == Pass && record[..] == cells
        case Err(e) => err == Fail(e) && record[..] == old(record[..])
    {
      var col := columnNumber;
      if col < 1 {
        if |header| < 1 || columnName == "" {
          return Fail(MissingFieldIdentifier(record.Length));
        }
        var index := 0;
        while index < |header|
          invariant 0 <= index <= |header|
          invariant forall j :: 0 <= j < index ==> header[j] != columnName
        {
          if header[index] == columnName {
            col := index + 1;
            break;
          }
          index := index + 1;
        }
        if col < 1 {
          FirstIndexSpec(header, columnName);
          return Fail(UnknownFieldName(columnName));
        }
        FirstIndexIsEarliest(header, columnName, col - 1);
      }
      if col > record.Length {
        return Fail(FieldOutOfRange(col, record.Length));
      }
      if !v.VStr? {
        return Fail(TypeMismatch("SetValue", TypeName(v)));
      }
      record[col - 1] := v.s;
      err := Pass;
    }
  }
}
