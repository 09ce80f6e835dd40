/** Source variants (sources/sources.go): a computed value, a tree-path
    reader with an optional error handler, and a delimited-field reader. */
module Sources {
  import opened Values
  import TreeDoc
  import CsvData

  /** A source whose value is whatever one call of `formula` produces. */
  datatype Calculated = Calculated(formula: () -> Result<Value>)
  {
    function Value(): (r: Result<Value>)
      ensures r == formula()
    {
      formula()
    }
  }

  /** Tree-path reader over a shared document. */
  datatype Mxj = Mxj(doc: TreeDoc.Document, path: string, onError: Option<TreeDoc.ReadHandler>)
  {
    /** What `Value` returns while the document holds `tree`: the stored
        value when the path exists; otherwise the handler's result when one
        is configured (it sees the path, a nil value and the library's
        error); otherwise a read failure wrapping that error. */
    function ValueIn(tree: map<string, Value>): (r: Result<Value>)
      ensures path in tree ==> r == Ok(tree[path])
      ensures path !in tree && onError.Some? ==> r == onError.value(path, VNil, PathNotExist)
      ensures path !in tree && onError.None? ==> r == Err(ReadFailure(path, PathNotExist))
    {
      match TreeDoc.Lookup(tree, path)
      case Ok(v) => Ok(v)
      case Err(e) => if onError.Some? then onError.value(path, VNil, e) else Err(ReadFailure(path, e))
    }
  }

  /** Without a handler the reader fails exactly when the path is missing;
      with one, it fails exactly when the path is missing and the handler
      reports an error. */
  lemma MxjFailsIff(s: Mxj, tree: map<string, Value>)
    ensures s.ValueIn(tree).Err? <==>
      s.path !in tree && (s.onError.None? || s.onError.value(s.path, VNil, PathNotExist).Err?)
  {
  }

  /** Delimited-field reader; the same resolution as `CsvData.Source`. */
  datatype Csv = Csv(header: seq<string>, record: array<string>, columnNumber: nat, columnName: string)
  {
    method Value() returns (r: Result<Value>)
      ensures r == CsvData.ReadField(header, record[..], columnNumber, columnName)
    {
      var col := columnNumber;
      if col < 1 {
        if |header| < 1 || columnName == "" {
          return Err(MissingFieldIdentifier(record.Length));
        }
        var index := 0;
        while index < |header|
          invariant 0 <= index <= |header|
          invariant forall j :: 0 <= j < index ==> header[j] != columnName
        {
          if header[index] == columnName {
            col := index + 1;
            break;
          }
          index := index + 1;
        }
        if col < 1 {
          CsvData.FirstIndexSpec(header, columnName);
          return Err(UnknownFieldName(columnName));
        }
        CsvData.FirstIndexIsEarliest(header, columnName, col - 1);
      }
      if col > record.Length {
        return Err(FieldOutOfRange(col, record.Length));
      }
      r := Ok(VStr(record[col - 1]));
    }
  }
}
