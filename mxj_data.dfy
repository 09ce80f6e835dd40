/** Tree-path accessors of mxj/data/data.go. They repeat the error-handler
    dispatch of `Sources.Mxj` and `Targets.Mxj`; the lemmas at the end state
    that the two copies behave identically. */
module MxjData {
  import opened Values
  import TreeDoc
  import Sources
  import Targets

  datatype Source = Source(doc: TreeDoc.Document, path: string, onError: Option<TreeDoc.ReadHandler>)
  {
    /** What `Value` returns while the document holds `tree`. */
    function ValueIn(tree: map<string, Value>): (r: Result<Value>)
      ensures path in tree ==> r == Ok(tree[path])
      ensures path !in tree && onError.Some? ==> r == onError.value(path, VNil, PathNotExist)
      ensures path !in tree && onError.None? ==> r.Err? && r.error.ReadFailure? && r.error.path == path
    {
      match TreeDoc.Lookup(tree, path)
      case Ok(v) => Ok(v)
      case Err(e) => if onError.Some? then onError.value(path, VNil, e) else Err(ReadFailure(path, e))
    }
  }

  datatype Target = Target(doc: TreeDoc.Document, path: string, onError: Option<TreeDoc.WriteHandler>)
  {
    /** The document's contents after `SetValue(v)` when it held `tree`, or
        the error `SetValue` returns. */
    function SetIn(tree: map<string, Value>, v: Value): (r: Result<map<string, Value>>)
      ensures path !in doc.rejects ==> r == Ok(tree[path := v])
      ensures path in doc.rejects && onError.Some? ==>
        r == match onError.value(path, v, PathNotSettable(path))
               case Pass => Ok(tree)
               case Fail(e) => Err(e)
      ensures path in doc.rejects && onError.None? ==> r.Err? && r.error.WriteFailure? && r.error.path == path
    {
      match TreeDoc.Store(tree, doc.rejects, path, v)
      case Ok(t) => Ok(t)
      case Err(e) =>
        if onError.Some? then
          match onError.value(path, v, e)
          case Pass => Ok(tree)
          case Fail(e') => Err(e')
        else Err(WriteFailure(path, e))
    }

    method SetValue(v: Value) returns (err: Outcome)
      modifies doc
      ensures match SetIn(old(doc.entries), v)
        case Ok(tree) => err == Pass && doc.entries == tree
        case Err(e) => err == Fail(e) && doc.entries == old(doc.entries)
    {
      err := doc.SetValueForPath(v, path);
      if err.Fail? {
        if onError.Some? {
          err := onError.value(path, v, err.error);
        } else {
          err := Fail(WriteFailure(path, err.error));
        }
      }
    }
  }

  /** This reader answers exactly as `Sources.Mxj` configured alike. */
  lemma SourceAgrees(s: Source, tree: map<string, Value>)
    ensures s.ValueIn(tree) == Sources.Mxj(s.doc, s.path, s.onError).ValueIn(tree)
  {
  }

  /** This writer answers exactly as `Targets.Mxj` configured alike. */
  lemma TargetAgrees(t: Target, tree: map<string, Value>, v: Value)
    ensures t.SetIn(tree, v) == Targets.Mxj(t.doc, t.path, t.onError).SetIn(tree, v)
  {
  }
}
