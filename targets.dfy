/** Target variants (targets/targets.go): a tree-path writer with an
    optional error handler. The delimited-field writer used beside it is
    `CsvData.Target`. */
module Targets {
  import opened Values
  import TreeDoc

  /** Tree-path writer over a shared document. */
  datatype Mxj = Mxj(doc: TreeDoc.Document, path: string, onError: Option<TreeDoc.WriteHandler>)
  {
    /** The document's contents after `SetValue(v)` when it held `tree`, or
        the error `SetValue` returns. A refused path goes to the handler,
        which sees the configured path and the value being written; a nil
        result from it suppresses the failure and leaves the tree as it was. */
    function SetIn(tree: map<string, Value>, v: Value): (r: Result<map<string, Value>>)
      ensures path !in doc.rejects ==> r == Ok(tree[path := v])
      ensures path in doc.rejects && onError.Some? ==>
        r == match onError.value(path, v, PathNotSettable(path))
               case Pass => Ok(tree)
               case Fail(e) => Err(e)
      ensures path in doc.rejects && onError.None? ==> r == Err(WriteFailure(path, PathNotSettable(path)))
    {
      match TreeDoc.Store(tree, doc.rejects, path, v)
      case Ok(t) => Ok(t)
      case Err(e) =>
        if onError.Some? then
          match onError.value(path, v, e)
          case Pass => Ok(tree)
          case Fail(e') => Err(e')
        else Err(WriteFailure(path, e))
    }

    method SetValue(v: Value) returns (err: Outcome)
      modifies doc
      ensures match SetIn(old(doc.entries), v)
        case Ok(tree) => err == Pass && doc.entries == tree
        case Err(e) => err == Fail(e) && doc.entries == old(doc.entries)
    {
      err := doc.SetValueForPath(v, path);
      if err.Fail? {
        if onError.Some? {
          err := onError.value(path, v, err.error);
        } else {
          err := Fail(WriteFailure(path, err.error));
        }
      }
    }
  }

  /** A write that fails is reported and changes nothing; one that succeeds
      leaves every other path as it was. */
  lemma MxjWriteFrame(t: Mxj, tree: map<string, Value>, v: Value)
    ensures t.SetIn(tree, v).Err? ==> t.path in t.doc.rejects
    ensures t.SetIn(tree, v).Ok? ==>
      forall p :: p != t.path ==> TreeDoc.Lookup(t.SetIn(tree, v).value, p) == TreeDoc.Lookup(tree, p)
  {
  }
}
