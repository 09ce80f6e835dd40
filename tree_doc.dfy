/** The tree-document library the tree-path accessors delegate to, reduced
    to what they rely on: a shared, mutable map from path to value, a
    distinguished "path does not exist" error on reads, and a set-by-path
    that may refuse a path. Path syntax and nested-node creation are not
    modelled. */
module TreeDoc {
  import opened Values

  /** The optional error handlers of the tree accessors: they receive the
      configured path, the value involved and the library's error. */
  type ReadHandler = (string, Value, Error) -> Result<Value>
  type WriteHandler = (string, Value, Error) -> Outcome

  /** Get-by-path on a tree's contents. */
  function Lookup(tree: map<string, Value>, path: string): (r: Result<Value>)
    ensures r.Ok? <==> path in tree
    ensures r.Ok? ==> r.value == tree[path]
    ensures r.Err? ==> r.error == PathNotExist
  {
    if path in tree then Ok(tree[path]) else Err(PathNotExist)
  }

  /** Set-by-path on a tree's contents: refused paths fail and leave the
      tree as it was; any other path is bound to `v`. */
  function Store(tree: map<string, Value>, rejects: set<string>, path: string, v: Value)
    : (r: Result<map<string, Value>>)
    ensures r.Err? <==> path in rejects
    ensures r.Ok? ==> Lookup(r.value, path) == Ok(v)
    ensures r.Ok? ==> forall p :: p != path ==> Lookup(r.value, p) == Lookup(tree, p)
  {
    if path in rejects then Err(PathNotSettable(path)) else Ok(tree[path := v])
  }

  /** A tree document shared by reference between the caller, sources and
      targets (Go's `mxj.Map`). `rejects` stands for the paths the library
      refuses to set, for example because a node on the way is a scalar. */
  class Document {
    var entries: map<string, Value>
    const rejects: set<string>

    constructor (entries: map<string, Value>, rejects: set<string>)
      ensures this.entries == entries && this.rejects == rejects
    {
      this.entries := entries;
      this.rejects := rejects;
    }

    function ValueForPath(path: string): (r: Result<Value>)
      reads this
      ensures r == Lookup(entries, path)
    {
      Lookup(entries, path)
    }

    method SetValueForPath(v: Value, path: string) returns (err: Outcome)
      modifies this
      ensures match Store(old(entries), rejects, path, v)
        case Ok(tree) => err == Pass && entries == tree
        case Err(e) => err == Fail(e) && entries == old(entries)
    {
      if path in rejects {
        err := Fail(PathNotSettable(path));
      } else {
        entries := entries[path := v];
        err := Pass;
      }
    }
  }
}
