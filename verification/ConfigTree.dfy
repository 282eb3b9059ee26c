/** Nested configuration dictionaries, and reading them along a path of keys. */
module ConfigTree {
  import opened Results

  /** A YAML value: None, a value that is not a dictionary (with its Python truth value), or a dictionary. */
  datatype Value = Null | Atom(text: string, truthy: bool) | Dict(entries: Tree)

  type Tree = map<string, Value>

  type Path = seq<string>

  /** Python's `bool(v)`. */
  predicate Truthy(v: Value) {
    match v
    case Null => false
    case Atom(_, truthy) => truthy
    case Dict(entries) => entries != map[]
  }

  /** The value at the end of a path, if every step of it is a key of a dictionary. */
  function Sub(v: Value, p: Path): Option<Value> {
    if p == [] then Some(v)
    else if v.Dict? && p[0] in v.entries then Sub(v.entries[p[0]], p[1..])
    else None
  }

  function At(t: Tree, p: Path): Option<Value> {
    Sub(Dict(t), p)
  }

  predicate DictAt(t: Tree, p: Path) {
    At(t, p).Some? && At(t, p).value.Dict?
  }

  predicate NullAt(t: Tree, p: Path) {
    At(t, p) == Some(Null)
  }

  predicate LeafAt(t: Tree, p: Path) {
    At(t, p).Some? && At(t, p).value.Atom?
  }

  /** The flat view of a tree: path to leaf, with None read as absent. */
  function Leaf(t: Tree, p: Path): Option<Value> {
    if LeafAt(t, p) then At(t, p) else None
  }

  method GetNested(ndict: Tree, path: Path, default: Value) returns (r: Value)
    ensures r == if At(ndict, path).Some? then At(ndict, path).value else default
  {
    var current := Dict(ndict);
    for i := 0 to |path|
      invariant At(ndict, path) == Sub(current, path[i..])
    {
      if !current.Dict? || path[i] !in current.entries {
        return default;
      }
      current := current.entries[path[i]];
    }
    return current;
  }

  lemma {:induction false} SubOfConcat(v: Value, p: Path, q: Path)
    ensures Sub(v, p + q) == if Sub(v, p).Some? then Sub(Sub(v, p).value, q) else None
  {
    if p == [] {
      assert p + q == q;
    } else {
      assert (p + q)[1..] == p[1..] + q;
      if v.Dict? && p[0] in v.entries {
        SubOfConcat(v.entries[p[0]], p[1..], q);
      }
    }
  }

  lemma AtStep(t: Tree, k: string, p: Path)
    ensures At(t, [k] + p) == if k in t then Sub(t[k], p) else None
  {
    SubOfConcat(Dict(t), [k], p);
  }
}
