/** `_deep_merge_dicts`: a functional deep merge in which the override wins. A None is
 skipped, except inside a dictionary that is copied as a whole. */
module DeepMerge {
  import opened ConfigTree

  function Merged(base: Tree, over: Tree): (r: Tree)
    ensures r.Keys == base.Keys + set k | k in over && over[k] != Null
    decreases Dict(over)
  {
    map k | k in base.Keys + over.Keys && (k in base || over[k] != Null) ::
      if k !in over || over[k] == Null then base[k]
      else if k in base && base[k].Dict? && over[k].Dict? then Dict(Merged(base[k].entries, over[k].entries))
      else over[k]
  }

  method DeepMergeDicts(base: Tree, override: Tree) returns (result: Tree)
    ensures result == Merged(base, override)
    decreases Dict(override)
  {
    result := base;
    ghost var merged := Merged(base, override);
    var todo := override.Keys;
    while todo != {}
      invariant todo <= override.Keys
      invariant result.Keys <= merged.Keys
      invariant forall k :: k in merged && k !in todo ==> k in result && result[k] == merged[k]
      invariant forall k :: k in todo ==> (k in result <==> k in base) && (k in base ==> result[k] == base[k])
      decreases todo
    {
      var key :| key in todo;
      var value := override[key];
      todo := todo - {key};
      if value == Null {
        continue;
      }
      if key in result && result[key].Dict? && value.Dict? {
        var inner := DeepMergeDicts(result[key].entries, value.entries);
        result := result[key := Dict(inner)];
      } else {
        result := result[key := value];
      }
    }
  }
}
