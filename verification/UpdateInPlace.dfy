/**
 `update_dict` over linked dictionaries: `dest` is written in place, and a sub-dictionary of
 `source` that `dest` lacks is linked in, not copied. So after one update the two may share
 dictionaries, always under the same keys, and the next update works on that.
 */
module UpdateInPlace {
  import opened Results
  import opened ConfigTree
  import opened UpdateDict

  datatype Entry = NoneEntry | AtomEntry(text: string, truthy: bool) | DictEntry(node: DictNode)

  type Items = map<string, Entry>

  /** The ghost view of a dictionary. */
  datatype View = View(
    repr: set<DictNode>,               // the dictionary and every dictionary below it
    parts: map<string, set<DictNode>>, // the share of `repr` each entry owns
    tree: Tree                         // what the dictionary stands for
  )

  // ----- what the entries own -----

  ghost function Part(v: View, key: string): set<DictNode> {
    if key in v.parts then v.parts[key] else {}
  }

  /** What the entries other than the one at `key` own. */
  ghost function Rest(v: View, key: string): set<DictNode> {
    set k, o | k in v.parts && k != key && o in v.parts[k] :: o
  }

  ghost function Below(v: View): set<DictNode> {
    set k, o | k in v.parts && o in v.parts[k] :: o
  }

  /** The dictionary and the separate parts of its entries make up `repr`. */
  ghost predicate Owned(v: View, owner: DictNode) {
    && v.tree.Keys == v.parts.Keys
    && v.repr == {owner} + Below(v) && owner !in Below(v)
    && (forall k :: k in v.parts ==> v.parts[k] !! Rest(v, k))
  }

  lemma Splits(v: View, key: string)
    ensures Below(v) == Part(v, key) + Rest(v, key)
  {}

  lemma OwnedSplits(v: View, owner: DictNode, key: string)
    requires Owned(v, owner)
    ensures v.repr == {owner} + Part(v, key) + Rest(v, key)
    ensures owner !in Part(v, key) && owner !in Rest(v, key) && Part(v, key) !! Rest(v, key)
  {
    Splits(v, key);
  }

  /** The view after the entry at `key` came to stand for `y` and to own `part`. */
  ghost function With(v: View, owner: DictNode, key: string, y: Value, part: set<DictNode>): View {
    View({owner} + Rest(v, key) + part, v.parts[key := part], v.tree[key := y])
  }

  lemma RestKept(v: View, v': View, key: string)
    requires v'.parts == v.parts[key := Part(v', key)]
    ensures Rest(v', key) == Rest(v, key)
  {
    assert forall k :: k != key ==> (k in v'.parts <==> k in v.parts) && (k in v.parts ==> v'.parts[k] == v.parts[k]);
  }

  lemma OwnedWith(v: View, owner: DictNode, key: string, y: Value, part: set<DictNode>)
    requires Owned(v, owner) && owner !in part && part !! Rest(v, key)
    ensures Owned(With(v, owner, key, y, part), owner)
  {
    var v' := With(v, owner, key, y, part);
    Splits(v, key);
    Splits(v', key);
    RestKept(v, v', key);
    forall k | k in v'.parts ensures v'.parts[k] !! Rest(v', k) {
      if k != key {
        assert Rest(v', k) <= Rest(v, k) + part && v.parts[k] <= Rest(v, key);
      }
    }
  }

  lemma WithNothingNew(v: View, owner: DictNode, key: string)
    requires Owned(v, owner) && key in v.parts
    ensures With(v, owner, key, v.tree[key], v.parts[key]) == v
  {
    OwnedSplits(v, owner, key);
    assert v.parts[key := v.parts[key]] == v.parts;
    assert v.tree[key := v.tree[key]] == v.tree;
  }

  // ----- dictionaries in order -----

  class DictNode {
    var entries: Items
    ghost var view: View

    ghost predicate Valid()
      reads this, view.repr
      decreases view.repr, 0
    {
      entries.Keys == view.parts.Keys && Owned(view, this) && AllHold(entries, view)
    }

    constructor ()
      ensures Valid() && entries == map[] && view == View({this}, map[], map[]) && fresh(this)
    {
      entries := map[];
      view := View({this}, map[], map[]);
    }

    /** `{key: val}` */
    constructor One(key: string, val: Entry, ghost y: Value, ghost part: set<DictNode>)
      requires Holds(val, y, part)
      ensures Valid() && entries == map[key := val] && view == View({this} + part, map[key := part], map[key := y])
      ensures fresh(this)
    {
      entries := map[key := val];
      view := View({this} + part, map[key := part], map[key := y]);
      new;
      assert this !in part && Part(view, key) == part && Rest(view, key) == {};
      Splits(view, key);
    }
  }

  /** The entry stands for the value and owns exactly the dictionaries of `part`. */
  ghost predicate Holds(e: Entry, v: Value, part: set<DictNode>)
    reads part
    decreases part, 1
  {
    match e
    case NoneEntry => v == Null && part == {}
    case AtomEntry(text, truthy) => v == Atom(text, truthy) && part == {}
    case DictEntry(child) => child in part && child.view.repr == part && child.Valid() && v == Dict(child.view.tree)
  }

  ghost predicate AllHold(entries: Items, v: View)
    reads Below(v)
    decreases Below(v), 2
  {
    forall k :: k in v.parts ==> k in entries && k in v.tree && Holds(entries[k], v.tree[k], v.parts[k])
  }

  /** Every entry but the one at `key` is in order. */
  ghost predicate OthersHold(entries: Items, v: View, key: string)
    reads Rest(v, key)
  {
    forall k :: k in v.parts && k != key ==> k in entries && k in v.tree && Holds(entries[k], v.tree[k], v.parts[k])
  }

  lemma HoldSplit(entries: Items, v: View, key: string)
    requires AllHold(entries, v)
    ensures OthersHold(entries, v, key)
    ensures key in v.parts ==> key in entries && key in v.tree && Holds(entries[key], v.tree[key], v.parts[key])
  {}

  lemma HoldJoin(entries: Items, v: View, owner: DictNode, key: string, e: Entry, y: Value, part: set<DictNode>)
    requires OthersHold(entries, v, key) && Holds(e, y, part)
    ensures AllHold(entries[key := e], With(v, owner, key, y, part))
  {}

  // ----- dictionaries that share -----

  /** Nothing owned under one key of the first is owned under another key of the second. */
  ghost predicate Separate(dv: View, sv: View) {
    forall k :: Part(dv, k) !! Rest(sv, k)
  }

  /**
   The two are one dictionary, or two that share dictionaries, if any, under the same keys only. This
   is what one update makes of two separate dictionaries, and what the next one leaves.
   */
  ghost predicate Linked(d: DictNode, s: DictNode)
    reads d, d.view.repr, s, s.view.repr
    decreases d.view.repr, 2
  {
    || d == s
    || (&& Owned(d.view, d) && Owned(s.view, s) && d !in s.view.repr && s !in d.view.repr
        && Separate(d.view, s.view) && Bonds(d.entries, d.view, s.entries, s.view))
  }

  /** Two entries of one key: they own separate dictionaries, or two that are linked. */
  ghost predicate Bond(x: Entry, y: Entry, dp: set<DictNode>, sp: set<DictNode>)
    reads dp, sp
    decreases dp, 3
  {
    || dp !! sp
    || (&& x.DictEntry? && x.node in dp && x.node.view.repr == dp
        && y.DictEntry? && y.node in sp && y.node.view.repr == sp
        && Linked(x.node, y.node))
  }

  ghost predicate Bonds(de: Items, dv: View, se: Items, sv: View)
    reads Below(dv), Below(sv)
    decreases Below(dv), 4
  {
    forall k :: k in dv.parts && k in sv.parts ==>
      k in de && k in se && Bond(de[k], se[k], dv.parts[k], sv.parts[k])
  }

  ghost predicate OtherBonds(de: Items, dv: View, se: Items, sv: View, key: string)
    reads Rest(dv, key), Rest(sv, key)
  {
    forall k :: k in dv.parts && k in sv.parts && k != key ==>
      k in de && k in se && Bond(de[k], se[k], dv.parts[k], sv.parts[k])
  }

  lemma BondSplit(de: Items, dv: View, se: Items, sv: View, key: string)
    requires Bonds(de, dv, se, sv)
    ensures OtherBonds(de, dv, se, sv, key)
    ensures key in dv.parts && key in sv.parts ==>
      key in de && key in se && Bond(de[key], se[key], dv.parts[key], sv.parts[key])
  {}

  lemma BondJoin(de: Items, dv: View, owner: DictNode, se: Items, sv: View,
                 key: string, e: Entry, y: Value, part: set<DictNode>)
    requires OtherBonds(de, dv, se, sv, key)
    requires key in sv.parts ==> key in se && Bond(e, se[key], part, sv.parts[key])
    ensures Bonds(de[key := e], With(dv, owner, key, y, part), se, sv)
  {}

  lemma SeparateEitherWay(dv: View, sv: View, key: string)
    requires Separate(dv, sv)
    ensures Part(sv, key) !! Rest(dv, key)
  {
    forall k | k in dv.parts && k != key ensures dv.parts[k] !! Part(sv, key) {
      assert Part(dv, k) !! Rest(sv, k);
      assert Part(sv, key) <= Rest(sv, k);
    }
  }

  lemma SeparateWith(dv: View, owner: DictNode, sv: View, key: string, y: Value, part: set<DictNode>)
    requires Separate(dv, sv) && part !! Rest(sv, key)
    ensures Separate(With(dv, owner, key, y, part), sv)
  {
    var dv' := With(dv, owner, key, y, part);
    forall k ensures Part(dv', k) !! Rest(sv, k) {
      assert Part(dv', k) == if k == key then part else Part(dv, k);
      assert Part(dv, k) !! Rest(sv, k);
    }
  }

  lemma DisjointAreLinked(d: DictNode, s: DictNode)
    requires d.Valid() && s.Valid() && d.view.repr !! s.view.repr
    ensures Linked(d, s)
  {
    forall k ensures Part(d.view, k) !! Rest(s.view, k) {
      OwnedSplits(d.view, d, k);
      OwnedSplits(s.view, s, k);
    }
    forall k | k in d.view.parts && k in s.view.parts ensures d.view.parts[k] !! s.view.parts[k] {
      OwnedSplits(d.view, d, k);
      OwnedSplits(s.view, s, k);
    }
  }

  /** The part of the source already applied. */
  ghost function Restricted(t: Tree, keys: set<string>): Tree {
    map k | k in t && k in keys :: t[k]
  }

  /** What one item of the source makes of the destination. */
  ghost function WithItem(d: Tree, key: string, y: Value): Tree {
    d[key :=
      if key in d && d[key].Dict? then
        if y.Dict? then Dict(Updated(d[key].entries, y.entries)) else d[key]
      else y]
  }

  ghost predicate ItemRaises(d: Tree, key: string, y: Value) {
    key in d && d[key].Dict? && Truthy(y) && (y.Dict? ==> Raises(d[key].entries, y.entries))
  }

  /** The update restricted to the items done so far, which must not have raised. */
  ghost predicate Progress(now: Tree, d: Tree, s: Tree, todo: set<string>) {
    && now == Updated(d, Restricted(s, s.Keys - todo))
    && forall k :: k in s && k !in todo ==> !RaisesAtKey(d, s, k)
  }

  lemma ProgressStarts(d: Tree, s: Tree)
    ensures Progress(d, d, s, s.Keys)
  {
    assert Restricted(s, s.Keys - s.Keys) == map[];
    NothingToUpdate(d);
  }

  lemma ProgressStep(now: Tree, d: Tree, s: Tree, todo: set<string>, key: string)
    requires Progress(now, d, s, todo) && key in todo && key in s
    ensures if ItemRaises(now, key, s[key]) then Raises(d, s)
            else Progress(WithItem(now, key, s[key]), d, s, todo - {key})
  {
    assert s.Keys - (todo - {key}) == s.Keys - todo + {key};
    assert ItemRaises(now, key, s[key]) == RaisesAtKey(d, s, key);
  }

  /** An item whose update raised left the entry as it was, or a dictionary half-way between. */
  ghost predicate HalfItem(was: Tree, now: Tree, key: string, y: Value) {
    && key in was && was[key].Dict? && key in now && now[key].Dict? && now == was[key := now[key]]
    && if y.Dict? then Between(was[key].entries, now[key].entries, Updated(was[key].entries, y.entries))
       else now[key] == was[key]
  }

  lemma StillToDo(now: Tree, d: Tree, s: Tree, todo: set<string>, key: string)
    requires Progress(now, d, s, todo) && key in todo
    ensures (key in now <==> key in d) && (key in d ==> now[key] == d[key])
  {}

  lemma ProgressStops(was: Tree, d: Tree, s: Tree, todo: set<string>, key: string, now: Tree)
    requires Progress(was, d, s, todo) && key in todo && key in s && HalfItem(was, now, key, s[key])
    ensures Between(d, now, Updated(d, s))
  {
    StillToDo(was, d, s, todo, key);
    forall k | k in now && k != key ensures (k in d && now[k] == d[k]) || now[k] == Updated(d, s)[k] {}
  }

  lemma BetweenEnds(d: Tree, s: Tree)
    ensures Between(d, Updated(d, s), Updated(d, s)) && Between(d, d, Updated(d, s))
  {}

  /** Both trees have a dictionary at the key, and that of the source is not empty. */
  ghost predicate Deeper(d: Tree, s: Tree, key: string) {
    key in d && d[key].Dict? && key in s && s[key].Dict? && s[key].entries != map[]
  }

  lemma ProgressEnds(now: Tree, d: Tree, s: Tree)
    requires Progress(now, d, s, {})
    ensures now == Updated(d, s) && !Raises(d, s)
  {
    assert Restricted(s, s.Keys - {}) == s;
  }

  // ----- one entry at a time -----

  /** Where the parts of two linked dictionaries can meet at a key. */
  lemma Sharing(dest: DictNode, source: DictNode, key: string)
    requires dest.Valid() && source.Valid() && Linked(dest, source)
    ensures dest !in Part(dest.view, key) && dest !in Part(source.view, key)
    ensures Part(dest.view, key) !! Rest(dest.view, key) && Part(source.view, key) !! Rest(dest.view, key)
    ensures Part(dest.view, key) !! Rest(source.view, key) && Part(source.view, key) !! Rest(source.view, key)
    ensures dest !in Rest(dest.view, key) && dest !in Rest(source.view, key)
    ensures source.view.repr == {source} + Part(source.view, key) + Rest(source.view, key)
    ensures source !in Part(dest.view, key) && source !in Part(source.view, key)
  {
    OwnedSplits(dest.view, dest, key);
    OwnedSplits(source.view, source, key);
    if dest != source {
      SeparateEitherWay(dest.view, source.view, key);
      assert Part(dest.view, key) !! Rest(source.view, key);
    }
  }

  /** What an entry may own: nothing that either dictionary owns elsewhere. */
  ghost predicate Fits(d: DictNode, dv: View, s: DictNode, sv: View, key: string, part: set<DictNode>) {
    d !in part && s !in part && part !! Rest(dv, key) && part !! Rest(sv, key)
  }

  lemma FitsLess(d: DictNode, dv: View, s: DictNode, sv: View, key: string, more: set<DictNode>, part: set<DictNode>)
    requires Fits(d, dv, s, sv, key, more) && part <= more
    ensures Fits(d, dv, s, sv, key, part)
  {}

  /** Brings the ghost view of `dest` up to date with its entry at `key`. */
  ghost method Adopt(dest: DictNode, key: string, y: Value, part: set<DictNode>)
    requires Owned(dest.view, dest) && dest !in part && part !! Rest(dest.view, key)
    requires key in dest.entries && dest.entries.Keys == dest.view.parts.Keys + {key}
    requires OthersHold(dest.entries, dest.view, key) && Holds(dest.entries[key], y, part)
    modifies dest`view
    ensures dest.Valid() && dest.view == With(old(dest.view), dest, key, y, part)
  {
    hide Owned, Holds, OthersHold, AllHold;
    OwnedSplits(dest.view, dest, key);
    OwnedWith(dest.view, dest, key, y, part);
    ghost var v, items := dest.view, dest.entries;
    dest.view := With(v, dest, key, y, part);
    HoldJoin(items, v, dest, key, items[key], y, part);
    assert items[key := items[key]] == items;
  }

  lemma OthersHoldStill(entries: Items, v: View, key: string, e: Entry)
    requires OthersHold(entries, v, key)
    ensures OthersHold(entries[key := e], v, key)
  {}

  /** The two are still linked after the entry of `dest` at `key` changed. */
  lemma StillLinked(dest: DictNode, source: DictNode, items: Items, v: View, key: string, y: Value, part: set<DictNode>)
    requires Owned(v, dest) && Owned(source.view, source) && Separate(v, source.view)
    requires dest !in source.view.repr && source !in v.repr && Fits(dest, v, source, source.view, key, part)
    requires key in dest.entries && dest.entries == items[key := dest.entries[key]]
    requires dest.view == With(v, dest, key, y, part)
    requires OtherBonds(items, v, source.entries, source.view, key)
    requires key in source.view.parts && key in source.entries
    requires Bond(dest.entries[key], source.entries[key], part, source.view.parts[key])
    ensures Linked(dest, source)
  {
    OwnedWith(v, dest, key, y, part);
    OwnedSplits(v, dest, key);
    SeparateWith(v, dest, source.view, key, y, part);
    BondJoin(items, v, dest, source.entries, source.view, key, dest.entries[key], y, part);
    hide Owned, Separate, Bond, Bonds, OtherBonds;
  }

  lemma SameEntryIsBond(e: Entry, v: Value, part: set<DictNode>)
    requires Holds(e, v, part)
    ensures Bond(e, e, part, part)
  {}

  /** Two different dictionaries that are linked, and the facts about them that a write at `key` keeps. */
  ghost predicate Paired(d: DictNode, dv: View, s: DictNode, sv: View, key: string) {
    && Owned(dv, d) && Owned(sv, s) && Separate(dv, sv)
    && d !in sv.repr && s !in dv.repr
    && d !in Rest(dv, key) && d !in Rest(sv, key)
    && Part(dv, key) !! Rest(dv, key) && Part(dv, key) !! Rest(sv, key)
    && sv.repr == {s} + Part(sv, key) + Rest(sv, key)
    && Fits(d, dv, s, sv, key, Part(dv, key) + Part(sv, key))
  }

  lemma OtherBondsStill(de: Items, dv: View, se: Items, sv: View, key: string, e: Entry)
    requires OtherBonds(de, dv, se, sv, key)
    ensures OtherBonds(de[key := e], dv, se, sv, key)
  {}

  /** Brings the ghost view of `dest` up to date, when another dictionary is linked with it. */
  ghost method Rejoin(dest: DictNode, source: DictNode, key: string, y: Value, part: set<DictNode>)
    requires Paired(dest, dest.view, source, source.view, key) && Fits(dest, dest.view, source, source.view, key, part)
    requires key in dest.entries && dest.entries.Keys == dest.view.parts.Keys + {key}
    requires OthersHold(dest.entries, dest.view, key) && Holds(dest.entries[key], y, part)
    requires OtherBonds(dest.entries, dest.view, source.entries, source.view, key)
    requires key in source.view.parts && key in source.entries
    requires Bond(dest.entries[key], source.entries[key], part, Part(source.view, key))
    modifies dest`view
    ensures dest.Valid() && Linked(dest, source) && unchanged(old(source.view.repr))
    ensures dest.view == With(old(dest.view), dest, key, y, part)
  {
    hide DictNode.Valid, Linked, Holds, Owned, Separate, Bond, OtherBonds, OthersHold, With;
    ghost var items, v := dest.entries, dest.view;
    assert items == items[key := items[key]];
    Adopt(dest, key, y, part);
    StillLinked(dest, source, items, v, key, y, part);
  }

  /** What a write at `key` touches, and what it leaves alone, whether or not the two are one dictionary. */
  ghost predicate Apart(d: DictNode, dv: View, s: DictNode, sv: View, key: string) {
    && (d == s || d !in sv.repr)
    && d !in Part(dv, key) && d !in Rest(dv, key) && d !in Part(sv, key) && d !in Rest(sv, key)
    && Part(dv, key) !! Rest(dv, key) && Part(dv, key) !! Rest(sv, key)
    && sv.repr == {s} + Part(sv, key) + Rest(sv, key) && s !in Part(dv, key) && s !in Part(sv, key)
  }

  lemma LinkedAreApart(dest: DictNode, source: DictNode, key: string)
    requires dest.Valid() && source.Valid() && Linked(dest, source)
    ensures Apart(dest, dest.view, source, source.view, key)
    ensures dest != source ==>
      && Paired(dest, dest.view, source, source.view, key)
      && OtherBonds(dest.entries, dest.view, source.entries, source.view, key)
  {
    Sharing(dest, source, key);
    if dest != source {
      BondSplit(dest.entries, dest.view, source.entries, source.view, key);
    }
  }

  lemma CanLink(dest: DictNode, source: DictNode, key: string)
    requires dest.Valid() && source.Valid() && Linked(dest, source) && key in source.entries
    ensures Apart(dest, dest.view, source, source.view, key)
    ensures dest.entries.Keys == dest.view.parts.Keys && key in source.view.parts && key in source.view.tree
    ensures dest == source ==> With(dest.view, dest, key, source.view.tree[key], Part(source.view, key)) == dest.view
    ensures dest != source ==>
      var e, part := source.entries[key], Part(source.view, key);
      && Paired(dest, dest.view, source, source.view, key)
      && Holds(e, source.view.tree[key], part) && Bond(e, e, part, part)
      && Fits(dest, dest.view, source, source.view, key, part)
      && OthersHold(dest.entries[key := e], dest.view, key)
      && OtherBonds(dest.entries[key := e], dest.view, source.entries, source.view, key)
  {
    LinkedAreApart(dest, source, key);
    HoldSplit(source.entries, source.view, key);
    if dest == source {
      WithNothingNew(dest.view, dest, key);
    } else {
      HoldSplit(dest.entries, dest.view, key);
      SameEntryIsBond(source.entries[key], source.view.tree[key], source.view.parts[key]);
      OthersHoldStill(dest.entries, dest.view, key, source.entries[key]);
      OtherBondsStill(dest.entries, dest.view, source.entries, source.view, key, source.entries[key]);
    }
  }

  /** `dest[key] = val`: a dictionary is linked in, not copied. */
  method LinkItem(dest: DictNode, key: string, source: DictNode)
    requires dest.Valid() && source.Valid() && Linked(dest, source) && key in source.entries
    modifies dest`entries, dest`view
    ensures dest.Valid() && Linked(dest, source) && unchanged(old(source.view.repr)) && key in old(source.view.tree)
    ensures dest.view == With(old(dest.view), dest, key, old(source.view.tree[key]), old(Part(source.view, key)))
    ensures dest.entries == old(dest.entries[key := source.entries[key]])
  {
    hide DictNode.Valid, Linked, Holds, AllHold, OthersHold, Owned, With;
    hide Separate, Bond, Bonds, OtherBonds, Fits, Paired;
    CanLink(dest, source, key);
    LinkedToItself(dest);
    ghost var y, part := source.view.tree[key], Part(source.view, key);
    assert dest == source ==> dest.entries[key := source.entries[key]] == dest.entries;
    dest.entries := dest.entries[key := source.entries[key]];
    if dest != source {
      Rejoin(dest, source, key, y, part);
    }
  }

  lemma LinkedToItself(d: DictNode)
    ensures Linked(d, d)
  {}

  predicate BothNodes(dest: DictNode, source: DictNode, key: string)
    reads dest, source
  {
    && key in dest.entries && dest.entries[key].DictEntry?
    && key in source.entries && source.entries[key].DictEntry?
  }

  ghost predicate StandsAt(node: DictNode, owner: DictNode, key: string)
    reads owner, node
  {
    && key in owner.view.parts && owner.view.parts[key] == node.view.repr
    && key in owner.view.tree && owner.view.tree[key] == Dict(node.view.tree)
  }

  /** What it takes to update the dictionary at `key` with the one that another dictionary holds there. */
  lemma CanUpdate(dest: DictNode, source: DictNode, key: string)
    requires dest.Valid() && source.Valid() && Linked(dest, source) && BothNodes(dest, source, key)
    ensures var child, node := dest.entries[key].node, source.entries[key].node;
      && StandsAt(child, dest, key) && StandsAt(node, source, key)
      && child.Valid() && node.Valid() && Linked(child, node)
      && OthersHold(dest.entries, dest.view, key)
  {
    HoldSplit(dest.entries, dest.view, key);
    HoldSplit(source.entries, source.view, key);
    if dest != source {
      BondSplit(dest.entries, dest.view, source.entries, source.view, key);
      if dest.view.parts[key] !! source.view.parts[key] {
        DisjointAreLinked(dest.entries[key].node, source.entries[key].node);
      }
    }
  }

  lemma NodeHolds(node: DictNode)
    requires node.Valid()
    ensures Holds(DictEntry(node), Dict(node.view.tree), node.view.repr)
  {}

  lemma NodesAreBond(d: DictNode, s: DictNode)
    requires d.Valid() && s.Valid() && Linked(d, s)
    ensures Bond(DictEntry(d), DictEntry(s), d.view.repr, s.view.repr)
  {}

  lemma CanUpdateItem(dest: DictNode, source: DictNode, key: string)
    requires dest.Valid() && source.Valid() && Linked(dest, source) && BothNodes(dest, source, key)
    ensures Apart(dest, dest.view, source, source.view, key)
    ensures dest.entries.Keys == dest.view.parts.Keys + {key} && key in source.view.parts
    ensures OthersHold(dest.entries, dest.view, key)
    ensures dest != source ==>
      && Paired(dest, dest.view, source, source.view, key)
      && OtherBonds(dest.entries, dest.view, source.entries, source.view, key)
      && Fits(dest, dest.view, source, source.view, key, Part(dest.view, key) + Part(source.view, key))
    ensures var child, node := dest.entries[key].node, source.entries[key].node;
      && child.Valid() && node.Valid() && Linked(child, node)
      && child.view.repr == Part(dest.view, key) && node.view.repr == Part(source.view, key)
      && dest.entries[key] == DictEntry(child) && source.entries[key] == DictEntry(node)
    ensures dest == source ==>
      With(dest.view, dest, key, Dict(source.entries[key].node.view.tree), Part(dest.view, key)) == dest.view
  {
    CanUpdate(dest, source, key);
    LinkedAreApart(dest, source, key);
    if dest == source {
      WithNothingNew(dest.view, dest, key);
    }
  }

  /** `update_dict(dest[key], val)` */
  method UpdateItem(dest: DictNode, key: string, source: DictNode) returns (r: Result<()>)
    requires dest.Valid() && source.Valid() && Linked(dest, source) && BothNodes(dest, source, key)
    modifies ({dest} + Part(dest.view, key))`entries, ({dest} + Part(dest.view, key))`view
    ensures unchanged(old(source.view.repr))
    ensures r.Err? <==> Raises(old(dest.entries[key].node.view.tree), old(source.entries[key].node.view.tree))
    ensures dest.Valid() && Linked(dest, source) && key in dest.view.parts && key in dest.view.tree
    ensures dest.view == With(old(dest.view), dest, key, dest.view.tree[key], dest.view.parts[key])
    ensures dest.view.parts[key] <= old(Part(dest.view, key)) + old(Part(source.view, key))
    ensures dest.view.tree[key].Dict? && dest.entries == old(dest.entries)
    ensures var d, u := old(dest.entries[key].node.view.tree),
                        Updated(old(dest.entries[key].node.view.tree), old(source.entries[key].node.view.tree));
      Between(d, dest.view.tree[key].entries, u) && (r.Ok? ==> dest.view.tree[key].entries == u)
    decreases source.view.repr, 1
  {
    hide DictNode.Valid, Linked, Holds, AllHold, OthersHold, Owned, With;
    hide Separate, Bond, Bonds, OtherBonds, Fits, Paired;
    hide Updated, Raises, Between;
    CanUpdateItem(dest, source, key);
    LinkedToItself(dest);
    var child, node := dest.entries[key].node, source.entries[key].node;
    ghost var v, more := dest.view, Part(dest.view, key) + Part(source.view, key);
    SelfUpdate(child.view.tree);
    r := Update(child, node);
    PartOfWith(v, dest, key, Dict(child.view.tree), child.view.repr);
    if dest != source {
      FitsLess(dest, v, source, source.view, key, more, child.view.repr);
      NodeHolds(child);
      NodesAreBond(child, node);
      Rejoin(dest, source, key, Dict(child.view.tree), child.view.repr);
    }
  }

  lemma PartOfWith(v: View, owner: DictNode, key: string, y: Value, part: set<DictNode>)
    ensures With(v, owner, key, y, part).parts == v.parts[key := part]
    ensures With(v, owner, key, y, part).tree == v.tree[key := y]
  {}

  // ----- the loop over the source -----

  /** A dictionary that stood under a key still does: it is updated, not replaced. */
  ghost predicate NodesStay(was: Items, now: Items) {
    forall k :: k in was && was[k].DictEntry? ==> k in now && now[k] == was[k]
  }

  /** What the update of one entry makes of the view, whether or not it raised. */
  ghost predicate Updates(was: View, now: View, owner: DictNode, key: string, y: Value, given: set<DictNode>,
                          raised: bool)
  {
    && key in now.parts && key in now.tree && now.parts[key] <= Part(was, key) + given
    && now == With(was, owner, key, now.tree[key], now.parts[key])
    && if raised then HalfItem(was.tree, now.tree, key, y) else now.tree == WithItem(was.tree, key, y)
  }

  lemma EntryKept(v: View, owner: DictNode, key: string, y: Value, given: set<DictNode>, raised: bool)
    requires Owned(v, owner) && key in v.parts
    requires if raised then HalfItem(v.tree, v.tree, key, y) else WithItem(v.tree, key, y) == v.tree
    ensures Updates(v, v, owner, key, y, given, raised)
  {
    WithNothingNew(v, owner, key);
  }

  lemma EntryWritten(was: View, now: View, owner: DictNode, key: string, y: Value, given: set<DictNode>)
    requires key in now.parts && key in now.tree && now.parts[key] <= Part(was, key) + given
    requires now == With(was, owner, key, now.tree[key], now.parts[key])
    requires WithItem(was.tree, key, y) == was.tree[key := now.tree[key]]
    ensures Updates(was, now, owner, key, y, given, false)
  {}

  lemma EntryHalfWritten(was: View, now: View, owner: DictNode, key: string, y: Value, given: set<DictNode>)
    requires key in now.parts && key in now.tree && now.parts[key] <= Part(was, key) + given
    requires now == With(was, owner, key, now.tree[key], now.parts[key]) && now.tree[key].Dict? && y.Dict?
    requires key in was.tree && was.tree[key].Dict?
    requires Between(was.tree[key].entries, now.tree[key].entries, Updated(was.tree[key].entries, y.entries))
    ensures Updates(was, now, owner, key, y, given, true)
  {}

  lemma EntryStands(n: DictNode, key: string)
    requires n.Valid() && key in n.entries
    ensures Owned(n.view, n) && n in n.view.repr && key in n.view.tree && key in n.view.parts
    ensures match n.entries[key]
            case NoneEntry => n.view.tree[key] == Null
            case AtomEntry(text, truthy) => n.view.tree[key] == Atom(text, truthy)
            case DictEntry(node) => && n.view.tree[key] == Dict(node.view.tree)
                                    && (node.entries == map[] <==> node.view.tree == map[])
  {
    HoldSplit(n.entries, n.view, key);
  }

  /** The loop body of `update_dict` for one item of the source. */
  method UpdateEntry(dest: DictNode, key: string, source: DictNode) returns (r: Result<()>)
    requires dest.Valid() && source.Valid() && Linked(dest, source) && key in source.entries
    modifies ({dest} + Part(dest.view, key))`entries, ({dest} + Part(dest.view, key))`view
    ensures unchanged(old(source.view.repr)) && key in old(source.view.tree)
    ensures r.Err? <==> ItemRaises(old(dest.view.tree), key, old(source.view.tree[key]))
    ensures dest.Valid() && Linked(dest, source)
    ensures Updates(old(dest.view), dest.view, dest, key, old(source.view.tree[key]), old(Part(source.view, key)),
                    r.Err?)
    ensures !Deeper(old(dest.view.tree), old(source.view.tree), key) ==> unchanged(old(Part(dest.view, key)))
    ensures NodesStay(old(dest.entries), dest.entries)
    decreases source.view.repr, 2
  {
    hide DictNode.Valid, Linked, Owned, Updates, Updated, Raises, Between;
    EntryStands(source, key);
    OwnPart(dest, key);
    ghost var v, y, given := dest.view, source.view.tree[key], Part(source.view, key);
    r := Ok(());
    if key in dest.entries && dest.entries[key].DictEntry? {
      EntryStands(dest, key);
      match source.entries[key]
      case NoneEntry =>
        EntryKept(v, dest, key, y, given, false);
      case AtomEntry(_, truthy) =>
        if truthy {
          r := Err("TypeError");
          NothingRewritten(v.tree, key);
        }
        EntryKept(v, dest, key, y, given, truthy);
      case DictEntry(node) =>
        if node.entries != map[] {
          r := UpdateItem(dest, key, source);
          if r.Ok? {
            EntryWritten(v, dest.view, dest, key, y, given);
          } else {
            EntryHalfWritten(v, dest.view, dest, key, y, given);
          }
        } else {
          NothingToUpdate(v.tree[key].entries);
          EntryKept(v, dest, key, y, given, false);
        }
    } else {
      NotADict(dest, key);
      LinkItem(dest, key, source);
      PartOfWith(v, dest, key, y, given);
      EntryWritten(v, dest.view, dest, key, y, given);
    }
  }

  lemma OwnPart(n: DictNode, key: string)
    requires n.Valid()
    ensures n !in Part(n.view, key)
  {
    OwnedSplits(n.view, n, key);
  }

  lemma NothingRewritten(t: Tree, key: string)
    requires key in t
    ensures t[key := t[key]] == t
  {}

  lemma NotADict(n: DictNode, key: string)
    requires n.Valid() && !(key in n.entries && n.entries[key].DictEntry?)
    ensures !(key in n.view.tree && n.view.tree[key].Dict?)
  {
    if key in n.entries {
      EntryStands(n, key);
    }
  }

  lemma NodesStayOn(a: Items, b: Items, c: Items)
    ensures NodesStay(a, a)
    ensures NodesStay(a, b) && NodesStay(b, c) ==> NodesStay(a, c)
  {}

  lemma AfterUpdates(was: View, now: View, owner: DictNode, key: string, y: Value, given: set<DictNode>, raised: bool,
                     bound: set<DictNode>)
    requires Updates(was, now, owner, key, y, given, raised)
    requires Owned(was, owner) && was.repr <= bound && given <= bound
    ensures now.repr <= bound
    ensures if raised then HalfItem(was.tree, now.tree, key, y) else now.tree == WithItem(was.tree, key, y)
    ensures forall k :: k != key ==> Part(now, k) == Part(was, k)
  {
    OwnedSplits(was, owner, key);
  }

  lemma Inside(n: DictNode)
    requires n.Valid()
    ensures n in n.view.repr && n.entries.Keys == n.view.tree.Keys && Owned(n.view, n)
    ensures forall k :: Part(n.view, k) <= n.view.repr
  {
    forall k ensures Part(n.view, k) <= n.view.repr {
      OwnedSplits(n.view, n, k);
    }
  }

  /** What a dictionary owns under the keys where an update goes no deeper. */
  ghost function Shallow(v: View, s: Tree): set<DictNode> {
    set k, o | k in v.parts && !Deeper(v.tree, s, k) && o in v.parts[k] :: o
  }

  lemma ShallowApart(v: View, owner: DictNode, s: Tree, key: string)
    requires Owned(v, owner)
    ensures owner !in Shallow(v, s) && Shallow(v, s) - Part(v, key) !! {owner} + Part(v, key)
    ensures Deeper(v.tree, s, key) ==> Shallow(v, s) !! Part(v, key)
  {
    OwnedSplits(v, owner, key);
    forall k | k in v.parts && k != key ensures v.parts[k] !! Part(v, key) {
      assert v.parts[k] <= Rest(v, key);
    }
    assert Shallow(v, s) <= Below(v);
  }

  lemma ShallowInside(n: DictNode, s: Tree)
    requires n.Valid()
    ensures Shallow(n.view, s) <= n.view.repr
  {
    assert Shallow(n.view, s) <= Below(n.view);
  }

  /** The entries still to do own what they owned at the start. */
  ghost predicate Pristine(v: View, was: View, todo: set<string>) {
    forall k :: k in todo ==> Part(v, k) == Part(was, k)
  }

  /**
   Afterwards `dest` stands for the updated tree, or, if the call raised, for a tree between the old and
   the updated one. The source and everything below it are as they were, dictionaries shared with
   `dest` included. The dictionaries of `dest` stay in place, and below a key something changes only if both
   have a dictionary there.
   */
  method Update(dest: DictNode, source: DictNode) returns (r: Result<()>)
    requires dest.Valid() && source.Valid() && Linked(dest, source)
    modifies dest.view.repr`entries, dest.view.repr`view
    ensures unchanged(old(source.view.repr))
    ensures unchanged(old(Shallow(dest.view, source.view.tree))) && NodesStay(old(dest.entries), dest.entries)
    ensures r.Err? <==> Raises(old(dest.view.tree), old(source.view.tree))
    ensures dest.Valid() && Linked(dest, source) && dest.view.repr <= old(dest.view.repr) + old(source.view.repr)
    ensures Between(old(dest.view.tree), dest.view.tree, Updated(old(dest.view.tree), old(source.view.tree)))
    ensures r.Ok? ==> dest.view.tree == Updated(old(dest.view.tree), old(source.view.tree))
    decreases source.view.repr, 3
  {
    hide DictNode.Valid, Linked, Owned, Updates, Progress, WithItem, HalfItem, Updated, Raises, ItemRaises, Between;
    hide Shallow, NodesStay;
    Inside(source);
    Inside(dest);
    var todo := source.entries.Keys;
    ghost var d, s, dv, sv := dest.view.tree, source.view.tree, dest.view, source.view;
    ghost var bound, shallow := dest.view.repr + source.view.repr, Shallow(dest.view, source.view.tree);
    ShallowInside(dest, source.view.tree);
    ProgressStarts(d, s);
    NodesStayOn(dest.entries, dest.entries, dest.entries);
    while todo != {}
      invariant todo <= source.entries.Keys && source.view == sv && unchanged(old(source.view.repr))
      invariant dest.Valid() && source.Valid() && Linked(dest, source)
      invariant Progress(dest.view.tree, d, s, todo)
      invariant dest.view.repr <= bound
      invariant Pristine(dest.view, dv, todo)
      invariant unchanged(shallow) && NodesStay(old(dest.entries), dest.entries)
      decreases todo
    {
      var key :| key in todo;
      ProgressStep(dest.view.tree, d, s, todo, key);
      StillToDo(dest.view.tree, d, s, todo, key);
      Inside(dest);
      ghost var v, items := dest.view, dest.entries;
      ShallowApart(dv, dest, s, key);
      assert Deeper(v.tree, s, key) == Deeper(d, s, key);
      r := UpdateEntry(dest, key, source);
      NodesStayOn(old(dest.entries), items, dest.entries);
      AfterUpdates(v, dest.view, dest, key, s[key], Part(sv, key), r.Err?, bound);
      if r.Err? {
        ProgressStops(v.tree, d, s, todo, key, dest.view.tree);
        return;
      }
      todo := todo - {key};
    }
    ProgressEnds(dest.view.tree, d, s);
    BetweenEnds(d, s);
    r := Ok(());
  }

  // ----- what the sharing comes to -----

  /** Applying a source twice is applying it once, although the first run links its dictionaries in. */
  method UpdateTwiceInPlace(dest: DictNode, source: DictNode) returns (r: Result<()>)
    requires dest.Valid() && source.Valid() && Linked(dest, source)
    modifies dest.view.repr`entries, dest.view.repr`view, source.view.repr`entries, source.view.repr`view
    ensures unchanged(old(source.view.repr))
    ensures r.Err? <==> Raises(old(dest.view.tree), old(source.view.tree))
    ensures dest.Valid() && Linked(dest, source)
    ensures r.Ok? ==> dest.view.tree == Updated(old(dest.view.tree), old(source.view.tree))
  {
    hide DictNode.Valid, Linked, Updated, Raises;
    Inside(source);
    ghost var d, s := dest.view.tree, source.view.tree;
    r := Update(dest, source);
    if r.Ok? {
      UpdateTwice(d, s);
      r := Update(dest, source);
    }
  }

  /** `update_dict(d, d)` changes nothing. */
  method UpdateWithItself(d: DictNode) returns (r: Result<()>)
    requires d.Valid()
    modifies d.view.repr`entries, d.view.repr`view
    ensures r.Ok? && d.Valid() && unchanged(old(d.view.repr))
  {
    SelfUpdate(d.view.tree);
    LinkedToItself(d);
    r := Update(d, d);
  }

  lemma NodesOwn(n: DictNode)
    requires n.Valid()
    ensures forall k :: k in n.view.parts && n.view.parts[k] != {} ==> k in n.view.tree && n.view.tree[k].Dict?
  {
    forall k | k in n.view.parts && n.view.parts[k] != {} ensures k in n.view.tree && n.view.tree[k].Dict? {
      HoldSplit(n.entries, n.view, k);
    }
  }

  /** A dictionary of an earlier source that a later update can reach but not change. */
  lemma SparedBySecond(dest: DictNode, first: DictNode, s: Tree)
    requires dest.Valid() && first.Valid() && Linked(dest, first) && dest != first
    ensures forall o :: o in {first} + Shallow(first.view, s) && o in dest.view.repr ==> o in Shallow(dest.view, s)
  {
    hide DictNode.Valid, Linked, Owned, Separate, Bonds;
    NodesOwn(first);
    TwoNodes(dest, first);
    forall o | o in {first} + Shallow(first.view, s) && o in dest.view.repr ensures o in Shallow(dest.view, s) {
      assert o in Below(dest.view);
      var j :| j in dest.view.parts && o in dest.view.parts[j];
      forall k | k != j ensures Part(dest.view, j) !! Part(first.view, k) {
        PartsSeparate(dest.view, first.view, j, k);
      }
      var k :| k in first.view.parts && !Deeper(first.view.tree, s, k) && o in first.view.parts[k];
      assert o in Part(dest.view, j) && o in Part(first.view, k);
    }
  }

  lemma TwoNodes(dest: DictNode, first: DictNode)
    requires dest.Valid() && first.Valid() && Linked(dest, first) && dest != first
    ensures Separate(dest.view, first.view) && first !in dest.view.repr && dest !in first.view.repr
    ensures dest.view.repr == {dest} + Below(dest.view) && first.view.repr == {first} + Below(first.view)
  {}

  lemma PartsSeparate(dv: View, sv: View, j: string, k: string)
    requires Separate(dv, sv) && j != k
    ensures Part(dv, j) !! Part(sv, k)
  {
    assert Part(dv, j) !! Rest(sv, j);
    assert Part(sv, k) <= Rest(sv, j);
  }

  /**
   Two sources one after the other. The second update writes through to dictionaries of the first source
   that are linked into `dest`, but only below keys where both sources have a dictionary.
   */
  method UpdateFromTwo(dest: DictNode, first: DictNode, second: DictNode) returns (r: Result<()>)
    requires dest.Valid() && first.Valid() && Linked(dest, first) && dest != first
    requires second.Valid() && second.view.repr !! dest.view.repr + first.view.repr
    modifies dest.view.repr`entries, dest.view.repr`view, first.view.repr`entries, first.view.repr`view
    ensures unchanged(old(second.view.repr)) && unchanged(old({first} + Shallow(first.view, second.view.tree)))
    ensures dest.Valid()
    ensures r.Ok? ==>
      dest.view.tree == Updated(Updated(old(dest.view.tree), old(first.view.tree)), old(second.view.tree))
  {
    hide DictNode.Valid, Linked, Owned, Updated, Raises, Between, Shallow, NodesStay;
    Inside(first);
    Inside(second);
    ShallowInside(first, second.view.tree);
    r := Update(dest, first);
    if r.Ok? {
      DisjointAreLinked(dest, second);
      SparedBySecond(dest, first, second.view.tree);
      r := Update(dest, second);
    }
  }

  lemma UpdateOfNothing(s: Tree)
    ensures !Raises(map[], s) && Updated(map[], s) == s
  {}

  lemma UpdateOfEmpty(key: string, y: Tree)
    ensures var d, s := map[key := Dict(map[])], map[key := Dict(y)]; !Raises(d, s) && Updated(d, s) == s
  {
    var d, s := map[key := Dict(map[])], map[key := Dict(y)];
    UpdateOfNothing(y);
    assert !RaisesAtKey(d, s, key);
    assert Updated(d, s)[key] == s[key];
  }

  /** The dictionary that a linked one holds at a key, when there is only one it can be. */
  lemma OnlyChild(dest: DictNode, first: DictNode, key: string, below: DictNode)
    requires dest.Valid() && first.Valid() && Linked(dest, first) && dest != first && key in dest.view.tree
    requires dest.view.tree[key].Dict? && dest.view.repr <= {dest, first, below}
    ensures key in dest.entries && dest.entries[key] == DictEntry(below)
  {
    Inside(first);
    EntryStands(dest, key);
    HoldSplit(dest.entries, dest.view, key);
    OwnedSplits(dest.view, dest, key);
  }

  /** {} updated with {key: {}}: the empty dictionary is linked in. */
  method LinkEmpty(key: string) returns (dest: DictNode, first: DictNode, below: DictNode)
    ensures fresh(dest) && fresh(first) && fresh(below) && fresh(dest.view.repr) && first !in dest.view.repr
    ensures dest.Valid() && dest.view.tree == map[key := Dict(map[])] && dest.entries == map[key := DictEntry(below)]
    ensures first.entries == map[key := DictEntry(below)]
  {
    hide DictNode.Valid, Linked, Raises, Updated, Between, Shallow, NodesStay;
    below := new DictNode();
    NodeHolds(below);
    first := new DictNode.One(key, DictEntry(below), Dict(map[]), {below});
    dest := new DictNode();
    DisjointAreLinked(dest, first);
    UpdateOfNothing(first.view.tree);
    var r := Update(dest, first);
    OnlyChild(dest, first, key, below);
    Inside(dest);
    LinkedApart(dest, first);
  }

  lemma LinkedApart(dest: DictNode, first: DictNode)
    requires Linked(dest, first) && dest != first
    ensures first !in dest.view.repr
  {}

  /**
   With {}, {key: {}} and then {key: {inner: text}}: the empty dictionary of the first source is linked in,
   and the second update writes into it.
   */
  method SecondSourceWritesThrough(key: string, inner: string, text: string) returns (first: DictNode, below: DictNode)
    ensures fresh(first) && first.entries == map[key := DictEntry(below)]
    ensures below.Valid() && below.view.tree == map[inner := Atom(text, true)]
  {
    hide DictNode.Valid, Linked, Raises, Updated, Between, Shallow;
    var dest;
    dest, first, below := LinkEmpty(key);
    var leaf := new DictNode.One(inner, AtomEntry(text, true), Atom(text, true), {});
    NodeHolds(leaf);
    var second := new DictNode.One(key, DictEntry(leaf), Dict(map[inner := Atom(text, true)]), {leaf});
    DisjointAreLinked(dest, second);
    UpdateOfEmpty(key, map[inner := Atom(text, true)]);
    var r := Update(dest, second);
    ChildStands(dest, key);
  }

  lemma ChildStands(n: DictNode, key: string)
    requires n.Valid() && key in n.entries && n.entries[key].DictEntry?
    ensures n.entries[key].node.Valid()
    ensures key in n.view.tree && n.view.tree[key] == Dict(n.entries[key].node.view.tree)
  {
    HoldSplit(n.entries, n.view, key);
  }
}
