/** Which paths the printed tree shows. */
module LayoutPaths {
  import opened TextLines
  import opened LayoutTree
  import NameOrder

  // ----- the requirement, on the paths alone -----

  /** The path itself, or one of the directories it passes through. */
  predicate PartOf(p: string, q: string) {
    p == q || (p <= q && EndsInSlash(p))
  }

  predicate UnderRoot(q: string) {
    exists r :: r in ROOTS && r + "/" <= q
  }

  ghost predicate Printed(paths: seq<string>, p: string) {
    exists q :: q in paths && UnderRoot(q) && PartOf(p, q)
  }

  // ----- keys of a path -----

  predicate IsKeys(keys: seq<string>) {
    keys != [] && !EndsInSlash(keys[|keys| - 1]) && forall i :: 0 <= i < |keys| - 1 ==> EndsInSlash(keys[i])
  }

  lemma {:induction false} FlatOfCons(k: string, rest: seq<string>)
    ensures Flat([k] + rest) == k + Flat(rest)
  {
    if rest == [] {
      assert [k] + rest == [k] && [k][..0] == [];
    } else {
      var last := |rest| - 1;
      assert ([k] + rest)[..last + 1] == [k] + rest[..last];
      FlatOfCons(k, rest[..last]);
    }
  }

  lemma IsKeysOfCons(k: string, rest: seq<string>)
    requires EndsInSlash(k) && IsKeys(rest)
    ensures IsKeys([k] + rest)
  {}

  lemma FreeNeverEndsInSlash(p: string)
    requires Free(p, {'/'})
    ensures !EndsInSlash(p)
  {}

  lemma FlatOfOne(p: string)
    ensures Flat([p]) == p
  {
    assert [p][..0] == [];
  }

  lemma {:induction false} FlatOfKeys(p: string)
    ensures Flat(Keys(p)) == p
  {
    hide Find, Flat;
    var i := Find(p, {'/'});
    if i == |p| {
      FlatOfOne(p);
    } else {
      FlatOfKeys(p[i + 1..]);
      FlatOfCons(p[..i + 1], Keys(p[i + 1..]));
      assert p == p[..i + 1] + p[i + 1..];
    }
  }

  /** The keys of a path are its pieces: directories with their slash, then a name without one. */
  lemma {:induction false} KeysAreThePath(p: string)
    ensures Flat(Keys(p)) == p && IsKeys(Keys(p))
  {
    hide Flat, Free;
    FlatOfKeys(p);
    var i := Find(p, {'/'});
    FindIs(p, {'/'});
    if i == |p| {
      assert p[..i] == p;
      FreeNeverEndsInSlash(p);
    } else {
      KeysAreThePath(p[i + 1..]);
      IsKeysOfCons(p[..i + 1], Keys(p[i + 1..]));
    }
  }

  /** A run of leading keys spells a part of the path. */
  lemma LeadingKeysSpellAPart(q: string, keys: seq<string>)
    requires keys != [] && keys <= Keys(q)
    ensures PartOf(Flat(keys), q)
    decreases |keys|
  {
    KeysAreThePath(q);
    if keys != Keys(q) {
      assert keys[|keys| - 1] == Keys(q)[|keys| - 1];
      FlatIsPrefix(keys, Keys(q));
    }
  }

  lemma {:induction false} FlatIsPrefix(a: seq<string>, b: seq<string>)
    requires a <= b
    ensures Flat(a) <= Flat(b)
    decreases |b|
  {
    if a != b {
      FlatIsPrefix(a, b[..|b| - 1]);
    }
  }

  /** A part that is not the whole path reaches to the first slash at least. */
  lemma PartReachesFirstSlash(q: string, p: string)
    requires PartOf(p, q) && p != q
    ensures var i := Find(q, {'/'}) + 1;
            && i <= |p| < |q|
            && p == q[..i] + p[i..]
            && (p == q[..i] || PartOf(p[i..], q[i..]))
  {
    assert p[|p| - 1] == q[|p| - 1];
    FindsBy(q, {'/'}, |p| - 1);
    PartAfter(q, p, Find(q, {'/'}) + 1);
  }

  lemma PartAfter(q: string, p: string, i: nat)
    requires p <= q && EndsInSlash(p) && i <= |p|
    ensures p == q[..i] + p[i..] && (p == q[..i] || PartOf(p[i..], q[i..]))
  {
    assert p[..i] == q[..i] && p == p[..i] + p[i..];
    if i < |p| {
      assert p[i..][|p[i..]| - 1] == p[|p| - 1];
      assert p[i..] == q[i..][..|p| - i];
    } else {
      assert p == q[..i];
    }
  }

  /** Every part of a path is spelled by some of its leading keys. */
  lemma {:induction false} PartsAreLeadingKeys(q: string, p: string) returns (keys: seq<string>)
    requires PartOf(p, q)
    ensures keys != [] && keys <= Keys(q) && Flat(keys) == p
    decreases |q|
  {
    if p == q {
      KeysAreThePath(q);
      return Keys(q);
    }
    PartReachesFirstSlash(q, p);
    hide PartOf, Find;
    var i := Find(q, {'/'}) + 1;
    if p == q[..i] {
      FlatOfOne(p);
      return [p];
    }
    var rest := PartsAreLeadingKeys(q[i..], p[i..]);
    FlatOfCons(q[..i], rest);
    return [q[..i]] + rest;
  }

  lemma FirstKey(q: string, r: string)
    requires Free(r, {'/'})
    ensures Keys(q)[0] == r + "/" <==> r + "/" <= q
  {
    FindIs(q, {'/'});
    if r + "/" <= q {
      assert q == r + ("/" + q[|r| + 1..]);
      FindSkips(r, "/" + q[|r| + 1..], {'/'});
      assert Find("/" + q[|r| + 1..], {'/'}) == 0;
    }
    if Keys(q)[0] == r + "/" {
      assert (r + "/")[|r|] == '/' && q[|r|] == '/';
      FindsBy(q, {'/'}, |r|);
    }
  }

  // ----- what a tree holds -----

  /** The keys lead from the top of the tree to one of its nodes. */
  predicate Holds(node: Entries, keys: seq<string>)
    decreases |keys|
  {
    keys != [] && keys[0] in node
    && (|keys| == 1 || (node[keys[0]].Dir? && Holds(node[keys[0]].entries, keys[1..])))
  }

  /** Directories stand under keys with a slash, files under keys without. */
  predicate Grown(node: Entries)
    decreases Dir(node)
  {
    forall k :: k in node ==> (node[k].Dir? <==> EndsInSlash(k)) && (node[k].Dir? ==> Grown(node[k].entries))
  }

  lemma {:induction false} InsertKeepsGrown(node: Entries, keys: seq<string>)
    requires Grown(node) && IsKeys(keys)
    ensures Grown(Insert(node, keys))
    decreases |keys|
  {
    if |keys| > 1 {
      assert EndsInSlash(keys[0]);
      InsertKeepsGrown(Below(node, keys[0]), keys[1..]);
    }
  }

  /** Adding a path keeps every node and adds the nodes on its way, no others. */
  lemma {:induction false} InsertHolds(node: Entries, k: seq<string>, keys: seq<string>)
    requires Grown(node) && IsKeys(k)
    ensures Holds(Insert(node, k), keys) <==> Holds(node, keys) || (keys != [] && keys <= k)
    decreases |k|
  {
    if keys != [] && keys[0] == k[0] {
      if |k| > 1 && |keys| > 1 {
        assert EndsInSlash(k[0]);
        InsertHolds(Below(node, k[0]), k[1..], keys[1..]);
        assert keys == [k[0]] + keys[1..] && k == [k[0]] + k[1..];
        assert keys <= k <==> keys[1..] <= k[1..];
      } else if |keys| == 1 {
        assert keys == k[..1];
      }
    }
  }

  predicate LeadsInto(paths: seq<string>, keys: seq<string>) {
    keys != [] && exists q :: q in paths && keys <= Keys(q)
  }

  lemma {:induction false} TreeHolds(paths: seq<string>, keys: seq<string>)
    ensures Grown(Tree(paths))
    ensures Holds(Tree(paths), keys) <==> LeadsInto(paths, keys)
  {
    if paths != [] {
      var last := |paths| - 1;
      TreeHolds(paths[..last], keys);
      KeysAreThePath(paths[last]);
      InsertKeepsGrown(Tree(paths[..last]), Keys(paths[last]));
      InsertHolds(Tree(paths[..last]), Keys(paths[last]), keys);
      assert paths == paths[..last] + [paths[last]];
    }
  }

  // ----- what the lines show -----

  function Chain(e: Item): seq<string>
    requires e.Entry?
  {
    e.above + [e.name]
  }

  predicate Shows(items: seq<Item>, chain: seq<string>) {
    exists i :: 0 <= i < |items| && items[i].Entry? && Chain(items[i]) == chain
  }

  lemma ShowsConcat(a: seq<Item>, b: seq<Item>, chain: seq<string>)
    ensures Shows(a + b, chain) <==> Shows(a, chain) || Shows(b, chain)
  {
    var s := a + b;
    if Shows(a, chain) {
      var i :| 0 <= i < |a| && a[i].Entry? && Chain(a[i]) == chain;
      assert s[i] == a[i];
    }
    if Shows(b, chain) {
      var i :| 0 <= i < |b| && b[i].Entry? && Chain(b[i]) == chain;
      assert s[|a| + i] == b[i];
    }
  }

  lemma ShowsOne(e: Item, chain: seq<string>)
    ensures Shows([e], chain) <==> e.Entry? && Chain(e) == chain
  {
    assert [e][0] == e;
  }

  lemma NamesAre(node: Entries)
    ensures forall k :: k in Names(node) <==> k in node
  {
    NameOrder.SortedLists(DirNames(node));
    NameOrder.SortedLists(FileNames(node));
  }

  /** Siblings: every directory before every file, and each kind in string order, none listed twice. */
  lemma SiblingsInOrder(node: Entries, i: nat, j: nat)
    requires i < j < |Names(node)|
    ensures Names(node)[i] in node && Names(node)[j] in node
    ensures node[Names(node)[i]].Dir? || node[Names(node)[j]].File?
    ensures node[Names(node)[i]].Dir? == node[Names(node)[j]].Dir? ==>
      Names(node)[i] != Names(node)[j] && NameOrder.Before(Names(node)[i], Names(node)[j])
  {
    NameOrder.SortedLists(DirNames(node));
    NameOrder.SortedLists(FileNames(node));
    var dirs, files := NameOrder.Sorted(DirNames(node)), NameOrder.Sorted(FileNames(node));
    assert if i < |dirs| then Names(node)[i] == dirs[i] && dirs[i] in dirs
           else Names(node)[i] == files[i - |dirs|] && files[i - |dirs|] in files;
    assert if j < |dirs| then Names(node)[j] == dirs[j] && dirs[j] in dirs
           else Names(node)[j] == files[j - |dirs|] && files[j - |dirs|] in files;
  }

  /** A chain that starts with `above` and goes on inside the node. */
  predicate Continues(node: Entries, above: seq<string>, chain: seq<string>) {
    above <= chain && Holds(node, chain[|above|..])
  }

  lemma ContinuesBelow(node: Entries, above: seq<string>, n: string, chain: seq<string>)
    requires n in node
    ensures Continues(node, above, chain) && chain[|above|] == n
       <==> chain == above + [n] || (node[n].Dir? && Continues(node[n].entries, above + [n], chain))
  {
    if above <= chain && |chain| > |above| && chain[|above|] == n {
      var keys := chain[|above|..];
      assert chain == above + keys;
      assert above + [n] <= chain;
      assert keys[1..] == chain[|above + [n]|..];
      assert |keys| == 1 <==> chain == above + [n];
    }
    if above + [n] <= chain {
      assert chain[|above|] == (above + [n])[|above|] == n;
      assert above <= chain;
    }
  }

  lemma {:induction false} ListedShows(names: seq<string>, node: Entries, above: seq<string>, chain: seq<string>)
    requires forall n :: n in names ==> n in node
    ensures Shows(Listed(names, node, above), chain)
       <==> Continues(node, above, chain) && chain[|above|] in names
    decreases Dir(node), |names|
  {
    if names != [] {
      var n := names[0];
      assert n in names && names == [n] + names[1..];
      ShowsConcat([Entry(above, n)] + Inside(node, above, n), Listed(names[1..], node, above), chain);
      ShowsConcat([Entry(above, n)], Inside(node, above, n), chain);
      ShowsOne(Entry(above, n), chain);
      ListedShows(names[1..], node, above, chain);
      if node[n].Dir? {
        NamesAre(node[n].entries);
        ListedShows(Names(node[n].entries), node[n].entries, above + [n], chain);
        assert Continues(node[n].entries, above + [n], chain) ==> chain[|above + [n]|] in node[n].entries;
      }
      ContinuesBelow(node, above, n, chain);
    }
  }

  lemma BlockShows(tree: Entries, root: string, chain: seq<string>)
    requires root in tree
    ensures Shows(Block(tree, root), chain) <==> Holds(tree, chain) && chain[0] == root
  {
    var top := map[root := tree[root]];
    NamesAre(top);
    ListedShows(Names(top), top, [], chain);
    assert chain[0..] == chain;
  }

  lemma {:induction false} BlocksShow(tree: Entries, roots: seq<string>, chain: seq<string>)
    requires forall r :: r in roots ==> r in tree
    ensures Shows(Blocks(tree, roots), chain) <==> Holds(tree, chain) && chain[0] in roots
  {
    if roots != [] {
      var last := |roots| - 1;
      assert roots[last] in roots && roots == roots[..last] + [roots[last]];
      var gap := if last > 0 then [Blank] else [];
      BlocksShow(tree, roots[..last], chain);
      BlockShows(tree, roots[last], chain);
      ShowsConcat(Blocks(tree, roots[..last]) + gap, Block(tree, roots[last]), chain);
      ShowsConcat(Blocks(tree, roots[..last]), gap, chain);
      assert !Shows(gap, chain);
    }
  }

  predicate RootKey(k: string) {
    exists r :: r in ROOTS && k == r + "/"
  }

  lemma ItemsShow(paths: seq<string>, chain: seq<string>)
    ensures Shows(Items(Tree(paths)), chain) <==> LeadsInto(paths, chain) && RootKey(chain[0])
  {
    var tree := Tree(paths);
    RootKeysAre(ROOTS, tree);
    BlocksShow(tree, RootKeys(ROOTS, tree), chain);
    TreeHolds(paths, chain);
  }

  lemma RootKeyExactly(q: string)
    ensures RootKey(Keys(q)[0]) <==> UnderRoot(q)
  {
    forall r | r in ROOTS ensures Keys(q)[0] == r + "/" <==> r + "/" <= q {
      assert r == "experiments" || r == "workload";
      FirstKey(q, r);
    }
  }

  // ----- the requirement is met -----

  predicate Shown(items: seq<Item>, p: string) {
    exists i :: 0 <= i < |items| && items[i].Entry? && PathOf(items[i]) == p
  }

  /** The tree shows the paths under a root and the directories they pass through, and nothing else. */
  lemma PrintedExactly(paths: seq<string>, p: string)
    ensures Shown(Items(Tree(paths)), p) <==> Printed(paths, p)
  {
    var items := Items(Tree(paths));
    if Shown(items, p) {
      var i :| 0 <= i < |items| && items[i].Entry? && PathOf(items[i]) == p;
      var q := SourceOf(paths, i);
      LeadingKeysSpellAPart(q, Chain(items[i]));
      FlatStep(items[i].above, items[i].name);
    }
    if Printed(paths, p) {
      var q :| q in paths && UnderRoot(q) && PartOf(p, q);
      var chain := PartsAreLeadingKeys(q, p);
      RootKeyExactly(q);
      assert LeadsInto(paths, chain);
      ItemsShow(paths, chain);
      var i :| 0 <= i < |items| && items[i].Entry? && Chain(items[i]) == chain;
      FlatStep(items[i].above, items[i].name);
    }
  }

  /** Every entry comes from a path under a root. */
  lemma SourceOf(paths: seq<string>, i: nat) returns (q: string)
    requires i < |Items(Tree(paths))| && Items(Tree(paths))[i].Entry?
    ensures q in paths && UnderRoot(q) && Chain(Items(Tree(paths))[i]) <= Keys(q)
  {
    var chain := Chain(Items(Tree(paths))[i]);
    assert Shows(Items(Tree(paths)), chain);
    ItemsShow(paths, chain);
    q :| q in paths && chain <= Keys(q);
    RootKeyExactly(q);
  }
}
