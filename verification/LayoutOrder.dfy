/** The order of the printed lines, said of the lines alone. */
module LayoutOrder {
  import opened LayoutTree
  import opened LayoutPaths
  import NameOrder

  /** Directories before files, and names of a kind in string order, none twice. */
  ghost predicate Earlier(a: string, b: string) {
    if EndsInSlash(a) == EndsInSlash(b) then a != b && NameOrder.Before(a, b) else EndsInSlash(a)
  }

  ghost predicate AllEarlier(names: seq<string>) {
    forall i, j :: 0 <= i < j < |names| ==> Earlier(names[i], names[j])
  }

  ghost predicate SameDirectory(a: Item, b: Item) {
    a.Entry? && b.Entry? && a.above == b.above
  }

  /** Of two lines of the same directory the first has the earlier name. */
  ghost predicate LinesInOrder(items: seq<Item>) {
    forall i, j :: 0 <= i < j < |items| && SameDirectory(items[i], items[j]) ==> Earlier(items[i].name, items[j].name)
  }

  /** A line of the directory `above` with a name of the list, or one further inside a directory of the list. */
  ghost predicate Among(item: Item, above: seq<string>, names: seq<string>) {
    && item.Entry? && above <= item.above
    && (if item.above == above then item.name in names else item.above[|above|] in names)
  }

  ghost predicate AllAmong(items: seq<Item>, above: seq<string>, names: seq<string>) {
    forall e :: e in items ==> Among(e, above, names)
  }

  lemma NamesEarlier(node: Entries)
    requires Grown(node)
    ensures AllEarlier(Names(node))
  {
    var names := Names(node);
    forall i, j | 0 <= i < j < |names| ensures Earlier(names[i], names[j]) {
      SiblingsInOrder(node, i, j);
    }
  }

  lemma AmongInside(item: Item, above: seq<string>, n: string, names: seq<string>)
    requires Among(item, above + [n], names)
    ensures |item.above| > |above| && item.above[|above|] == n && Among(item, above, [n])
  {
    assert item.above[|above|] == (above + [n])[|above|];
    assert above == (above + [n])[..|above|] == item.above[..|above|];
  }

  lemma AmongMore(item: Item, above: seq<string>, some: seq<string>, names: seq<string>)
    requires Among(item, above, some) && forall n :: n in some ==> n in names
    ensures Among(item, above, names)
  {}

  /** The lines inside one name, and those of the names after it, have no directory in common. */
  lemma Apart(a: Item, b: Item, above: seq<string>, n: string, rest: seq<string>)
    requires a.Entry? && |a.above| > |above| && a.above[|above|] == n
    requires Among(b, above, rest) && n !in rest
    ensures !SameDirectory(a, b)
  {}

  lemma {:induction false} ListedAmong(names: seq<string>, node: Entries, above: seq<string>)
    ensures AllAmong(Listed(names, node, above), above, names)
    decreases Dir(node), |names|
  {
    if names != [] {
      var n, rest := names[0], names[1..];
      assert names == [n] + rest;
      ListedAmong(rest, node, above);
      InsideAmong(node, above, n);
      forall e | e in Listed(names, node, above) ensures Among(e, above, names) {
        if e in Inside(node, above, n) {
          AmongMore(e, above, [n], names);
        } else if e in Listed(rest, node, above) {
          AmongMore(e, above, rest, names);
        }
      }
    }
  }

  lemma InsideAmong(node: Entries, above: seq<string>, n: string)
    ensures forall e :: e in Inside(node, above, n) ==>
      Among(e, above, [n]) && |e.above| > |above| && e.above[|above|] == n
    decreases Dir(node), 0
  {
    if n in node && node[n].Dir? {
      var below := node[n].entries;
      ListedAmong(Names(below), below, above + [n]);
      forall e | e in Inside(node, above, n)
        ensures Among(e, above, [n]) && |e.above| > |above| && e.above[|above|] == n
      {
        AmongInside(e, above, n, Names(below));
      }
    }
  }

  lemma JoinInOrder(a: seq<Item>, b: seq<Item>)
    requires LinesInOrder(a) && LinesInOrder(b)
    requires forall x, y :: x in a && y in b && SameDirectory(x, y) ==> Earlier(x.name, y.name)
    ensures LinesInOrder(a + b)
  {
    var c := a + b;
    forall i, j | 0 <= i < j < |c| && SameDirectory(c[i], c[j]) ensures Earlier(c[i].name, c[j].name) {
      if i < |a| <= j {
        assert c[i] in a && c[j] in b;
      }
    }
  }

  lemma {:induction false} ListedInOrder(names: seq<string>, node: Entries, above: seq<string>)
    requires Grown(node) && AllEarlier(names)
    ensures LinesInOrder(Listed(names, node, above))
    decreases Dir(node), |names|
  {
    hide Grown, Earlier;
    if names != [] {
      var n, rest := names[0], names[1..];
      var head, inner, others := [Entry(above, n)], Inside(node, above, n), Listed(rest, node, above);
      InsideInOrder(node, above, n);
      ListedInOrder(rest, node, above);
      InsideAmong(node, above, n);
      ListedAmong(rest, node, above);
      NotTwice(names);
      JoinInOrder(head, inner);
      forall x, y | x in head + inner && y in others && SameDirectory(x, y) ensures Earlier(x.name, y.name) {
        if x in inner {
          Apart(x, y, above, n, rest);
        } else {
          assert y.name in rest;
        }
      }
      JoinInOrder(head + inner, others);
    }
  }

  lemma NotTwice(names: seq<string>)
    requires names != [] && AllEarlier(names)
    ensures names[0] !in names[1..] && AllEarlier(names[1..])
    ensures forall m :: m in names[1..] ==> Earlier(names[0], m)
  {
    forall i | 0 <= i < |names[1..]| ensures names[1..][i] != names[0] && Earlier(names[0], names[1..][i]) {
      assert Earlier(names[0], names[i + 1]);
    }
  }

  lemma InsideInOrder(node: Entries, above: seq<string>, n: string)
    requires Grown(node)
    ensures LinesInOrder(Inside(node, above, n))
    decreases Dir(node), 0
  {
    if n in node && node[n].Dir? {
      NamesEarlier(node[n].entries);
      ListedInOrder(Names(node[n].entries), node[n].entries, above + [n]);
    }
  }

  // ----- the roots -----

  /** One block for each root that is in the tree, `experiments` before `workload`, with an empty line between two. */
  lemma RootBlocks(tree: Entries)
    ensures var e, w := "experiments/", "workload/";
      Items(tree) ==
        if e in tree && w in tree then Block(tree, e) + [Blank] + Block(tree, w)
        else if e in tree then Block(tree, e)
        else if w in tree then Block(tree, w)
        else []
  {
    hide Block;
    var e, w := "experiments/", "workload/";
    assert ROOTS[0] + "/" == e && ROOTS[1] + "/" == w;
    RootKeysAre(ROOTS, tree);
    var keys := RootKeys(ROOTS, tree);
    assert ROOTS[1..][0] == ROOTS[1] && ROOTS[1..][1..] == [];
    assert RootKeys(ROOTS[1..][1..], tree) == [];
    assert RootKeys(ROOTS[1..], tree) == if w in tree then [w] else [];
    assert keys == (if e in tree then [e] else []) + (if w in tree then [w] else []);
    OneOrTwoBlocks(tree, keys);
  }

  lemma OneOrTwoBlocks(tree: Entries, roots: seq<string>)
    requires |roots| <= 2 && forall r :: r in roots ==> r in tree
    ensures |roots| == 0 ==> Blocks(tree, roots) == []
    ensures |roots| == 1 ==> roots[0] in tree && Blocks(tree, roots) == Block(tree, roots[0])
    ensures |roots| == 2 ==>
      && roots[0] in tree && roots[1] in tree
      && Blocks(tree, roots) == Block(tree, roots[0]) + [Blank] + Block(tree, roots[1])
  {
    hide Block;
    if |roots| > 0 {
      assert roots[|roots| - 1] in roots && roots[0] in roots;
      var init := roots[..|roots| - 1];
      assert |roots| == 1 ==> init == [];
      if |roots| == 2 {
        assert init == [roots[0]] && init[..0] == [];
        assert Blocks(tree, []) == [];
        assert Blocks(tree, init) == Block(tree, roots[0]);
      }
    }
  }

  /** A block is its root and what is inside it. */
  lemma BlockIs(tree: Entries, root: string)
    requires Grown(tree) && root in tree
    ensures Block(tree, root) != [] && Block(tree, root)[0] == Entry([], root)
    ensures LinesInOrder(Block(tree, root)) && AllAmong(Block(tree, root), [], [root])
    ensures forall i :: 0 < i < |Block(tree, root)| ==>
      Block(tree, root)[i].Entry? && |Block(tree, root)[i].above| > 0
  {
    var top := map[root := tree[root]];
    var inner := Inside(top, [], root);
    assert Grown(top);
    BlockUnfolds(tree, root);
    hide Grown, Block, Inside, Earlier, LinesInOrder, AllAmong, Listed;
    OneNameInOrder(root);
    ListedInOrder([root], top, []);
    ListedAmong([root], top, []);
    InsideAmong(top, [], root);
    assert forall i :: 0 <= i < |inner| ==> inner[i] in inner;
  }

  lemma OneNameInOrder(root: string)
    ensures AllEarlier([root])
  {}

  lemma BlockUnfolds(tree: Entries, root: string)
    requires Grown(tree) && root in tree
    ensures var top := map[root := tree[root]];
      && Block(tree, root) == Listed([root], top, [])
      && Block(tree, root) == [Entry([], root)] + Inside(top, [], root)
  {
    var top := map[root := tree[root]];
    NamesAre(top);
    NamesEarlier(top);
    hide Names, Inside, Earlier;
    OnlyName(Names(top), root);
    assert [root][1..] == [];
    assert Listed([], top, []) == [];
  }

  lemma OnlyName(names: seq<string>, n: string)
    requires AllEarlier(names) && forall m :: m in names <==> m == n
    ensures names == [n]
  {
    assert n in names;
    assert forall i :: 0 <= i < |names| ==> names[i] in names;
    assert |names| > 1 ==> Earlier(names[0], names[1]);
  }

  /** Two blocks have no directory in common but the top, where each has its root alone. */
  lemma TwoBlocksInOrder(a: seq<Item>, b: seq<Item>, r: string, s: string)
    requires LinesInOrder(a) && LinesInOrder(b) && AllAmong(a, [], [r]) && AllAmong(b, [], [s]) && Earlier(r, s)
    ensures LinesInOrder(a + [Blank] + b)
  {
    JoinInOrder(a, [Blank]);
    forall x, y | x in a + [Blank] && y in b && SameDirectory(x, y) ensures Earlier(x.name, y.name) {
      assert Among(x, [], [r]) && Among(y, [], [s]);
    }
    JoinInOrder(a + [Blank], b);
  }

  lemma RootsEarlier()
    ensures Earlier("experiments/", "workload/")
  {
    var e, w := "experiments/", "workload/";
    assert e[0] == 'e' && w[0] == 'w';
  }

  /** Within a directory the lines are directories before files, each kind in string order, none twice. */
  lemma PrintedInOrder(paths: seq<string>)
    ensures LinesInOrder(Items(Tree(paths)))
  {
    hide LinesInOrder, AllAmong, Block, Items, Grown;
    var tree := Tree(paths);
    var e, w := "experiments/", "workload/";
    TreeHolds(paths, []);
    RootBlocks(tree);
    RootsEarlier();
    if e in tree {
      BlockIs(tree, e);
    }
    if w in tree {
      BlockIs(tree, w);
    }
    if e in tree && w in tree {
      TwoBlocksInOrder(Block(tree, e), Block(tree, w), e, w);
    }
    NoLines();
  }

  lemma NoLines()
    ensures LinesInOrder([])
  {}

  /** A line is empty exactly if it stands before a root that is not the first line. */
  lemma BlankBeforeRoots(paths: seq<string>, k: nat)
    requires k < |Items(Tree(paths))|
    ensures var items := Items(Tree(paths));
      items[k] == Blank <==> 0 < k < |items| - 1 && items[k + 1].Entry? && items[k + 1].above == []
  {
    hide Block, Grown, LinesInOrder, Items;
    var tree := Tree(paths);
    var e, w := "experiments/", "workload/";
    TreeHolds(paths, []);
    RootBlocks(tree);
    if e in tree {
      BlockIs(tree, e);
      assert forall i :: 0 <= i < |Block(tree, e)| ==> Block(tree, e)[i] in Block(tree, e);
    }
    if w in tree {
      BlockIs(tree, w);
      assert forall i :: 0 <= i < |Block(tree, w)| ==> Block(tree, w)[i] in Block(tree, w);
    }
  }
}
