/** Parsing what was printed gives back the comments of what was printed. */
module LayoutRoundTrip {
  import opened TextLines
  import opened LayoutTree
  import opened LayoutParser
  import opened LayoutPaths

  /** A name that fits on a line of its own. */
  predicate PlainName(name: string) {
    Plain(name) && Free(name, Breaks())
  }

  predicate PlainNames(keys: seq<string>) {
    forall k :: k in keys ==> PlainName(k)
  }

  predicate PlainPaths(paths: seq<string>) {
    forall q :: q in paths && UnderRoot(q) ==> PlainNames(Keys(q))
  }

  predicate NotesFit(comments: Comments) {
    forall p :: p in comments ==> NoteOk(comments[p]) && Free(comments[p], Breaks())
  }

  /** The comments that the printed tree shows. */
  ghost function ShownComments(paths: seq<string>, comments: Comments): Comments {
    map p | p in comments && comments[p] != "" && Printed(paths, p) :: comments[p]
  }

  // ----- the parser's stack against the printer's ancestors -----

  /** The stack the parser is left with. */
  function Left(stack: seq<string>, items: seq<Item>): seq<string> {
    if items == [] then stack
    else
      var last := |items| - 1;
      match items[last]
      case Blank => Left(stack, items[..last])
      case Entry(above, name) => if EndsInSlash(name) then above + [name] else above
  }

  /** Each entry stands under directories that are still at the bottom of the stack. */
  predicate Outline(stack: seq<string>, items: seq<Item>) {
    items == [] ||
    var last := |items| - 1;
    Outline(stack, items[..last]) && (items[last].Entry? ==> items[last].above <= Left(stack, items[..last]))
  }

  lemma {:induction false} OutlineConcat(stack: seq<string>, a: seq<Item>, b: seq<Item>)
    ensures Left(stack, a + b) == Left(Left(stack, a), b)
    ensures Outline(stack, a + b) <==> Outline(stack, a) && Outline(Left(stack, a), b)
  {
    if b == [] {
      assert a + b == a;
    } else {
      var last := |b| - 1;
      OutlineConcat(stack, a, b[..last]);
      assert (a + b)[..|a + b| - 1] == a + b[..last];
    }
  }

  lemma OutlineOne(stack: seq<string>, above: seq<string>, name: string)
    requires above <= stack
    ensures Outline(stack, [Entry(above, name)])
    ensures Left(stack, [Entry(above, name)]) == if EndsInSlash(name) then above + [name] else above
  {
    assert [Entry(above, name)][..0] == [];
  }

  lemma {:induction false} ListedIsOutline(names: seq<string>, node: Entries, above: seq<string>, stack: seq<string>)
    requires Grown(node) && above <= stack
    ensures Outline(stack, Listed(names, node, above))
    ensures above <= Left(stack, Listed(names, node, above))
    decreases Dir(node), |names|
  {
    if names != [] {
      var n := names[0];
      var head, inner, rest := [Entry(above, n)], Inside(node, above, n), Listed(names[1..], node, above);
      OutlineOne(stack, above, n);
      var afterHead := Left(stack, head);
      if n in node && node[n].Dir? {
        ListedIsOutline(Names(node[n].entries), node[n].entries, above + [n], afterHead);
        PrefixOfPrefix(above, n, Left(afterHead, inner));
      }
      var afterInner := Left(afterHead, inner);
      ListedIsOutline(names[1..], node, above, afterInner);
      OutlineConcat(stack, head, inner);
      OutlineConcat(stack, head + inner, rest);
    }
  }

  lemma PrefixOfPrefix(above: seq<string>, n: string, stack: seq<string>)
    requires above + [n] <= stack
    ensures above <= stack
  {
    assert above == (above + [n])[..|above|] == stack[..|above|];
  }

  lemma {:induction false} BlocksAreOutline(tree: Entries, roots: seq<string>)
    requires Grown(tree) && forall r :: r in roots ==> r in tree
    ensures Outline([], Blocks(tree, roots))
  {
    if roots != [] {
      var last := |roots| - 1;
      assert roots[last] in roots;
      var before, gap := Blocks(tree, roots[..last]), if last > 0 then [Blank] else [];
      BlocksAreOutline(tree, roots[..last]);
      assert gap == [] || gap[..0] == [];
      OutlineConcat([], before, gap);
      var top := map[roots[last] := tree[roots[last]]];
      ListedIsOutline(Names(top), top, [], Left([], before + gap));
      OutlineConcat([], before + gap, Block(tree, roots[last]));
    }
  }

  lemma ItemsAreOutline(paths: seq<string>)
    ensures Outline([], Items(Tree(paths)))
  {
    TreeHolds(paths, []);
    RootKeysAre(ROOTS, Tree(paths));
    BlocksAreOutline(Tree(paths), RootKeys(ROOTS, Tree(paths)));
  }

  // ----- reading the lines back -----

  predicate ItemFits(item: Item, comments: Comments) {
    item.Entry? ==>
      var note := NoteOn(comments, PathOf(item));
      PlainName(item.name) && NoteOk(note) && Free(note, Breaks())
  }

  predicate ItemsFit(items: seq<Item>, comments: Comments) {
    forall i :: 0 <= i < |items| ==> ItemFits(items[i], comments)
  }

  /** The comments of the lines, gathered one after the other. */
  function Noted(items: seq<Item>, comments: Comments): Comments {
    if items == [] then map[]
    else
      var last := |items| - 1;
      var before := Noted(items[..last], comments);
      if items[last].Entry? && NoteOn(comments, PathOf(items[last])) != "" then
        before[PathOf(items[last]) := comments[PathOf(items[last])]]
      else before
  }

  lemma BlankReadsAsNothing()
    ensures FieldsOf("") == Nothing
  {
    assert Strip("") == "";
  }

  lemma EntryReads(r: Reader, above: seq<string>, name: string, comments: Comments)
    requires above <= r.stack && ItemFits(Entry(above, name), comments)
    ensures Cut(r.stack, |above|) == above
    ensures ReadLine(r, Line(Entry(above, name), comments))
         == Reader(if EndsInSlash(name) then above + [name] else above,
                   if NoteOn(comments, PathOf(Entry(above, name))) != ""
                   then r.found[PathOf(Entry(above, name)) := comments[PathOf(Entry(above, name))]] else r.found)
  {
    LineReadsBack(|above|, name, NoteOn(comments, PathOf(Entry(above, name))));
  }

  lemma {:induction false} LinesReadBack(items: seq<Item>, comments: Comments)
    requires Outline([], items) && ItemsFit(items, comments)
    ensures Read(START, Lines(items, comments)) == Reader(Left([], items), Noted(items, comments))
  {
    hide Lines, Line, ReadLine, PathOf, NoteOn, ItemFits;
    LinesOfMost(items, comments);
    if items != [] {
      var last := |items| - 1;
      LinesReadBack(items[..last], comments);
      assert ItemFits(items[last], comments);
      if items[last].Blank? {
        BlankReads(Read(START, Lines(items[..last], comments)), comments);
      } else {
        EntryReads(Read(START, Lines(items[..last], comments)), items[last].above, items[last].name, comments);
      }
    }
  }

  lemma LinesOfMost(items: seq<Item>, comments: Comments)
    ensures |Lines(items, comments)| == |items|
    ensures items != [] ==>
      var last := |items| - 1;
      && Lines(items, comments)[..last] == Lines(items[..last], comments)
      && Lines(items, comments)[last] == Line(items[last], comments)
  {}

  lemma BlankReads(r: Reader, comments: Comments)
    ensures ReadLine(r, Line(Blank, comments)) == r
  {
    BlankReadsAsNothing();
  }

  lemma {:induction false} NotedIs(items: seq<Item>, comments: Comments, p: string)
    ensures p in Noted(items, comments) <==> NoteOn(comments, p) != "" && Shown(items, p)
    ensures p in Noted(items, comments) ==> Noted(items, comments)[p] == comments[p]
  {
    if items != [] {
      var last := |items| - 1;
      NotedIs(items[..last], comments, p);
      assert Shown(items, p) <==> Shown(items[..last], p) || (items[last].Entry? && PathOf(items[last]) == p) by {
        if Shown(items[..last], p) {
          var i :| 0 <= i < last && items[..last][i].Entry? && PathOf(items[..last][i]) == p;
          assert items[i] == items[..last][i];
        }
        if Shown(items, p) {
          var i :| 0 <= i < |items| && items[i].Entry? && PathOf(items[i]) == p;
          assert i == last || items[..last][i] == items[i];
        }
      }
    }
  }

  lemma ItemsFitWhen(paths: seq<string>, comments: Comments)
    requires PlainPaths(paths) && NotesFit(comments)
    ensures ItemsFit(Items(Tree(paths)), comments)
  {
    var items := Items(Tree(paths));
    forall i | 0 <= i < |items| ensures ItemFits(items[i], comments) {
      if items[i].Entry? {
        var q := SourceOf(paths, i);
        var chain := Chain(items[i]);
        assert chain[|items[i].above|] == Keys(q)[|items[i].above|];
        assert items[i].name in Keys(q);
      }
    }
  }

  // ----- no line holds a line break -----

  lemma LineIsFree(item: Item, comments: Comments)
    requires ItemFits(item, comments)
    ensures Free(Line(item, comments), Breaks())
  {
    KnownCharacters();
    hide Breaks, Blanks;
    if item.Entry? {
      LineShape(|item.above|, item.name, NoteOn(comments, PathOf(item)));
    }
  }

  lemma TextSplits(paths: seq<string>, comments: Comments)
    requires PlainPaths(paths) && NotesFit(comments)
    ensures var lines := Lines(Items(Tree(paths)), comments);
            SplitLines(Text(paths, comments)) == if lines == [] then [""] else lines
  {
    ItemsFitWhen(paths, comments);
    var items := Items(Tree(paths));
    forall i | 0 <= i < |items| ensures Free(Lines(items, comments)[i], Breaks()) {
      assert ItemFits(items[i], comments);
      LineIsFree(items[i], comments);
    }
    SplitUndoesJoin(Lines(items, comments));
  }

  // ----- main results -----

  /** At every line of the printed tree, the stack that the parser cuts to the line's indent is the chain of
      directories that the printer was in. */
  lemma StackIsTheAncestors(paths: seq<string>, comments: Comments, i: nat)
    requires PlainPaths(paths) && NotesFit(comments)
    requires i < |Items(Tree(paths))| && Items(Tree(paths))[i].Entry?
    ensures i < |SplitLines(Text(paths, comments))|
    ensures var e, lines := Items(Tree(paths))[i], SplitLines(Text(paths, comments));
            && FieldsOf(lines[i]).Fields?
            && FieldsOf(lines[i]).name == e.name
            && Cut(Read(START, lines[..i]).stack, FieldsOf(lines[i]).depth) == e.above
  {
    TextSplits(paths, comments);
    ItemsFitWhen(paths, comments);
    ItemsAreOutline(paths);
    FieldsAt(Items(Tree(paths)), comments, i);
    StackBefore(Items(Tree(paths)), comments, i);
  }

  lemma FieldsAt(items: seq<Item>, comments: Comments, i: nat)
    requires ItemsFit(items, comments) && i < |items| && items[i].Entry?
    ensures FieldsOf(Lines(items, comments)[i])
         == Fields(|items[i].above|, items[i].name, NoteOn(comments, PathOf(items[i])))
  {
    assert ItemFits(items[i], comments);
    assert Lines(items, comments)[i] == Line(items[i], comments);
    hide FieldsOf, EntryLine, Lines, Flat;
    LineReadsBack(|items[i].above|, items[i].name, NoteOn(comments, PathOf(items[i])));
  }

  lemma StackBefore(items: seq<Item>, comments: Comments, i: nat)
    requires Outline([], items) && ItemsFit(items, comments)
    requires i < |items| && items[i].Entry?
    ensures Cut(Read(START, Lines(items, comments)[..i]).stack, |items[i].above|) == items[i].above
  {
    hide Outline, Left, Lines, ItemsFit, Read, Noted;
    OutlineAt(items, i);
    Leading(items, comments, i);
    LinesReadBack(items[..i], comments);
  }

  lemma OutlineAt(items: seq<Item>, i: nat)
    requires Outline([], items) && i < |items| && items[i].Entry?
    ensures Outline([], items[..i]) && items[i].above <= Left([], items[..i])
  {
    OutlinePrefix(items, i + 1);
    assert items[..i + 1][..i] == items[..i];
  }

  lemma Leading(items: seq<Item>, comments: Comments, i: nat)
    requires ItemsFit(items, comments) && i <= |items|
    ensures ItemsFit(items[..i], comments)
    ensures |Lines(items, comments)| == |items| && Lines(items, comments)[..i] == Lines(items[..i], comments)
  {}

  lemma OutlinePrefix(items: seq<Item>, n: nat)
    requires n <= |items| && Outline([], items)
    ensures Outline([], items[..n])
  {
    assert items == items[..n] + items[n..];
    OutlineConcat([], items[..n], items[n..]);
  }

  /** The round trip: parsing the printed tree gives exactly the comments of the printed paths. */
  lemma ParseUndoesBuild(paths: seq<string>, comments: Comments)
    requires PlainPaths(paths) && NotesFit(comments)
    ensures Parsed(Text(paths, comments)) == ShownComments(paths, comments)
  {
    var items := Items(Tree(paths));
    TextSplits(paths, comments);
    ItemsFitWhen(paths, comments);
    ItemsAreOutline(paths);
    LinesReadBack(items, comments);
    if items == [] {
      BlankReadsAsNothing();
      ReadNone();
      assert [""][..0] == [];
    }
    NotedIsShown(paths, comments);
  }

  lemma NotedIsShown(paths: seq<string>, comments: Comments)
    ensures Noted(Items(Tree(paths)), comments) == ShownComments(paths, comments)
  {
    var items := Items(Tree(paths));
    forall p ensures p in Noted(items, comments) <==> p in ShownComments(paths, comments) {
      NotedIs(items, comments, p);
      PrintedExactly(paths, p);
    }
    forall p | p in Noted(items, comments) ensures Noted(items, comments)[p] == comments[p] {
      NotedIs(items, comments, p);
    }
  }

  /** Printing looks at nothing but those comments. */
  lemma ShownCommentsPrintTheSame(paths: seq<string>, comments: Comments)
    ensures Text(paths, ShownComments(paths, comments)) == Text(paths, comments)
  {
    var items := Items(Tree(paths));
    forall i | 0 <= i < |items|
      ensures Line(items[i], ShownComments(paths, comments)) == Line(items[i], comments)
    {
      if items[i].Entry? {
        assert Shown(items, PathOf(items[i]));
        PrintedExactly(paths, PathOf(items[i]));
      }
    }
    assert Lines(items, ShownComments(paths, comments)) == Lines(items, comments);
  }
}
