/** The directory tree printed under "Directory Layout" in the workload README. */
module LayoutTree {
  import opened TextLines
  import NameOrder

  /** Nested dictionaries as the script builds them: None for a file, a dictionary for a directory. */
  datatype Node = File | Dir(entries: Entries)

  type Entries = map<string, Node>

  type Comments = map<string, string>

  const ROOTS: seq<string> := ["experiments", "workload"]

  const COMMENT_COLUMN := 44

  const INDENT := "  "

  predicate EndsInSlash(s: string) {
    s != "" && s[|s| - 1] == '/'
  }

  // ----- the tree of a list of paths -----

  /** `p.split("/")`, with its slash put back on every directory. */
  function Keys(p: string): (keys: seq<string>)
    ensures keys != []
  {
    var i := Find(p, {'/'});
    if i == |p| then [p] else [p[..i + 1]] + Keys(p[i + 1..])
  }

  /** `node.setdefault(key, {})`: a key that ends in a slash never holds a file (Grown). */
  function Below(node: Entries, key: string): Entries {
    if key in node && node[key].Dir? then node[key].entries else map[]
  }

  function Insert(node: Entries, keys: seq<string>): Entries
    requires keys != []
    decreases |keys|
  {
    if |keys| == 1 then node[keys[0] := File]
    else node[keys[0] := Dir(Insert(Below(node, keys[0]), keys[1..]))]
  }

  function Tree(paths: seq<string>): Entries {
    if paths == [] then map[] else Insert(Tree(paths[..|paths| - 1]), Keys(paths[|paths| - 1]))
  }

  // ----- what is printed, line by line -----

  /** A printed line: empty, or an entry with the directories it stands under, outermost first. */
  datatype Item = Blank | Entry(above: seq<string>, name: string)

  function Flat(names: seq<string>): string {
    if names == [] then "" else Flat(names[..|names| - 1]) + names[|names| - 1]
  }

  function PathOf(e: Item): string
    requires e.Entry?
  {
    Flat(e.above) + e.name
  }

  function DirNames(node: Entries): set<string> {
    set k | k in node && node[k].Dir?
  }

  function FileNames(node: Entries): set<string> {
    set k | k in node && node[k].File?
  }

  /** Directories before files. */
  function Names(node: Entries): seq<string> {
    NameOrder.Sorted(DirNames(node)) + NameOrder.Sorted(FileNames(node))
  }

  function Listed(names: seq<string>, node: Entries, above: seq<string>): seq<Item>
    decreases Dir(node), |names|
  {
    if names == [] then []
    else
      [Entry(above, names[0])] + Inside(node, above, names[0]) + Listed(names[1..], node, above)
  }

  function Inside(node: Entries, above: seq<string>, name: string): seq<Item>
    decreases Dir(node), 0
  {
    if name in node && node[name].Dir? then
      Listed(Names(node[name].entries), node[name].entries, above + [name])
    else []
  }

  function Listing(node: Entries, above: seq<string>): seq<Item> {
    Listed(Names(node), node, above)
  }

  function RootKeys(roots: seq<string>, tree: Entries): seq<string> {
    if roots == [] then []
    else (if roots[0] + "/" in tree then [roots[0] + "/"] else []) + RootKeys(roots[1..], tree)
  }

  function Block(tree: Entries, root: string): seq<Item>
    requires root in tree
  {
    Listing(map[root := tree[root]], [])
  }

  /** The blocks of the roots, with an empty line between them. */
  function Blocks(tree: Entries, roots: seq<string>): seq<Item>
    requires forall r :: r in roots ==> r in tree
  {
    if roots == [] then []
    else
      var last := |roots| - 1;
      assert roots[last] in roots;
      Blocks(tree, roots[..last]) + (if last > 0 then [Blank] else []) + Block(tree, roots[last])
  }

  lemma {:induction false} RootKeysAre(roots: seq<string>, tree: Entries)
    ensures forall k :: k in RootKeys(roots, tree) <==> k in tree && exists r :: r in roots && k == r + "/"
  {
    if roots != [] {
      RootKeysAre(roots[1..], tree);
      assert roots == [roots[0]] + roots[1..];
    }
  }

  function Items(tree: Entries): seq<Item> {
    RootKeysAre(ROOTS, tree);
    Blocks(tree, RootKeys(ROOTS, tree))
  }

  // ----- the text -----

  function Spaces(n: nat): (s: string)
    ensures |s| == n && forall i :: 0 <= i < n ==> s[i] == ' '
  {
    seq(n, _ => ' ')
  }

  /** `INDENT * depth`. */
  function Indent(depth: nat): (s: string)
    ensures |s| == 2 * depth && forall i :: 0 <= i < |s| ==> s[i] == ' '
  {
    if depth == 0 then "" else Indent(depth - 1) + INDENT
  }

  function LJust(s: string, width: nat): string {
    if |s| < width then s + Spaces(width - |s|) else s
  }

  /** `comments.get(path)`, with the empty string, which is just as false, for None. */
  function NoteOn(comments: Comments, path: string): string {
    if path in comments then comments[path] else ""
  }

  function EntryLine(depth: nat, name: string, note: string): string {
    var text := Indent(depth) + name;
    if note == "" then text else LJust(text, COMMENT_COLUMN - 1) + " # " + note
  }

  function Line(item: Item, comments: Comments): string {
    match item
    case Blank => ""
    case Entry(above, name) => EntryLine(|above|, name, NoteOn(comments, PathOf(item)))
  }

  function Lines(items: seq<Item>, comments: Comments): seq<string> {
    seq(|items|, i requires 0 <= i < |items| => Line(items[i], comments))
  }

  function Text(paths: seq<string>, comments: Comments): string {
    Joined(Lines(Items(Tree(paths)), comments)) + "\n"
  }

  lemma LinesOfConcat(a: seq<Item>, b: seq<Item>, comments: Comments)
    ensures Lines(a + b, comments) == Lines(a, comments) + Lines(b, comments)
  {}

  // ----- the loops of build_tree -----

  /** What is left to print from name i on, behind the lines already there. */
  function Rest(lines: seq<string>, names: seq<string>, node: Entries, above: seq<string>, i: nat,
                comments: Comments): seq<string>
    requires i <= |names|
  {
    lines + Lines(Listed(names[i..], node, above), comments)
  }

  lemma RestStep(lines: seq<string>, names: seq<string>, node: Entries, above: seq<string>, i: nat, comments: Comments)
    requires i < |names|
    ensures Rest(lines, names, node, above, i, comments)
         == Rest(lines + [Line(Entry(above, names[i]), comments)] + Lines(Inside(node, above, names[i]), comments),
                 names, node, above, i + 1, comments)
  {
    assert names[i..][1..] == names[i + 1..];
    var head, inner := [Entry(above, names[i])], Inside(node, above, names[i]);
    var rest := Listed(names[i + 1..], node, above);
    LinesOfConcat(head + inner, rest, comments);
    LinesOfConcat(head, inner, comments);
    assert Lines(head, comments) == [Line(head[0], comments)];
    hide Lines;
    Regroup(lines, Lines(head, comments), Lines(inner, comments), Lines(rest, comments));
  }

  lemma Regroup(a: seq<string>, b: seq<string>, c: seq<string>, d: seq<string>)
    ensures a + (b + c + d) == a + b + c + d
  {}

  /** The text of one entry, as `emit` builds it. */
  method EntryText(depth: nat, name: string, comment: string) returns (text: string)
    ensures text == EntryLine(depth, name, comment)
  {
    text := Indent(depth) + name;
    if comment != "" {
      text := LJust(text, COMMENT_COLUMN - 1) + " # " + comment;
    }
  }

  /** The recursive `emit`: appends to the lines what lies below a directory. */
  method Emit(node: Entries, prefix: string, depth: nat, comments: Comments, before: seq<string>,
              ghost above: seq<string>)
    returns (lines: seq<string>)
    requires prefix == Flat(above) && depth == |above|
    ensures lines == before + Lines(Listing(node, above), comments)
    decreases Dir(node)
  {
    hide Lines, EntryLine, NoteOn;
    lines := before;
    var names := Names(node);
    assert names[0..] == names;
    ghost var whole := Rest(before, names, node, above, 0, comments);
    for i := 0 to |names|
      invariant Rest(lines, names, node, above, i, comments) == whole
    {
      var name := names[i];
      RestStep(lines, names, node, above, i, comments);
      var text := EntryText(depth, name, NoteOn(comments, prefix + name));
      assert text == Line(Entry(above, name), comments);
      lines := lines + [text];
      if name in node && node[name].Dir? {
        FlatStep(above, name);
        lines := Emit(node[name].entries, prefix + name, depth + 1, comments, lines, above + [name]);
      } else {
        NoLines(lines, comments);
      }
    }
    NoLines(lines, comments);
  }

  lemma FlatStep(names: seq<string>, name: string)
    ensures Flat(names + [name]) == Flat(names) + name
  {
    assert (names + [name])[..|names|] == names;
  }

  lemma NoLines(lines: seq<string>, comments: Comments)
    ensures Lines([], comments) == [] && lines + [] == lines
  {}

  method BuildTree(paths: seq<string>, comments: Comments) returns (text: string)
    ensures text == Text(paths, comments)
  {
    var tree: Entries := map[];
    for i := 0 to |paths|
      invariant tree == Tree(paths[..i])
    {
      tree := Insert(tree, Keys(paths[i]));
      assert paths[..i + 1][..i] == paths[..i];
    }
    assert paths[..|paths|] == paths;
    RootKeysAre(ROOTS, tree);
    var roots := RootKeys(ROOTS, tree);
    var lines: seq<string> := [];
    for i := 0 to |roots|
      invariant lines == Lines(Blocks(tree, roots[..i]), comments)
    {
      assert roots[i] in roots;
      BlocksStep(tree, roots, i, comments);
      if i > 0 {
        lines := lines + [""];
      }
      lines := Emit(map[roots[i] := tree[roots[i]]], "", 0, comments, lines, []);
    }
    assert roots[..|roots|] == roots;
    return Joined(lines) + "\n";
  }

  lemma BlocksStep(tree: Entries, roots: seq<string>, i: nat, comments: Comments)
    requires i < |roots| && forall r :: r in roots ==> r in tree
    ensures roots[i] in tree
    ensures Lines(Blocks(tree, roots[..i + 1]), comments)
         == Lines(Blocks(tree, roots[..i]), comments) + (if i > 0 then [""] else [])
          + Lines(Block(tree, roots[i]), comments)
  {
    assert roots[i] in roots;
    assert roots[..i + 1][..i] == roots[..i];
    var gap := if i > 0 then [Blank] else [];
    LinesOfConcat(Blocks(tree, roots[..i]) + gap, Block(tree, roots[i]), comments);
    LinesOfConcat(Blocks(tree, roots[..i]), gap, comments);
    assert Lines(gap, comments) == if i > 0 then [""] else [];
  }
}
