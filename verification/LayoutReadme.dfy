/** Regenerating the "Directory Layout" section of the workload README. */
module LayoutReadme {
  import opened Results
  import opened TextLines
  import opened LayoutTree
  import opened LayoutParser
  import opened LayoutPaths
  import opened LayoutRoundTrip

  const HEADING := "## Directory Layout"

  const FENCE := "```"

  datatype Section = Section(start: nat, end: nat)

  /** The code block body under the heading; an error is the ValueError of a missing heading or fence. */
  function SectionBounds(readme: string): Result<Section> {
    var head := Index(readme, HEADING + "\n", 0);
    if head.None? then Err("ValueError")
    else
      var fence := Index(readme, FENCE + "\n", head.value);
      if fence.None? then Err("ValueError")
      else
        var start := fence.value + |FENCE + "\n"|;
        var end := Index(readme, FENCE, start);
        if end.None? then Err("ValueError") else Ok(Section(start, end.value))
  }

  lemma BoundsAre(readme: string)
    requires SectionBounds(readme).Ok?
    ensures var b := SectionBounds(readme).value;
            && |FENCE| + 1 <= b.start <= b.end
            && FirstFrom(readme, FENCE, b.start, b.end)
            && exists head: nat :: && FirstFrom(readme, HEADING + "\n", 0, head)
                                   && FirstFrom(readme, FENCE + "\n", head, b.start - |FENCE + "\n"|)
  {
    IndexIs(readme, HEADING + "\n", 0);
    var head := Index(readme, HEADING + "\n", 0).value;
    IndexIs(readme, FENCE + "\n", head);
    IndexIs(readme, FENCE, SectionBounds(readme).value.start);
  }

  function RenderReadme(readme: string, paths: seq<string>): Result<string> {
    match SectionBounds(readme)
    case Err(e) => Err(e)
    case Ok(b) =>
      BoundsAre(readme);
      Ok(readme[..b.start] + Text(paths, Parsed(readme[b.start..b.end])) + readme[b.end..])
  }

  // ----- code blocks end at the first fence -----

  ghost predicate NoFence(s: string) {
    forall i :: !OccursAt(s, FENCE, i)
  }

  ghost predicate FenceFree(paths: seq<string>) {
    forall q :: q in paths && UnderRoot(q) ==> NoFence(q)
  }

  lemma FenceChars(s: string, i: int)
    requires OccursAt(s, FENCE, i)
    ensures s[i] == '`' && s[i + 1] == '`' && s[i + 2] == '`'
  {
    var at := s[i..i + 3];
    assert at == FENCE;
    assert at[0] == s[i] && at[1] == s[i + 1] && at[2] == s[i + 2];
  }

  lemma SliceOfSlice(s: string, a: nat, b: nat, i: nat, j: nat)
    requires a <= b <= |s| && i <= j <= b - a
    ensures s[a..b][i..j] == s[a + i..a + j]
  {
    forall k | 0 <= k < j - i ensures s[a..b][i..j][k] == s[a + i..a + j][k] {
      assert s[a..b][i + k] == s[a + i + k];
    }
  }

  lemma OccursInPart(s: string, a: nat, b: nat, word: string, i: int)
    requires a <= b <= |s| && a <= i && i + |word| <= b
    ensures OccursAt(s, word, i) <==> OccursAt(s[a..b], word, i - a)
  {
    SliceOfSlice(s, a, b, i - a, i - a + |word|);
  }

  lemma NoFenceInPart(s: string, a: nat, b: nat)
    requires a <= b <= |s| && NoFence(s)
    ensures NoFence(s[a..b])
  {
    forall i ensures !OccursAt(s[a..b], FENCE, i) {
      if OccursAt(s[a..b], FENCE, i) {
        OccursInPart(s, a, b, FENCE, a + i);
      }
    }
  }

  /** Two texts without a fence make none between them unless a backtick meets a backtick. */
  lemma NoFenceAcross(a: string, b: string)
    requires NoFence(a) && NoFence(b)
    requires a == "" || a[|a| - 1] != '`' || b == "" || b[0] != '`'
    ensures NoFence(a + b)
  {
    var s := a + b;
    assert s[..|a|] == a && s[0..|a|] == a && s[|a|..|s|] == b;
    forall i ensures !OccursAt(s, FENCE, i) {
      if OccursAt(s, FENCE, i) {
        FenceChars(s, i);
        assert a == "" || s[|a| - 1] == a[|a| - 1];
        assert b == "" || s[|a|] == b[0];
        if i + 3 <= |a| {
          OccursInPart(s, 0, |a|, FENCE, i);
        } else if i >= |a| {
          OccursInPart(s, |a|, |s|, FENCE, i);
        }
      }
    }
  }

  lemma NoFenceWithoutBackticks(s: string)
    requires Free(s, {'`'})
    ensures NoFence(s)
  {
    forall i ensures !OccursAt(s, FENCE, i) {
      if OccursAt(s, FENCE, i) {
        FenceChars(s, i);
      }
    }
  }

  lemma LineHasNoFence(depth: nat, name: string, note: string)
    requires NoFence(name) && NoFence(note)
    ensures NoFence(EntryLine(depth, name, note))
  {
    LineShape(depth, name, note);
    var indent, tail := Indent(depth), if note == "" then "" else Spaces(Padding(depth, name) + 1);
    var rest := if note == "" then "" else "# " + note;
    NoFenceWithoutBackticks(indent);
    NoFenceWithoutBackticks(tail);
    NoFenceWithoutBackticks("# ");
    NoFenceAcross(indent, name);
    NoFenceAcross(indent + name, tail);
    if note != "" {
      NoFenceAcross("# ", note);
      NoFenceAcross(indent + name + tail, rest);
    } else {
      assert indent + name + tail + "" == indent + name + tail;
    }
  }

  lemma {:induction false} JoinedHasNoFence(lines: seq<string>)
    requires forall line :: line in lines ==> NoFence(line)
    ensures NoFence(Joined(lines) + "\n")
  {
    NoFenceWithoutBackticks("\n");
    NoFenceWithoutBackticks("");
    if |lines| <= 1 {
      assert lines == [] || Joined(lines) == lines[0];
      NoFenceAcross(Joined(lines), "\n");
    } else {
      JoinedHasNoFence(lines[1..]);
      NoFenceAcross(lines[0], "\n");
      NoFenceAcross(lines[0] + "\n", Joined(lines[1..]) + "\n");
      assert Joined(lines) + "\n" == lines[0] + "\n" + (Joined(lines[1..]) + "\n");
    }
  }

  // ----- what a parse finds -----

  predicate Stretch(part: string, s: string) {
    exists i: nat, j: nat :: i <= j <= |s| && part == s[i..j]
  }

  lemma {:induction false} LinesAreStretches(s: string, line: string)
    requires line in SplitLines(s)
    ensures Stretch(line, s)
  {
    hide Find, Breaks, BreakWidth, Stretch;
    var i := Find(s, Breaks());
    if s != "" {
      FrontIsStretch(s, i);
      if i < |s| && line != s[..i] {
        var after := i + BreakWidth(s, i);
        LinesAreStretches(s[after..], line);
        BackIsStretch(s, after, line);
      }
    }
  }

  lemma FrontIsStretch(s: string, i: nat)
    requires i <= |s|
    ensures Stretch(s[..i], s) && Stretch(s, s)
  {
    assert s[..i] == s[0..i] && s == s[0..|s|];
  }

  lemma BackIsStretch(s: string, after: nat, part: string)
    requires after <= |s| && Stretch(part, s[after..])
    ensures Stretch(part, s)
  {
    var a: nat, b: nat :| a <= b <= |s[after..]| && part == s[after..][a..b];
    assert s[after..] == s[after..|s|];
    SliceOfSlice(s, after, |s|, a, b);
  }

  lemma StretchOfStretch(a: string, b: string, s: string)
    requires Stretch(a, b) && Stretch(b, s)
    ensures Stretch(a, s)
  {
    var i: nat, j: nat :| i <= j <= |b| && a == b[i..j];
    var k: nat, l: nat :| k <= l <= |s| && b == s[k..l];
    SliceOfSlice(s, k, l, i, j);
  }

  predicate NoteFrom(lines: seq<string>, note: string) {
    Stripped(note) && exists i :: 0 <= i < |lines| && Stretch(note, lines[i])
  }

  lemma NoteIsStretch(line: string)
    requires FieldsOf(line).Fields? && FieldsOf(line).note != ""
    ensures Stripped(FieldsOf(line).note) && Stretch(FieldsOf(line).note, line)
  {
    KnownCharacters();
    hide Breaks, Blanks;
    var hash := Find(line, {'#'});
    assert Strip("") == "";
    var i, j := StripIs(line[hash + 1..]);
    assert line[hash + 1..] == line[hash + 1..|line|];
    SliceOfSlice(line, hash + 1, |line|, i, j);
  }

  lemma {:induction false} NotesComeFromLines(lines: seq<string>, p: string)
    requires p in Read(START, lines).found
    ensures NoteFrom(lines, Read(START, lines).found[p])
  {
    var last := |lines| - 1;
    var before := Read(START, lines[..last]);
    var note := Read(START, lines).found[p];
    if p in before.found && before.found[p] == note {
      NotesComeFromLines(lines[..last], p);
      var i :| 0 <= i < |lines[..last]| && Stretch(note, lines[..last][i]);
      assert Stretch(note, lines[i]);
    } else {
      NoteIsStretch(lines[last]);
    }
  }

  lemma ParsedNoteFits(block: string, p: string)
    requires NoFence(block) && p in Parsed(block)
    ensures Stripped(Parsed(block)[p]) && Free(Parsed(block)[p], Breaks()) && NoFence(Parsed(block)[p])
  {
    var lines, note := SplitLines(block), Parsed(block)[p];
    NotesComeFromLines(lines, p);
    var i :| 0 <= i < |lines| && Stretch(note, lines[i]);
    hide Read, SplitLines, Stripped;
    LinesAreFree(block);
    assert lines[i] in lines;
    StretchIsFree(note, lines[i]);
    LinesAreStretches(block, lines[i]);
    StretchOfStretch(note, lines[i], block);
    var c: nat, d: nat :| c <= d <= |block| && note == block[c..d];
    NoFenceInPart(block, c, d);
  }

  lemma StretchIsFree(part: string, s: string)
    requires Stretch(part, s) && Free(s, Breaks())
    ensures Free(part, Breaks())
  {
    var i: nat, j: nat :| i <= j <= |s| && part == s[i..j];
    assert forall k :: 0 <= k < |part| ==> part[k] == s[i + k];
  }

  /** The comments parsed from a block fit on a line and hold no fence that the block does not hold. */
  lemma ParsedNotesFit(block: string)
    requires NoFence(block)
    ensures NotesFit(Parsed(block))
    ensures forall p :: p in Parsed(block) ==> Parsed(block)[p] != "" && NoFence(Parsed(block)[p])
  {
    hide Parsed, NoFence;
    forall p | p in Parsed(block)
      ensures Stripped(Parsed(block)[p]) && Free(Parsed(block)[p], Breaks()) && NoFence(Parsed(block)[p])
    {
      ParsedNoteFits(block, p);
    }
  }

  lemma NameHasNoFence(paths: seq<string>, i: nat)
    requires FenceFree(paths)
    requires i < |Items(Tree(paths))| && Items(Tree(paths))[i].Entry?
    ensures NoFence(Items(Tree(paths))[i].name)
  {
    var e := Items(Tree(paths))[i];
    var q := SourceOf(paths, i);
    LeadingKeysSpellAPart(q, Chain(e));
    FlatStep(e.above, e.name);
    assert Flat(Chain(e)) == q[..|Flat(Chain(e))|];
    assert e.name == q[|Flat(e.above)|..|Flat(Chain(e))|];
    NoFenceInPart(q, |Flat(e.above)|, |Flat(Chain(e))|);
  }

  lemma TextHasNoFence(paths: seq<string>, comments: Comments)
    requires FenceFree(paths) && forall p :: p in comments ==> NoFence(comments[p])
    ensures NoFence(Text(paths, comments))
  {
    var items := Items(Tree(paths));
    NoFenceWithoutBackticks("");
    forall i | 0 <= i < |items| ensures NoFence(Lines(items, comments)[i]) {
      if items[i].Entry? {
        NameHasNoFence(paths, i);
        LineHasNoFence(|items[i].above|, items[i].name, NoteOn(comments, PathOf(items[i])));
      }
    }
    JoinedHasNoFence(Lines(items, comments));
  }

  // ----- the section after it was replaced -----

  lemma SameUpTo(a: string, b: string, n: nat, word: string, i: int)
    requires n <= |a| && n <= |b| && a[..n] == b[..n] && 0 <= i && i + |word| <= n
    ensures OccursAt(a, word, i) <==> OccursAt(b, word, i)
  {
    assert a[i..i + |word|] == a[..n][i..i + |word|] == b[i..i + |word|];
  }

  lemma SameFirstUpTo(a: string, b: string, n: nat, word: string, from: nat, i: nat)
    requires n <= |a| && n <= |b| && a[..n] == b[..n] && i + |word| <= n
    requires FirstFrom(a, word, from, i)
    ensures FirstFrom(b, word, from, i)
  {
    SameUpTo(a, b, n, word, i);
    forall j | from <= j < i ensures !OccursAt(b, word, j) {
      SameUpTo(a, b, n, word, j);
    }
  }

  lemma HeadingHasNoBacktick()
    ensures Free(HEADING + "\n", {'`'})
  {}

  /** The block starts behind the heading. */
  lemma HeadingIsBefore(readme: string, head: nat, fence: nat)
    requires OccursAt(readme, HEADING + "\n", head) && OccursAt(readme, FENCE + "\n", fence) && head <= fence
    ensures head + |HEADING + "\n"| <= fence
  {
    var h := HEADING + "\n";
    HeadingHasNoBacktick();
    assert readme[fence] == readme[fence..fence + |FENCE + "\n"|][0] == '`';
    forall p | head <= p < head + |h| ensures readme[p] != '`' {
      assert readme[p] == readme[head..head + |h|][p - head] == h[p - head];
    }
  }

  /** A fence-free body that ends in a line break ends where the old closing fence now stands. */
  lemma ClosingFence(before: string, body: string, after: string)
    requires NoFence(body) && body != "" && body[|body| - 1] == '\n' && OccursAt(after, FENCE, 0)
    ensures FirstFrom(before + body + after, FENCE, |before|, |before| + |body|)
  {
    var s := before + body + after;
    var e := |before| + |body|;
    assert s[|before|..e] == body && s[e..|s|] == after;
    OccursInPart(s, e, |s|, FENCE, e);
    assert s[e - 1] == body[|body| - 1];
    forall j | |before| <= j < e ensures !OccursAt(s, FENCE, j) {
      if OccursAt(s, FENCE, j) {
        FenceChars(s, j);
        if j + 3 <= e {
          OccursInPart(s, |before|, e, FENCE, j);
        }
      }
    }
  }

  /** Where the three searches of the section succeed. */
  predicate Marks(readme: string, head: nat, fence: nat, end: nat) {
    && FirstFrom(readme, HEADING + "\n", 0, head)
    && FirstFrom(readme, FENCE + "\n", head, fence)
    && FirstFrom(readme, FENCE, fence + |FENCE + "\n"|, end)
  }

  lemma BoundsAtMarks(readme: string, head: nat, fence: nat, end: nat)
    requires Marks(readme, head, fence, end)
    ensures SectionBounds(readme) == Ok(Section(fence + |FENCE + "\n"|, end))
  {
    IndexFinds(readme, HEADING + "\n", 0, head);
    IndexFinds(readme, FENCE + "\n", head, fence);
    IndexFinds(readme, FENCE, fence + |FENCE + "\n"|, end);
  }

  lemma MarksAfter(readme: string, head: nat, fence: nat, end: nat, body: string)
    requires Marks(readme, head, fence, end)
    requires NoFence(body) && body != "" && body[|body| - 1] == '\n'
    ensures var start := fence + |FENCE + "\n"|;
            && start <= end <= |readme|
            && Marks(readme[..start] + body + readme[end..], head, fence, start + |body|)
  {
    var start := fence + |FENCE + "\n"|;
    HeadingIsBefore(readme, head, fence);
    var out := readme[..start] + body + readme[end..];
    assert out[..start] == readme[..start];
    OccursInPart(readme, end, |readme|, FENCE, end);
    assert readme[end..|readme|] == readme[end..];
    hide OccursAt, NoFence;
    SameFirstUpTo(readme, out, start, HEADING + "\n", 0, head);
    SameFirstUpTo(readme, out, start, FENCE + "\n", head, fence);
    ClosingFence(readme[..start], body, readme[end..]);
  }

  lemma BoundsAfter(readme: string, body: string)
    requires SectionBounds(readme).Ok?
    requires NoFence(body) && body != "" && body[|body| - 1] == '\n'
    ensures var b := SectionBounds(readme).value;
            && b.start <= b.end <= |readme|
            && SectionBounds(readme[..b.start] + body + readme[b.end..]) == Ok(Section(b.start, b.start + |body|))
  {
    BoundsAre(readme);
    var b := SectionBounds(readme).value;
    var fence := b.start - |FENCE + "\n"|;
    var head: nat :| FirstFrom(readme, HEADING + "\n", 0, head) && FirstFrom(readme, FENCE + "\n", head, fence);
    hide FirstFrom, NoFence;
    MarksAfter(readme, head, fence, b.end, body);
    BoundsAtMarks(readme[..b.start] + body + readme[b.end..], head, fence, b.start + |body|);
  }

  lemma BlockHasNoFence(readme: string)
    requires SectionBounds(readme).Ok?
    ensures var b := SectionBounds(readme).value; b.start <= b.end <= |readme| && NoFence(readme[b.start..b.end])
  {
    BoundsAre(readme);
    var b := SectionBounds(readme).value;
    forall i ensures !OccursAt(readme[b.start..b.end], FENCE, i) {
      if OccursAt(readme[b.start..b.end], FENCE, i) {
        OccursInPart(readme, b.start, b.end, FENCE, b.start + i);
      }
    }
  }

  // ----- main results -----

  /** The text around the block is kept, and the block now shows the paths with the comments they had. */
  lemma OnlyTheBlockChanges(readme: string, paths: seq<string>)
    requires SectionBounds(readme).Ok? && FenceFree(paths) && PlainPaths(paths)
    ensures RenderReadme(readme, paths).Ok?
    ensures var b, out := SectionBounds(readme).value, RenderReadme(readme, paths).value;
            && b.start <= b.end <= |readme|
            && SectionBounds(out).Ok?
            && SectionBounds(out).value.start == b.start
            && b.start <= SectionBounds(out).value.end <= |out|
            && out[..b.start] == readme[..b.start]
            && out[SectionBounds(out).value.end..] == readme[b.end..]
            && Parsed(out[b.start..SectionBounds(out).value.end])
               == ShownComments(paths, Parsed(readme[b.start..b.end]))
  {
    BlockHasNoFence(readme);
    var b := SectionBounds(readme).value;
    var comments := Parsed(readme[b.start..b.end]);
    ParsedNotesFit(readme[b.start..b.end]);
    TextHasNoFence(paths, comments);
    var body := Text(paths, comments);
    BoundsAfter(readme, body);
    var out := RenderReadme(readme, paths).value;
    assert out[b.start..b.start + |body|] == body;
    ParseUndoesBuild(paths, comments);
  }

  /** Regenerating twice is regenerating once. */
  lemma RenderTwice(readme: string, paths: seq<string>)
    requires SectionBounds(readme).Ok? && FenceFree(paths) && PlainPaths(paths)
    ensures RenderReadme(readme, paths).Ok?
    ensures RenderReadme(RenderReadme(readme, paths).value, paths) == RenderReadme(readme, paths)
  {
    OnlyTheBlockChanges(readme, paths);
    var b := SectionBounds(readme).value;
    ShownCommentsPrintTheSame(paths, Parsed(readme[b.start..b.end]));
  }
}
