/** The parts of Python's `str` that the layout script relies on. */
module TextLines {
  import opened Results

  /** What `str.splitlines` breaks on. */
  function Breaks(): set<char> {
    {'\n', '\r', '\U{0B}', '\U{0C}', '\U{1C}', '\U{1D}', '\U{1E}', '\U{85}', '\U{2028}', '\U{2029}'}
  }

  /** What `str.strip` removes: every `str.isspace` character. */
  function Blanks(): set<char> {
    Breaks() +
    {' ', '\t', '\U{1F}', '\U{A0}', '\U{1680}', '\U{202F}', '\U{205F}', '\U{3000}',
     '\U{2000}', '\U{2001}', '\U{2002}', '\U{2003}', '\U{2004}', '\U{2005}',
     '\U{2006}', '\U{2007}', '\U{2008}', '\U{2009}', '\U{200A}'}
  }

  lemma KnownCharacters()
    ensures '\n' in Breaks() && ' ' !in Breaks() && '#' !in Breaks()
    ensures ' ' in Blanks() && '#' !in Blanks()
  {}

  // ----- scanning -----

  /** The first position holding one of the characters, or the length. */
  function Find(s: string, chars: set<char>): (r: nat)
    ensures r <= |s|
  {
    if s == "" || s[0] in chars then 0 else 1 + Find(s[1..], chars)
  }

  predicate Free(s: string, chars: set<char>) {
    forall i :: 0 <= i < |s| ==> s[i] !in chars
  }

  lemma {:induction false} FindIs(s: string, chars: set<char>)
    ensures Free(s[..Find(s, chars)], chars)
    ensures Find(s, chars) < |s| ==> s[Find(s, chars)] in chars
  {
    if s != "" && s[0] !in chars {
      FindIs(s[1..], chars);
      var r := Find(s[1..], chars);
      assert s[..r + 1] == [s[0]] + s[1..][..r];
    }
  }

  lemma {:induction false} FindsBy(s: string, chars: set<char>, i: nat)
    requires i < |s| && s[i] in chars
    ensures Find(s, chars) <= i
  {
    if i > 0 {
      FindsBy(s[1..], chars, i - 1);
    }
  }

  lemma {:induction false} FindSkips(a: string, b: string, chars: set<char>)
    requires Free(a, chars)
    ensures Find(a + b, chars) == |a| + Find(b, chars)
  {
    if a == "" {
      assert a + b == b;
    } else {
      assert (a + b)[0] == a[0] && (a + b)[1..] == a[1..] + b;
      FindSkips(a[1..], b, chars);
    }
  }

  // ----- strip -----

  function LStrip(s: string, chars: set<char>): (r: string)
    ensures |r| <= |s|
  {
    if s != "" && s[0] in chars then LStrip(s[1..], chars) else s
  }

  function RStrip(s: string, chars: set<char>): (r: string)
    ensures |r| <= |s|
  {
    if s != "" && s[|s| - 1] in chars then RStrip(s[..|s| - 1], chars) else s
  }

  function Strip(s: string): string {
    RStrip(LStrip(s, Blanks()), Blanks())
  }

  predicate All(s: string, chars: set<char>) {
    forall i :: 0 <= i < |s| ==> s[i] in chars
  }

  /** Not empty, and with no blank at either end. */
  predicate Stripped(s: string) {
    s != "" && s[0] !in Blanks() && s[|s| - 1] !in Blanks()
  }

  lemma {:induction false} LStripSkips(a: string, b: string, chars: set<char>)
    requires All(a, chars) && b != "" && b[0] !in chars
    ensures LStrip(a + b, chars) == b
  {
    if a == "" {
      assert a + b == b;
    } else {
      assert (a + b)[0] == a[0] && (a + b)[1..] == a[1..] + b;
      LStripSkips(a[1..], b, chars);
    }
  }

  lemma {:induction false} RStripSkips(a: string, b: string, chars: set<char>)
    requires All(b, chars) && a != "" && a[|a| - 1] !in chars
    ensures RStrip(a + b, chars) == a
  {
    if b == "" {
      assert a + b == a;
    } else {
      assert (a + b)[|a + b| - 1] == b[|b| - 1] && (a + b)[..|a + b| - 1] == a + b[..|b| - 1];
      RStripSkips(a, b[..|b| - 1], chars);
    }
  }

  lemma StripUndoesPadding(a: string, s: string, b: string)
    requires All(a, Blanks()) && Stripped(s) && All(b, Blanks())
    ensures Strip(a + s + b) == s
  {
    assert a + s + b == a + (s + b);
    LStripSkips(a, s + b, Blanks());
    RStripSkips(s, b, Blanks());
  }

  lemma {:induction false} LStripIsSuffix(s: string, chars: set<char>)
    ensures exists i: nat :: i <= |s| && LStrip(s, chars) == s[i..]
    ensures LStrip(s, chars) != "" ==> LStrip(s, chars)[0] !in chars
  {
    if s != "" && s[0] in chars {
      LStripIsSuffix(s[1..], chars);
      var i: nat :| i <= |s[1..]| && LStrip(s[1..], chars) == s[1..][i..];
      assert s[1..][i..] == s[i + 1..];
    } else {
      assert s == s[0..];
    }
  }

  lemma {:induction false} RStripIsPrefix(s: string, chars: set<char>)
    ensures RStrip(s, chars) <= s
    ensures RStrip(s, chars) != "" ==> RStrip(s, chars)[|RStrip(s, chars)| - 1] !in chars
  {
    if s != "" && s[|s| - 1] in chars {
      RStripIsPrefix(s[..|s| - 1], chars);
    }
  }

  /** What strip leaves is a stretch of the text, empty or with no blank at either end. */
  lemma StripIs(s: string) returns (i: nat, j: nat)
    ensures i <= j <= |s| && Strip(s) == s[i..j]
    ensures Strip(s) == "" || Stripped(Strip(s))
  {
    hide LStrip, RStrip, Blanks, Breaks;
    LStripIsSuffix(s, Blanks());
    var left := LStrip(s, Blanks());
    i :| i <= |s| && left == s[i..];
    RStripIsPrefix(left, Blanks());
    j := i + |Strip(s)|;
    assert Strip(s) == left[..|Strip(s)|] == s[i..j];
  }

  lemma {:induction false} StripOfBlanks(s: string)
    requires All(s, Blanks())
    ensures Strip(s) == ""
  {
    if s != "" {
      StripOfBlanks(s[1..]);
    }
  }

  // ----- lines -----

  /** A carriage return and the line feed after it are one line break. */
  function BreakWidth(s: string, i: nat): (w: nat)
    requires i < |s|
    ensures 1 <= w && i + w <= |s|
  {
    if s[i] == '\r' && i + 1 < |s| && s[i + 1] == '\n' then 2 else 1
  }

  function SplitLines(s: string): seq<string> {
    var i := Find(s, Breaks());
    if s == "" then []
    else if i == |s| then [s]
    else [s[..i]] + SplitLines(s[i + BreakWidth(s, i)..])
  }

  /** `"\n".join(lines)`. */
  function Joined(lines: seq<string>): string {
    if lines == [] then "" else if |lines| == 1 then lines[0] else lines[0] + "\n" + Joined(lines[1..])
  }

  lemma {:induction false} LinesAreFree(s: string)
    ensures forall line :: line in SplitLines(s) ==> Free(line, Breaks())
  {
    var i := Find(s, Breaks());
    FindIs(s, Breaks());
    if s != "" {
      if i == |s| {
        assert s[..i] == s;
      } else {
        LinesAreFree(s[i + BreakWidth(s, i)..]);
      }
    }
  }

  lemma FirstLine(line: string, rest: string)
    requires Free(line, Breaks())
    ensures SplitLines(line + "\n" + rest) == [line] + SplitLines(rest)
  {
    var s := line + "\n" + rest;
    assert s == line + ("\n" + rest);
    FindSkips(line, "\n" + rest, Breaks());
    assert Find(s, Breaks()) == |line| && s[|line|] == '\n';
    assert s[..|line|] == line && s[|line| + 1..] == rest;
  }

  /** A carriage return takes the line feed behind it along. */
  lemma CarriageReturn(line: string, rest: string)
    requires Free(line, Breaks())
    ensures SplitLines(line + "\r\n" + rest) == [line] + SplitLines(rest)
  {
    ReturnIsBreak();
    hide *;
    SplitAfter(line, "\r\n" + rest, 2);
    assert line + "\r\n" + rest == line + ("\r\n" + rest) && ("\r\n" + rest)[2..] == rest;
  }

  lemma ReturnIsBreak()
    ensures '\r' in Breaks()
  {}

  /** Any other line break ends a line alone. */
  lemma AnyBreak(line: string, brk: char, rest: string)
    requires Free(line, Breaks()) && brk in Breaks()
    requires brk == '\r' && rest != "" ==> rest[0] != '\n'
    ensures SplitLines(line + [brk] + rest) == [line] + SplitLines(rest)
  {
    hide *;
    SplitAfter(line, [brk] + rest, 1);
    assert line + [brk] + rest == line + ([brk] + rest) && ([brk] + rest)[1..] == rest;
  }

  lemma FindAtOnce(s: string, chars: set<char>)
    requires s != "" && s[0] in chars
    ensures Find(s, chars) == 0
  {}

  lemma SplitAfter(line: string, rest: string, w: nat)
    requires Free(line, Breaks()) && rest != "" && rest[0] in Breaks()
    requires w == if |rest| > 1 && rest[0] == '\r' && rest[1] == '\n' then 2 else 1
    ensures SplitLines(line + rest) == [line] + SplitLines(rest[w..])
  {
    hide Breaks, Find, Free;
    var s := line + rest;
    FindSkips(line, rest, Breaks());
    FindAtOnce(rest, Breaks());
    assert s[..|line|] == line && s[|line| + w..] == rest[w..];
    assert s[|line|] == rest[0] && (|rest| > 1 ==> s[|line| + 1] == rest[1]);
  }

  lemma NothingToSplit()
    ensures SplitLines("") == []
  {}

  /** Splitting gives back the lines that were joined; no line at all reads back as one empty line. */
  lemma {:induction false} SplitUndoesJoin(lines: seq<string>)
    requires forall line :: line in lines ==> Free(line, Breaks())
    ensures SplitLines(Joined(lines) + "\n") == if lines == [] then [""] else lines
  {
    NothingToSplit();
    hide SplitLines, Breaks, Free;
    if lines == [] {
      NoBreaksInNothing();
      FirstLine("", "");
      assert Joined(lines) + "\n" == "" + "\n" + "";
      assert [""] + [] == [""];
    } else if |lines| == 1 {
      FirstLine(lines[0], "");
      assert lines[0] + "\n" + "" == lines[0] + "\n";
      assert lines == [lines[0]] + [];
    } else {
      SplitUndoesJoin(lines[1..]);
      FirstLine(lines[0], Joined(lines[1..]) + "\n");
      JoinStep(lines);
      assert lines == [lines[0]] + lines[1..];
    }
  }

  lemma NoBreaksInNothing()
    ensures Free("", Breaks())
  {}

  lemma JoinStep(lines: seq<string>)
    requires |lines| > 1
    ensures Joined(lines) + "\n" == lines[0] + "\n" + (Joined(lines[1..]) + "\n")
  {}

  // ----- substrings -----

  predicate OccursAt(s: string, word: string, i: int) {
    0 <= i && i + |word| <= |s| && s[i..i + |word|] == word
  }

  /** `s.index(word, from)`; None is its ValueError. */
  function Index(s: string, word: string, from: nat): (r: Option<nat>)
    decreases |s| - from
  {
    if from + |word| > |s| then None
    else if OccursAt(s, word, from) then Some(from)
    else Index(s, word, from + 1)
  }

  predicate FirstFrom(s: string, word: string, from: nat, i: nat) {
    from <= i && OccursAt(s, word, i) && forall j :: from <= j < i ==> !OccursAt(s, word, j)
  }

  lemma {:induction false} IndexIs(s: string, word: string, from: nat)
    ensures Index(s, word, from).Some? ==> FirstFrom(s, word, from, Index(s, word, from).value)
    ensures Index(s, word, from).None? ==> forall j :: from <= j ==> !OccursAt(s, word, j)
    decreases |s| - from
  {
    if from + |word| <= |s| && !OccursAt(s, word, from) {
      IndexIs(s, word, from + 1);
    }
  }

  lemma IndexFinds(s: string, word: string, from: nat, i: nat)
    requires FirstFrom(s, word, from, i)
    ensures Index(s, word, from) == Some(i)
  {
    IndexIs(s, word, from);
  }
}
