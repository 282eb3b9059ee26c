/** Reading the comments back from a printed tree, with a stack of directory names driven by the indent. */
module LayoutParser {
  import opened TextLines
  import opened LayoutTree

  /** What one line says; Nothing for a line the parser skips. */
  datatype Fields = Nothing | Fields(depth: nat, name: string, note: string)

  function FieldsOf(line: string): Fields {
    var hash := Find(line, {'#'});
    var body := line[..hash];
    var name := Strip(body);
    if Strip(line) == "" || name == "" then Nothing
    else
      Fields((|body| - |LStrip(body, {' '})|) / |INDENT|, name, Strip(if hash < |line| then line[hash + 1..] else ""))
  }

  datatype Reader = Reader(stack: seq<string>, found: Comments)

  const START := Reader([], map[])

  /** `del stack[depth:]`. */
  function Cut(stack: seq<string>, depth: nat): (r: seq<string>)
    ensures r <= stack && |r| <= depth && (r == stack || |r| == depth)
  {
    if depth <= |stack| then stack[..depth] else stack
  }

  function ReadLine(r: Reader, line: string): Reader {
    match FieldsOf(line)
    case Nothing => r
    case Fields(depth, name, note) =>
      var stack := Cut(r.stack, depth);
      var path := Flat(stack) + name;
      Reader(if EndsInSlash(name) then stack + [name] else stack,
             if note != "" then r.found[path := note] else r.found)
  }

  function Read(r: Reader, lines: seq<string>): Reader {
    if lines == [] then r else ReadLine(Read(r, lines[..|lines| - 1]), lines[|lines| - 1])
  }

  function Parsed(block: string): Comments {
    Read(START, SplitLines(block)).found
  }

  lemma ReadNone()
    ensures Read(START, []) == START
  {}

  lemma ReadStep(lines: seq<string>, i: nat)
    requires i < |lines|
    ensures Read(START, lines[..i + 1]) == ReadLine(Read(START, lines[..i]), lines[i])
  {
    assert lines[..i + 1][..i] == lines[..i];
  }

  method ParseComments(block: string) returns (comments: Comments)
    ensures comments == Parsed(block)
  {
    hide Find, Strip, LStrip, SplitLines, Flat, Read;
    ReadNone();
    comments := map[];
    var stack: seq<string> := [];
    var lines := SplitLines(block);
    for i := 0 to |lines|
      invariant Reader(stack, comments) == Read(START, lines[..i])
    {
      var line := lines[i];
      ReadStep(lines, i);
      if Strip(line) == "" {
        continue;
      }
      var hash := Find(line, {'#'});
      var body := line[..hash];
      var comment := if hash < |line| then line[hash + 1..] else "";
      var name := Strip(body);
      if name == "" {
        continue;
      }
      var depth := (|body| - |LStrip(body, {' '})|) / |INDENT|;
      stack := Cut(stack, depth);
      var path := Flat(stack) + name;
      if EndsInSlash(name) {
        stack := stack + [name];
      }
      if Strip(comment) != "" {
        comments := comments[path := Strip(comment)];
      }
    }
    assert lines[..|lines|] == lines;
  }

  // ----- one printed line -----

  /** A name a line can carry: no '#', no blank at either end, not empty. */
  predicate Plain(name: string) {
    Stripped(name) && Free(name, {'#'})
  }

  predicate NoteOk(note: string) {
    note == "" || Stripped(note)
  }

  /** The padding between a name and its " # ". */
  function Padding(depth: nat, name: string): nat {
    var width := |Indent(depth)| + |name|;
    if width < COMMENT_COLUMN - 1 then COMMENT_COLUMN - 1 - width else 0
  }

  /** The part of a printed line before its '#', if it has a comment. */
  function BodyOf(depth: nat, name: string, note: string): string {
    Indent(depth) + name + (if note == "" then "" else Spaces(Padding(depth, name) + 1))
  }

  lemma LineShape(depth: nat, name: string, note: string)
    ensures EntryLine(depth, name, note) == BodyOf(depth, name, note) + (if note == "" then "" else "# " + note)
  {
    var text := Indent(depth) + name;
    if note == "" {
      assert text + "" + "" == text;
    } else {
      var pad := Padding(depth, name);
      assert LJust(text, COMMENT_COLUMN - 1) == text + Spaces(pad);
      assert Spaces(pad) + " " == Spaces(pad + 1);
      assert text + Spaces(pad) + " # " + note == text + (Spaces(pad) + " ") + ("# " + note);
    }
  }

  lemma BodyReads(depth: nat, name: string, note: string)
    requires Stripped(name)
    ensures Strip(BodyOf(depth, name, note)) == name
    ensures (|BodyOf(depth, name, note)| - |LStrip(BodyOf(depth, name, note), {' '})|) / |INDENT| == depth
  {
    KnownCharacters();
    hide Breaks, Blanks;
    var tail := if note == "" then "" else Spaces(Padding(depth, name) + 1);
    StripUndoesPadding(Indent(depth), name, tail);
    assert BodyOf(depth, name, note) == Indent(depth) + (name + tail);
    LStripSkips(Indent(depth), name + tail, {' '});
    assert |INDENT| == 2;
  }

  lemma HashEnds(body: string, rest: string)
    requires Free(body, {'#'}) && (rest == "" || rest[0] == '#')
    ensures Find(body + rest, {'#'}) == |body|
  {
    FindSkips(body, rest, {'#'});
  }

  lemma StripEmpty(s: string)
    requires Strip(s) == ""
    ensures All(s, Blanks())
  {
    LStripEmpty(s);
    LStripIsSuffix(s, Blanks());
    RStripEmpty(LStrip(s, Blanks()));
  }

  lemma {:induction false} RStripEmpty(s: string)
    requires RStrip(s, Blanks()) == ""
    ensures All(s, Blanks())
  {
    if s != "" {
      RStripEmpty(s[..|s| - 1]);
      assert s == s[..|s| - 1] + [s[|s| - 1]];
    }
  }

  lemma {:induction false} LStripEmpty(s: string)
    ensures LStrip(s, Blanks()) == "" ==> All(s, Blanks())
  {
    if s != "" {
      LStripEmpty(s[1..]);
      assert s == [s[0]] + s[1..];
    }
  }

  lemma NotBlank(s: string, i: nat)
    requires i < |s| && s[i] !in Blanks()
    ensures Strip(s) != ""
  {
    if Strip(s) == "" {
      StripEmpty(s);
      assert false;
    }
  }

  /** Where the '#' of a printed line stands, and what is on either side of it. */
  lemma LineParts(depth: nat, name: string, note: string)
    requires Plain(name)
    ensures var line, body := EntryLine(depth, name, note), BodyOf(depth, name, note);
            && Find(line, {'#'}) == |body| <= |line|
            && line[..|body|] == body
            && (if note == "" then |line| == |body| else |body| < |line| && line[|body| + 1..] == " " + note)
    ensures Strip(EntryLine(depth, name, note)) != ""
  {
    KnownCharacters();
    hide Breaks, Blanks;
    hide Find, Strip, EntryLine, Padding;
    var line, body := EntryLine(depth, name, note), BodyOf(depth, name, note);
    var rest := if note == "" then "" else "# " + note;
    LineShape(depth, name, note);
    HashEnds(body, rest);
    assert line[..|body|] == body && line[|body|..] == rest;
    assert note == "" || rest[1..] == " " + note;
    assert body[|Indent(depth)|] == name[0] == line[|Indent(depth)|];
    NotBlank(line, |Indent(depth)|);
  }

  lemma FieldsWhen(line: string, body: string, depth: nat, name: string, note: string)
    requires Find(line, {'#'}) == |body| <= |line| && line[..|body|] == body
    requires Strip(line) != "" && Strip(body) == name != ""
    requires (|body| - |LStrip(body, {' '})|) / |INDENT| == depth
    requires Strip(if |body| < |line| then line[|body| + 1..] else "") == note
    ensures FieldsOf(line) == Fields(depth, name, note)
  {
    hide Find, Strip, LStrip;
  }

  lemma StripNote(note: string)
    requires NoteOk(note)
    ensures Strip("") == "" && (note != "" ==> Strip(" " + note) == note)
  {
    KnownCharacters();
    hide Blanks, Breaks;
    if note != "" {
      StripUndoesPadding(" ", note, "");
      assert " " + note + "" == " " + note;
    }
  }

  /** A line printed for an entry is read back as that entry, if its name is plain and its note is stripped. */
  lemma LineReadsBack(depth: nat, name: string, note: string)
    requires Plain(name) && NoteOk(note)
    ensures FieldsOf(EntryLine(depth, name, note)) == Fields(depth, name, note)
  {
    LineParts(depth, name, note);
    BodyReads(depth, name, note);
    StripNote(note);
    hide Find, Strip, LStrip, EntryLine, BodyOf, FieldsOf, Blanks, Free;
    FieldsWhen(EntryLine(depth, name, note), BodyOf(depth, name, note), depth, name, note);
  }

  /** What the parser takes from a line is always plain and stripped. */
  lemma FieldsAreClean(line: string)
    requires FieldsOf(line).Fields?
    ensures Plain(FieldsOf(line).name) && NoteOk(FieldsOf(line).note)
  {
    KnownCharacters();
    hide Breaks, Blanks;
    var hash := Find(line, {'#'});
    FindIs(line, {'#'});
    var i, j := StripIs(line[..hash]);
    var k, l := StripIs(if hash < |line| then line[hash + 1..] else "");
    assert Free(line[..hash][i..j], {'#'});
  }

  /** And only then. */
  lemma LineReadsBackExactly(depth: nat, name: string, note: string)
    ensures FieldsOf(EntryLine(depth, name, note)) == Fields(depth, name, note) <==> Plain(name) && NoteOk(note)
  {
    if FieldsOf(EntryLine(depth, name, note)) == Fields(depth, name, note) {
      FieldsAreClean(EntryLine(depth, name, note));
    }
    hide FieldsOf, EntryLine, Plain, NoteOk;
    if Plain(name) && NoteOk(note) {
      LineReadsBack(depth, name, note);
    }
  }

  /** Comments stand in one column; behind a longer name, one space after it. */
  lemma CommentsLineUp(depth: nat, name: string, note: string)
    requires Plain(name) && note != ""
    ensures Find(EntryLine(depth, name, note), {'#'})
         == (var width := |Indent(depth)| + |name|; if width < COMMENT_COLUMN then COMMENT_COLUMN else width + 1)
  {
    LineParts(depth, name, note);
  }

  // ----- a line written by hand -----

  lemma NoHashInBlanks(gap: string)
    requires All(gap, Blanks())
    ensures Free(gap, {'#'})
  {
    KnownCharacters();
    hide Blanks;
  }

  lemma WrittenBody(k: nat, name: string, gap: string)
    requires Plain(name) && All(gap, Blanks())
    ensures var body := Spaces(k) + name + gap;
      && Strip(body) == name && Free(body, {'#'}) && |body| - |LStrip(body, {' '})| == k
  {
    KnownCharacters();
    NoHashInBlanks(gap);
    hide Breaks, Blanks, Strip, LStrip;
    var body := Spaces(k) + name + gap;
    StripUndoesPadding(Spaces(k), name, gap);
    assert body == Spaces(k) + (name + gap);
    LStripSkips(Spaces(k), name + gap, {' '});
  }

  lemma FieldsOfWritten(body: string, hash: string, rest: string)
    requires Free(body, {'#'}) && (if hash == "" then rest == "" else hash == "#")
    ensures Find(body + hash + rest, {'#'}) == |body|
    ensures (body + hash + rest)[..|body|] == body
    ensures hash != "" ==> |body| < |body + hash + rest| && (body + hash + rest)[|body| + 1..] == rest
  {
    hide Find;
    assert body + hash + rest == body + (hash + rest);
    HashEnds(body, hash + rest);
  }

  /** Any indent, odd or even, any blanks behind the name, and anything behind the first '#'. */
  lemma WrittenLine(k: nat, name: string, gap: string, rest: string)
    requires Plain(name) && All(gap, Blanks())
    ensures FieldsOf(Spaces(k) + name + gap) == Fields(k / 2, name, "")
    ensures FieldsOf(Spaces(k) + name + gap + "#" + rest) == Fields(k / 2, name, Strip(rest))
  {
    KnownCharacters();
    hide Breaks, Blanks, Find, Strip, LStrip, FieldsOf;
    var body := Spaces(k) + name + gap;
    WrittenBody(k, name, gap);
    FieldsOfWritten(body, "", "");
    FieldsOfWritten(body, "#", rest);
    assert body + "" + "" == body;
    assert |INDENT| == 2;
    assert body[k] == name[0] && (body + "#" + rest)[k] == name[0];
    NotBlank(body, k);
    NotBlank(body + "#" + rest, k);
    StripNote("");
    FieldsWhen(body, body, k / 2, name, "");
    FieldsWhen(body + "#" + rest, body, k / 2, name, Strip(rest));
  }

  /** A line of blanks says nothing, with or without a comment. */
  lemma EmptyLine(gap: string, rest: string)
    requires All(gap, Blanks())
    ensures FieldsOf(gap) == Nothing && FieldsOf(gap + "#" + rest) == Nothing
  {
    NoHashInBlanks(gap);
    hide Breaks, Blanks, Find, Strip;
    FieldsOfWritten(gap, "", "");
    FieldsOfWritten(gap, "#", rest);
    assert gap + "" + "" == gap;
    StripOfBlanks(gap);
  }
}
