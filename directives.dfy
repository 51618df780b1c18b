/**
 * What the two parsers (src/lib/parseChordPro.ts and scripts/build-songs.ts) share:
 * the directive pattern `^\{\s*([^:]+):\s*(.+)\s*\}$`, and the fold that turns the
 * lines of a song into a title, a key and sections. The fold is stated here as
 * declarative functions of the list of lines, parameterised by the tokenizer; the two
 * parsers are imperative loops proved equal to it.
 */
module Directives {
  import opened Text
  import opened SongTypes
  import opened Slug

  /**
   * The part `\s*(.+)\s*` of the pattern matches the text `r` between the colon and the
   * closing brace: `.` takes no line terminator, so the trimmed text must hold none, and
   * a text of spaces only must hold one space that `.` can take.
   */
  predicate ValueMatches(r: string) {
    if AllSpace(r) then exists i :: 0 <= i < |r| && !IsLineTerminator(r[i])
    else NoLineTerminator(Trim(r))
  }

  /**
   * The two captures of `line.match(/^\{\s*([^:]+):\s*(.+)\s*\}$/)`, up to the spaces the
   * pattern may put on either side of them: the text between the brace and the first
   * colon, which must not be empty, and the text between that colon and the closing
   * brace, which the value part must accept.
   */
  function DirectiveParts(line: string): (r: Option<(string, string)>)
    ensures r.Some? ==> |line| >= 5 && line[0] == '{' && line[|line| - 1] == '}'
    ensures r.Some? ==> r.value.0 != "" && |r.value.0| + |r.value.1| + 3 == |line| && ValueMatches(r.value.1)
  {
    if |line| < 2 || line[0] != '{' || line[|line| - 1] != '}' then None
    else
      var c := IndexOf(line, ':');
      if c < 2 || c + 2 >= |line| then None
      else
        var r := line[c + 1..|line| - 1];
        if ValueMatches(r) then Some((line[1..c], r)) else None
  }

  /** The directive as the parsers see it: `tag.trim().toLowerCase()` and `value.trim()`. */
  function DirectiveMatch(line: string): (r: Option<(string, string)>)
    ensures r.Some? <==> DirectiveParts(line).Some?
    ensures r.Some? ==> Trimmed(r.value.1) && |r.value.0| <= |DirectiveParts(line).value.0|
  {
    match DirectiveParts(line)
    case None => None
    case Some((tag, value)) => Some((ToLower(Trim(tag)), Trim(value)))
  }

  /** The captures put back between the brace, the colon and the closing brace give the line. */
  lemma PartsShape(line: string)
    requires DirectiveParts(line).Some?
    ensures var (tag, value) := DirectiveParts(line).value;
            line == "{" + tag + ":" + value + "}" && tag != "" && ':' !in tag && ValueMatches(value)
  {
    PartsTag(line);
    IndexOfFirst(line, ':');
    Pieces(line, IndexOf(line, ':'));
  }

  /** The tag capture ends at the first colon. */
  lemma PartsTag(line: string)
    requires DirectiveParts(line).Some?
    ensures ':' !in DirectiveParts(line).value.0
  {
    var c := IndexOf(line, ':');
    IndexOfFirst(line, ':');
    var tag := line[1..c];
    forall i | 0 <= i < |tag| ensures tag[i] != ':' {
      assert tag[i] == line[1 + i];
    }
  }

  lemma Pieces(line: string, c: nat)
    requires 1 <= c < |line| - 1 && line[0] == '{' && line[c] == ':' && line[|line| - 1] == '}'
    ensures line == "{" + line[1..c] + ":" + line[c + 1..|line| - 1] + "}"
  {
    var n := |line|;
    var r := "{" + line[1..c] + ":" + line[c + 1..n - 1] + "}";
    assert |r| == n;
    forall i | 0 <= i < n ensures r[i] == line[i] {
      if i == 0 {
      } else if i < c {
        assert r[i] == line[1..c][i - 1];
      } else if i == c {
      } else if i < n - 1 {
        assert r[i] == line[c + 1..n - 1][i - c - 1];
      }
    }
  }

  /**
   * A directive spans its whole line, from the brace in column 0 to the closing brace at
   * the end, and its tag holds no colon and no upper-case letter.
   */
  lemma DirectiveTag(line: string)
    requires DirectiveMatch(line).Some?
    ensures line[0] == '{' && line[|line| - 1] == '}'
    ensures var tag := DirectiveMatch(line).value.0;
            ':' !in tag && forall i :: 0 <= i < |tag| ==> !('A' <= tag[i] <= 'Z')
  {
    var t := DirectiveParts(line).value.0;
    PartsTag(line);
    TrimInside(t, ':');
    LowerKeeps(Trim(t), ':');
  }

  /** Lower-casing leaves no capital letter and brings in no character other than lower-case letters. */
  lemma LowerKeeps(s: string, x: char)
    requires x !in s && !('a' <= x <= 'z')
    ensures x !in ToLower(s) && forall i :: 0 <= i < |s| ==> !('A' <= ToLower(s)[i] <= 'Z')
  {
    var l := ToLower(s);
    forall i | 0 <= i < |l| ensures l[i] != x && !('A' <= l[i] <= 'Z') {
      assert l[i] == LowerChar(s[i]) && s[i] != x;
    }
  }

  /** A directive's value has no space at either end and no line terminator. */
  lemma DirectiveValue(line: string)
    requires DirectiveMatch(line).Some?
    ensures var value := DirectiveMatch(line).value.1;
            Trimmed(value) && NoLineTerminator(value)
  {
    var v := DirectiveParts(line).value.1;
    PartsShape(line);
    if AllSpace(v) {
      assert Trim(v) == [];
    }
  }

  /** Trimming takes characters away only. */
  lemma TrimInside(s: string, x: char)
    requires x !in s
    ensures x !in Trim(s)
  {
    var t := TrimStart(s);
    TrimStartShape(s);
    assert x !in t by {
      forall i | 0 <= i < |t| ensures t[i] != x {
        assert t[i] == s[|s| - |t| + i];
      }
    }
    var r := TrimEnd(t);
    TrimEndShape(t);
    forall i | 0 <= i < |r| ensures r[i] != x {
      assert r[i] == t[i];
    }
  }

  /**
   * A line `{` tag `:` value `}` whose tag holds no colon and whose value the pattern
   * accepts is a directive with the trimmed, lower-cased tag and the trimmed value.
   */
  lemma DirectiveOf(tag: string, value: string)
    requires tag != "" && ':' !in tag && value != "" && ValueMatches(value)
    ensures DirectiveMatch("{" + tag + ":" + value + "}") == Some((ToLower(Trim(tag)), Trim(value)))
  {
    var line := "{" + tag + ":" + value + "}";
    var c := 1 + |tag|;
    Joined(tag, value);
    IndexOfIs(line, ':', c);
  }

  /** Where the pieces of a joined directive line sit. */
  lemma Joined(tag: string, value: string)
    requires ':' !in tag
    ensures var line := "{" + tag + ":" + value + "}"; var c := 1 + |tag|;
            |line| == |tag| + |value| + 3 && line[0] == '{' && line[c] == ':' && line[|line| - 1] == '}' &&
            line[1..c] == tag && line[c + 1..|line| - 1] == value &&
            forall i :: 0 <= i < c ==> line[i] != ':'
  {
    var a := "{" + tag;
    var b := a + ":";
    var d := b + value;
    var line := d + "}";
    assert line == "{" + tag + ":" + value + "}";
    var c := 1 + |tag|;
    assert line[..|d|] == d && d[..|b|] == b && b[..|a|] == a;
    assert a[1..] == tag;
    assert line[1..c] == tag;
    assert d[|b|..] == value;
    assert line[c + 1..|line| - 1] == value;
    forall i | 0 <= i < c ensures line[i] != ':' {
      assert line[i] == a[i];
      if i > 0 { assert a[i] == tag[i - 1]; }
    }
  }

  /** A value of spaces only (`{title: }`) is accepted and gives the empty value. */
  lemma SpacesValue(tag: string, spaces: string)
    requires tag != "" && ':' !in tag
    requires AllSpace(spaces) && ' ' in spaces
    ensures DirectiveMatch("{" + tag + ":" + spaces + "}") == Some((ToLower(Trim(tag)), ""))
  {
    var i :| 0 <= i < |spaces| && spaces[i] == ' ';
    assert !IsLineTerminator(spaces[i]);
    DirectiveOf(tag, spaces);
  }

  /** The tag is compared in lower case: writing it in capitals names the same directive. */
  lemma TagCaseInsensitive(tag: string, value: string)
    requires tag != "" && ':' !in tag && value != "" && ValueMatches(value)
    ensures DirectiveMatch("{" + ToLower(tag) + ":" + value + "}") == DirectiveMatch("{" + tag + ":" + value + "}")
  {
    var lower := ToLower(tag);
    assert ':' !in lower by {
      forall i | 0 <= i < |lower| ensures lower[i] != ':' {
        assert tag[i] != ':';
      }
    }
    DirectiveOf(tag, value);
    DirectiveOf(lower, value);
    LowerTrim(tag);
    LowerTwice(Trim(tag));
  }

  lemma LowerTrim(t: string)
    ensures Trim(ToLower(t)) == ToLower(Trim(t))
  {
    LowerTrimStart(t);
    LowerTrimEnd(TrimStart(t));
  }

  lemma {:induction false} LowerTrimStart(t: string)
    ensures TrimStart(ToLower(t)) == ToLower(TrimStart(t))
    decreases |t|
  {
    if t != [] {
      var l := ToLower(t);
      assert l[1..] == ToLower(t[1..]);
      assert IsSpace(l[0]) <==> IsSpace(t[0]);
      LowerTrimStart(t[1..]);
    }
  }

  lemma {:induction false} LowerTrimEnd(t: string)
    ensures TrimEnd(ToLower(t)) == ToLower(TrimEnd(t))
    decreases |t|
  {
    if t != [] {
      var n := |t| - 1;
      var front := t[..n];
      var x := t[n];
      var y := LowerChar(x);
      assert t == front + [x];
      LowerSnoc(front, x);
      LowerSpace(x);
      TrimEndSnoc(front, x);
      TrimEndSnoc(ToLower(front), y);
      if IsSpace(x) {
        LowerTrimEnd(front);
      }
    }
  }

  /** Lower-casing neither makes nor removes white space. */
  lemma LowerSpace(x: char)
    ensures IsSpace(LowerChar(x)) == IsSpace(x)
  {
    if 'A' <= x <= 'Z' {
      assert !IsSpace(x) && !IsSpace(LowerChar(x));
    }
  }

  lemma LowerSnoc(a: string, x: char)
    ensures ToLower(a + [x]) == ToLower(a) + [LowerChar(x)]
  {
    var l := ToLower(a + [x]);
    var r := ToLower(a) + [LowerChar(x)];
    forall i | 0 <= i < |l| ensures l[i] == r[i] {
      assert (a + [x])[i] == if i < |a| then a[i] else x;
    }
  }

  lemma TrimEndSnoc(a: string, x: char)
    ensures TrimEnd(a + [x]) == if IsSpace(x) then TrimEnd(a) else a + [x]
  {
    var ax := a + [x];
    assert ax[..|ax| - 1] == a && ax[|ax| - 1] == x;
  }

  lemma LowerTwice(t: string)
    ensures ToLower(ToLower(t)) == ToLower(t)
  {
  }

  /** A line that is not a directive opens no section: a blank line or a line of text. */
  function LineOf(line: string, tokenize: string -> seq<Token>): Line {
    if AllSpace(line) then Line([BlankToken], "") else Line(tokenize(line), line)
  }

  /** A source line as the fold reads it: a directive, or a line of the current section. */
  datatype LineKind = Meta(tag: string, value: string) | Content(line: Line)

  function Classify(line: string, tokenize: string -> seq<Token>): LineKind {
    match DirectiveMatch(line)
    case Some((tag, value)) => Meta(tag, value)
    case None => Content(LineOf(line, tokenize))
  }

  function Kinds(lines: seq<string>, tokenize: string -> seq<Token>): (ks: seq<LineKind>)
    ensures |ks| == |lines|
    ensures forall i :: 0 <= i < |lines| ==> ks[i] == Classify(lines[i], tokenize)
  {
    seq(|lines|, i requires 0 <= i < |lines| => Classify(lines[i], tokenize))
  }

  /**
   * Every section the fold opens, empty ones included: the first is `Verse`, a `section`
   * directive opens the next one, a line that is not a directive joins the last one,
   * and other directives add nothing.
   */
  function Chunks(ks: seq<LineKind>): (r: seq<Section>)
    ensures |r| >= 1 && r[0].name == "Verse"
  {
    if ks == [] then [Section("Verse", [])]
    else Step(Chunks(ks[..|ks| - 1]), ks[|ks| - 1])
  }

  /** What one line does to the sections opened so far. */
  function Step(prev: seq<Section>, k: LineKind): (r: seq<Section>)
    requires prev != []
    ensures r != [] && r[0].name == prev[0].name
  {
    match k
    case Content(l) => Extend(prev, l)
    case Meta(tag, value) => if tag == "section" then prev + [Section(value, [])] else prev
  }

  /** `currentSection.lines.push(l)`. */
  function Extend(prev: seq<Section>, l: Line): (r: seq<Section>)
    requires prev != []
    ensures |r| == |prev| && r[0].name == prev[0].name
  {
    var k := |prev| - 1;
    prev[..k] + [Section(prev[k].name, prev[k].lines + [l])]
  }

  /** `commitSection` applied to each section in turn: the ones holding no line are dropped. */
  function Committed(secs: seq<Section>): (r: seq<Section>)
    ensures forall i :: 0 <= i < |r| ==> r[i].lines != []
  {
    if secs == [] then []
    else
      var rest := Committed(secs[1..]);
      (if secs[0].lines != [] then [secs[0]] else []) + rest
  }

  /**
   * A step seen as the parser's state, the committed sections and the open one: a line
   * joins the open section, a `section` directive commits the open section when it holds a
   * line and opens a new empty one, any other directive changes nothing.
   */
  lemma StepCommit(c: seq<Section>, k: LineKind)
    requires c != []
    ensures var d := Step(c, k); var n := |c| - 1;
      match k
      case Content(l) =>
        d[..|d| - 1] == c[..n] && d[|d| - 1] == Section(c[n].name, c[n].lines + [l])
      case Meta(tag, value) =>
        if tag == "section" then
          Committed(d[..|d| - 1]) == Committed(c[..n]) + (if c[n].lines != [] then [c[n]] else []) &&
          d[|d| - 1] == Section(value, [])
        else d == c
  {
    match k
    case Content(l) =>
    case Meta(tag, value) =>
      if tag == "section" {
        var d := c + [Section(value, [])];
        assert d[..|d| - 1] == c;
        CommitLast(c);
      }
  }

  /** All lines of all sections, in order. */
  function AllLines(secs: seq<Section>): seq<Line> {
    if secs == [] then [] else secs[0].lines + AllLines(secs[1..])
  }

  function Names(secs: seq<Section>): seq<string> {
    if secs == [] then [] else [secs[0].name] + Names(secs[1..])
  }

  /** The lines that are not directives, in order. */
  function BodyLines(ks: seq<LineKind>): seq<Line> {
    if ks == [] then []
    else BodyLines(ks[..|ks| - 1]) + (match ks[|ks| - 1] case Content(l) => [l] case Meta(_, _) => [])
  }

  /** The values of the `section` directives, in order. */
  function SectionValues(ks: seq<LineKind>): seq<string> {
    if ks == [] then []
    else
      var k := ks[|ks| - 1];
      SectionValues(ks[..|ks| - 1]) + (if k.Meta? && k.tag == "section" then [k.value] else [])
  }

  /** The value of the last directive with tag `tag`, if there is one. */
  function LastValue(ks: seq<LineKind>, tag: string): Option<string> {
    if ks == [] then None
    else
      var k := ks[|ks| - 1];
      if k.Meta? && k.tag == tag then Some(k.value) else LastValue(ks[..|ks| - 1], tag)
  }

  function TitleOf(ks: seq<LineKind>): string {
    match LastValue(ks, "title")
    case Some(t) => t
    case None => "Untitled"
  }

  /** The song the fold makes of the classified lines. */
  function ParseKinds(ks: seq<LineKind>, sourcePath: string): (song: SongData)
    ensures forall i :: 0 <= i < |song.sections| ==> song.sections[i].lines != []
  {
    var title := TitleOf(ks);
    SongData(Slugify(title), title, LastValue(ks, "key"), Committed(Chunks(ks)), sourcePath)
  }

  /** The song the fold makes of a source text, cut at its line breaks. */
  function SongOf(raw: string, sourcePath: string, tokenize: string -> seq<Token>): SongData {
    ParseKinds(Kinds(SplitLines(raw), tokenize), sourcePath)
  }

  /**
   * The parser's state after the lines classified as `done`: the title and key seen last,
   * the sections committed so far and the section still open.
   */
  predicate FoldState(done: seq<LineKind>, title: string, key: Option<string>,
                      sections: seq<Section>, current: Section)
  {
    var c := Chunks(done);
    title == TitleOf(done) && key == LastValue(done, "key") &&
    sections == Committed(c[..|c| - 1]) && current == c[|c| - 1]
  }

  /**
   * One more line keeps the fold's state: `{title: v}` and `{key: v}` set their value,
   * `{section: v}` commits the current section when it is non-empty and opens `v`, and a
   * content line goes into the current section.
   */
  lemma FoldStateStep(done: seq<LineKind>, k: LineKind, title: string, key: Option<string>,
                      sections: seq<Section>, current: Section, title': string, key': Option<string>,
                      sections': seq<Section>, current': Section)
    requires FoldState(done, title, key, sections, current)
    requires title' == if k.Meta? && k.tag == "title" then k.value else title
    requires key' == if k.Meta? && k.tag == "key" then Some(k.value) else key
    requires k.Content? ==> sections' == sections && current' == Section(current.name, current.lines + [k.line])
    requires k.Meta? && k.tag == "section" ==>
               sections' == (if current.lines != [] then sections + [current] else sections) &&
               current' == Section(k.value, [])
    requires k.Meta? && k.tag != "section" ==> sections' == sections && current' == current
    ensures FoldState(done + [k], title', key', sections', current')
  {
    ChunksLast(done, k);
    LastValueLast(done, k, "title");
    LastValueLast(done, k, "key");
    StepCommit(Chunks(done), k);
  }

  /** After the last line the open section is committed, and the song is the fold's. */
  lemma FoldDone(raw: string, sourcePath: string, tokenize: string -> seq<Token>,
                 title: string, key: Option<string>, sections: seq<Section>, current: Section)
    requires FoldState(Kinds(SplitLines(raw), tokenize), title, key, sections, current)
    ensures SongOf(raw, sourcePath, tokenize)
         == SongData(Slugify(title), title, key,
                     if current.lines != [] then sections + [current] else sections, sourcePath)
  {
    CommitLast(Chunks(Kinds(SplitLines(raw), tokenize)));
  }

  // ---------------------------------------------------------------------------
  // Sections

  lemma {:induction false} CommittedAppend(a: seq<Section>, b: seq<Section>)
    ensures Committed(a + b) == Committed(a) + Committed(b)
  {
    if a == [] {
      assert a + b == b;
    } else {
      assert (a + b)[1..] == a[1..] + b;
      CommittedAppend(a[1..], b);
    }
  }

  /** The last section is committed after the others, when it holds a line. */
  lemma CommitLast(c: seq<Section>)
    requires c != []
    ensures Committed(c) == Committed(c[..|c| - 1]) + (if c[|c| - 1].lines != [] then [c[|c| - 1]] else [])
  {
    var k := |c| - 1;
    assert c == c[..k] + [c[k]];
    CommitSnoc(c[..k], c[k]);
  }

  /** One more section is committed after the others, when it holds a line. */
  lemma CommitSnoc(front: seq<Section>, x: Section)
    ensures Committed(front + [x]) == Committed(front) + (if x.lines != [] then [x] else [])
  {
    CommittedAppend(front, [x]);
    assert [x][1..] == [];
  }

  lemma {:induction false} AllLinesAppend(a: seq<Section>, b: seq<Section>)
    ensures AllLines(a + b) == AllLines(a) + AllLines(b)
  {
    if a == [] {
      assert a + b == b;
    } else {
      assert (a + b)[1..] == a[1..] + b;
      AllLinesAppend(a[1..], b);
    }
  }

  lemma {:induction false} NamesAppend(a: seq<Section>, b: seq<Section>)
    ensures Names(a + b) == Names(a) + Names(b)
  {
    if a == [] {
      assert a + b == b;
    } else {
      assert (a + b)[1..] == a[1..] + b;
      NamesAppend(a[1..], b);
    }
  }

  /** Dropping the empty sections drops no line. */
  lemma {:induction false} CommittedLines(secs: seq<Section>)
    ensures AllLines(Committed(secs)) == AllLines(secs)
  {
    if secs != [] {
      CommittedLines(secs[1..]);
      var head := if secs[0].lines != [] then [secs[0]] else [];
      AllLinesAppend(head, Committed(secs[1..]));
    }
  }

  /** The lines of the chunks are the lines that are not directives. */
  lemma {:induction false} ChunksLines(ks: seq<LineKind>)
    ensures AllLines(Chunks(ks)) == BodyLines(ks)
  {
    if ks != [] {
      ChunksLines(ks[..|ks| - 1]);
      StepLines(Chunks(ks[..|ks| - 1]), ks[|ks| - 1]);
    }
  }

  lemma StepLines(prev: seq<Section>, k: LineKind)
    requires prev != []
    ensures AllLines(Step(prev, k)) == AllLines(prev) + (match k case Content(l) => [l] case Meta(_, _) => [])
  {
    match k
    case Content(l) => ExtendLines(prev, l);
    case Meta(tag, value) =>
      if tag == "section" {
        AllLinesAppend(prev, [Section(value, [])]);
        assert AllLines([Section(value, [])]) == [];
      }
  }

  lemma ExtendLines(prev: seq<Section>, l: Line)
    requires prev != []
    ensures AllLines(Extend(prev, l)) == AllLines(prev) + [l]
  {
    var k := |prev| - 1;
    var last := Section(prev[k].name, prev[k].lines + [l]);
    assert prev == prev[..k] + [prev[k]];
    AllLinesAppend(prev[..k], [prev[k]]);
    AllLinesAppend(prev[..k], [last]);
    assert AllLines([last]) == prev[k].lines + [l];
    assert AllLines([prev[k]]) == prev[k].lines;
  }

  /**
   * Sections hold, between them, exactly the lines that are not directives, in input
   * order: none is lost and none is repeated.
   */
  lemma SectionsCoverLines(ks: seq<LineKind>, sourcePath: string)
    ensures AllLines(ParseKinds(ks, sourcePath).sections) == BodyLines(ks)
  {
    CommittedLines(Chunks(ks));
    ChunksLines(ks);
  }

  /** A line that is not a directive becomes a blank line or keeps its text as its raw text. */
  lemma ContentLine(line: string, tokenize: string -> seq<Token>)
    requires DirectiveMatch(line).None?
    ensures Classify(line, tokenize) == Content(
              if AllSpace(line) then Line([BlankToken], "") else Line(tokenize(line), line))
  {
  }

  /** The chunks are `Verse` and then one per `section` directive, named by its value. */
  lemma {:induction false} ChunkNames(ks: seq<LineKind>)
    ensures Names(Chunks(ks)) == ["Verse"] + SectionValues(ks)
  {
    if ks != [] {
      ChunkNames(ks[..|ks| - 1]);
      StepNames(Chunks(ks[..|ks| - 1]), ks[|ks| - 1]);
    }
  }

  lemma StepNames(prev: seq<Section>, k: LineKind)
    requires prev != []
    ensures Names(Step(prev, k)) == Names(prev) + (if k.Meta? && k.tag == "section" then [k.value] else [])
  {
    match k
    case Content(l) => ExtendNames(prev, l);
    case Meta(tag, value) =>
      if tag == "section" {
        NamesAppend(prev, [Section(value, [])]);
      }
  }

  lemma ExtendNames(prev: seq<Section>, l: Line)
    requires prev != []
    ensures Names(Extend(prev, l)) == Names(prev)
  {
    var k := |prev| - 1;
    assert prev == prev[..k] + [prev[k]];
    NamesAppend(prev[..k], [prev[k]]);
    NamesAppend(prev[..k], [Section(prev[k].name, prev[k].lines + [l])]);
  }

  /** `k` is a `section` directive. */
  predicate OpensSection(k: LineKind) {
    k.Meta? && k.tag == "section"
  }

  /** No `section` directive comes before position `j`. */
  predicate NoSectionBefore(ks: seq<LineKind>, j: nat) {
    forall i :: 0 <= i < j && i < |ks| ==> !OpensSection(ks[i])
  }

  /** Lines holding no `section` directive leave a single chunk open. */
  lemma {:induction false} OneChunk(ks: seq<LineKind>)
    requires NoSectionBefore(ks, |ks|)
    ensures |Chunks(ks)| == 1
  {
    if ks != [] {
      var front := ks[..|ks| - 1];
      assert !OpensSection(ks[|ks| - 1]);
      assert forall i :: 0 <= i < |front| ==> front[i] == ks[i];
      OneChunk(front);
    }
  }

  /**
   * Once a line that is not a directive has been read before any `section` directive,
   * the first chunk holds a line; title, key and unknown directives may come first.
   */
  lemma {:induction false} FirstChunkFilled(ks: seq<LineKind>, j: nat)
    requires j < |ks| && ks[j].Content? && NoSectionBefore(ks, j)
    ensures Chunks(ks)[0].lines != []
  {
    var front := ks[..|ks| - 1];
    assert forall i :: 0 <= i < |front| ==> front[i] == ks[i];
    if j == |ks| - 1 {
      OneChunk(front);
    } else {
      FirstChunkFilled(front, j);
    }
  }

  /** The sections start with one named `Verse`. */
  predicate VerseFirst(secs: seq<Section>) {
    secs != [] && secs[0].name == "Verse"
  }

  /**
   * A song in which a line that is not a directive comes before any `section` directive
   * starts with a section named `Verse`.
   */
  lemma FirstSectionVerse(ks: seq<LineKind>, j: nat, sourcePath: string)
    requires j < |ks| && ks[j].Content? && NoSectionBefore(ks, j)
    ensures VerseFirst(ParseKinds(ks, sourcePath).sections)
  {
    var c := Chunks(ks);
    FirstChunkFilled(ks, j);
    assert Committed(c)[0] == c[0];
  }

  /** The empty text is one line, blank: one `Verse` holding one blank line. */
  lemma EmptySource(sourcePath: string, tokenize: string -> seq<Token>)
    ensures var song := SongOf("", sourcePath, tokenize);
            song.sections == [Section("Verse", [Line([BlankToken], "")])] &&
            song.title == "Untitled" && song.key == None
  {
    BlankKinds(tokenize);
    ParseBlank(Line([BlankToken], ""), sourcePath);
  }

  lemma ParseBlank(l: Line, sourcePath: string)
    ensures var song := ParseKinds([Content(l)], sourcePath);
            song.sections == [Section("Verse", [l])] && song.title == "Untitled" && song.key == None
  {
    var ks := [Content(l)];
    var secs := [Section("Verse", [l])];
    BlankChunk(l);
    assert Committed(secs) == secs by {
      assert secs[1..] == [];
    }
    assert ks[..0] == [];
    assert LastValue(ks, "title") == None;
    assert LastValue(ks, "key") == None;
  }

  lemma BlankKinds(tokenize: string -> seq<Token>)
    ensures Kinds(SplitLines(""), tokenize) == [Content(Line([BlankToken], ""))]
  {
    assert SplitLines("") == [""];
    assert DirectiveMatch("").None?;
    assert AllSpace("");
  }

  lemma BlankChunk(l: Line)
    ensures Chunks([Content(l)]) == [Section("Verse", [l])]
  {
    assert [Content(l)][..0] == [];
    var v := [Section("Verse", [])];
    assert v[..0] == [] && v[0].lines + [l] == [l];
  }

  // ---------------------------------------------------------------------------
  // Title and key

  /** The last directive with a tag gives its value, whatever came before it. */
  lemma {:induction false} LastValueWins(ks: seq<LineKind>, tag: string, i: nat)
    requires i < |ks| && ks[i].Meta? && ks[i].tag == tag
    requires forall j :: i < j < |ks| ==> !(ks[j].Meta? && ks[j].tag == tag)
    ensures LastValue(ks, tag) == Some(ks[i].value)
  {
    if i < |ks| - 1 {
      var front := ks[..|ks| - 1];
      assert front[i] == ks[i];
      LastValueWins(front, tag, i);
    }
  }

  /** Without a directive with that tag the value stays unset. */
  lemma {:induction false} LastValueAbsent(ks: seq<LineKind>, tag: string)
    ensures LastValue(ks, tag).None? <==> forall j :: 0 <= j < |ks| ==> !(ks[j].Meta? && ks[j].tag == tag)
  {
    if ks != [] {
      var front := ks[..|ks| - 1];
      LastValueAbsent(front, tag);
      if LastValue(ks, tag).None? {
        forall j | 0 <= j < |ks| ensures !(ks[j].Meta? && ks[j].tag == tag) {
          if j < |front| { assert ks[j] == front[j]; }
        }
      } else if !(ks[|ks| - 1].Meta? && ks[|ks| - 1].tag == tag) {
        var j :| 0 <= j < |front| && front[j].Meta? && front[j].tag == tag;
        assert ks[j] == front[j];
      }
    }
  }

  /** A directive whose tag is not `t` leaves the last `t` value as it is, wherever it sits. */
  lemma {:induction false} LastValueSkips(a: seq<LineKind>, m: LineKind, b: seq<LineKind>, t: string)
    requires m.Meta? && m.tag != t
    ensures LastValue(a + [m] + b, t) == LastValue(a + b, t)
    decreases |b|
  {
    var x := a + [m] + b;
    var y := a + b;
    if b == [] {
      assert x == a + [m] && y == a;
      LastValueLast(a, m, t);
    } else {
      var front := b[..|b| - 1];
      var last := b[|b| - 1];
      assert x == (a + [m] + front) + [last];
      assert y == (a + front) + [last];
      LastValueLast(a + [m] + front, last, t);
      LastValueLast(a + front, last, t);
      LastValueSkips(a, m, front, t);
    }
  }

  /** The last value of a tag after one more line at the end. */
  lemma LastValueLast(front: seq<LineKind>, k: LineKind, t: string)
    ensures LastValue(front + [k], t) == if k.Meta? && k.tag == t then Some(k.value) else LastValue(front, t)
  {
    var z := front + [k];
    assert z[..|z| - 1] == front && z[|z| - 1] == k;
  }

  /** A directive other than `section` leaves the sections as they are, wherever it sits. */
  lemma {:induction false} ChunksSkip(a: seq<LineKind>, m: LineKind, b: seq<LineKind>)
    requires m.Meta? && m.tag != "section"
    ensures Chunks(a + [m] + b) == Chunks(a + b)
    decreases |b|
  {
    var x := a + [m] + b;
    var y := a + b;
    if b == [] {
      assert x == a + [m] && y == a;
      ChunksLast(a, m);
    } else {
      var front := b[..|b| - 1];
      var last := b[|b| - 1];
      assert x == (a + [m] + front) + [last];
      assert y == (a + front) + [last];
      ChunksLast(a + [m] + front, last);
      ChunksLast(a + front, last);
      ChunksSkip(a, m, front);
    }
  }

  /** The sections after one more line at the end. */
  lemma ChunksLast(front: seq<LineKind>, k: LineKind)
    ensures Chunks(front + [k]) == Step(Chunks(front), k)
  {
    var z := front + [k];
    assert z[..|z| - 1] == front && z[|z| - 1] == k;
  }

  /**
   * A directive whose tag is none of `title`, `key`, `section` changes nothing, wherever
   * it stands among the lines.
   */
  lemma UnknownDirectiveIgnored(a: seq<LineKind>, tag: string, value: string, b: seq<LineKind>, sourcePath: string)
    requires tag != "title" && tag != "key" && tag != "section"
    ensures ParseKinds(a + [Meta(tag, value)] + b, sourcePath) == ParseKinds(a + b, sourcePath)
  {
    var m := Meta(tag, value);
    LastValueSkips(a, m, b, "title");
    LastValueSkips(a, m, b, "key");
    ChunksSkip(a, m, b);
  }
}
