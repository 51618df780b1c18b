/**
 * The build script (scripts/build-songs.ts): its own `parseTokens`, which makes a
 * chord token with an empty lyric for every marker and a chordless token for every
 * stretch of text between markers, its own `parseSong`, which folds the lines of a
 * song like the library's parser but keeps no copy of the source, and the search
 * index record it writes for every song.
 */
module BuildSongs {
  import opened Text
  import opened SongTypes
  import opened Markers
  import opened ScanFacts
  import opened Directives
  import opened Slug
  import opened Seqs
  import ChordPro

  /** The token a segment stands for: a gap is a lyric of its own, a marker a chord over no lyric. */
  function TokenFor(g: Segment): Token {
    match g
    case Gap(t) => Token(None, t)
    case Marker(c) => Token(Some(Trim(c)), "")
  }

  /** What the loop pushes for a segment; an empty gap pushes nothing (`if (lyricBefore)`). */
  function Emit(g: Segment): seq<Token> {
    match g
    case Gap(t) => ChordPro.Before(t)
    case Marker(c) => [Token(Some(Trim(c)), "")]
  }

  /** The tokens pushed for a list of segments, in order. */
  function Emitted(segs: seq<Segment>): seq<Token> {
    if segs == [] then [] else Emit(segs[0]) + Emitted(segs[1..])
  }

  /** `parseTokens(line)`: the pushed tokens, or the one blank token when there are none. */
  function TokensOf(line: string): (r: seq<Token>)
    ensures r != []
  {
    var a := Emitted(Scan(line, false));
    if a == [] then [BlankToken] else a
  }

  // ---------------------------------------------------------------------------
  // The loop against `Emitted`

  /** The tokens so far, followed by the tokens of the line from `from` on, are the tokens of the line. */
  predicate Emitting(line: string, from: nat, tokens: seq<Token>) {
    from <= |line| && tokens + Emitted(Scan(Suffix(line, from), false)) == Emitted(Scan(line, false))
  }

  /** `parseTokens` of the build script. */
  method ParseTokens(line: string) returns (tokens: seq<Token>)
    ensures tokens == TokensOf(line)
  {
    tokens := [];
    var lastIndex: nat := 0;
    var m := Exec(line, lastIndex, false);
    while m.Some?
      invariant Emitting(line, lastIndex, tokens)
      invariant ExecResult(line, lastIndex, m, false)
      decreases |line| - lastIndex
    {
      tokens, lastIndex := Turn(line, tokens, lastIndex, m.value);
      m := Exec(line, lastIndex, false);
    }
    var trailing := line[lastIndex..];
    LoopEnd(line, lastIndex, tokens);
    if trailing != "" {
      tokens := tokens + [Token(None, trailing)];
    }
    if tokens == [] {
      tokens := [BlankToken];
    }
  }

  /**
   * One turn of the loop: the lyric before the marker at `p` (if any), then the marker's
   * chord over an empty lyric. The pattern's `lastIndex` moves past the marker's `]`.
   */
  method Turn(line: string, tokens: seq<Token>, lastIndex: nat, p: nat)
    returns (tokens': seq<Token>, lastIndex': nat)
    requires Emitting(line, lastIndex, tokens)
    requires lastIndex <= p && FirstOpen(line, lastIndex, p, false)
    ensures p < lastIndex' <= |line| && Emitting(line, lastIndex', tokens')
  {
    var q := CloseOf(line, p);
    CloseInLine(line, p, false);
    var chord := Trim(line[p + 1..q]);
    var lyricBefore := line[lastIndex..p];
    tokens' := tokens;
    if lyricBefore != "" {
      tokens' := tokens' + [Token(None, lyricBefore)];
    }
    tokens' := tokens' + [Token(Some(chord), "")];
    lastIndex' := q + 1;
    TurnTokens(line, lastIndex, p, q, lyricBefore, Token(Some(chord), ""), lastIndex');
    TurnAdds(line, lastIndex, lastIndex', tokens, lyricBefore, Token(Some(chord), ""), tokens');
  }

  /** What the turn pushed carries the invariant past the marker. */
  lemma TurnAdds(line: string, l: nat, l': nat, tokens: seq<Token>, g: string, t: Token, tokens': seq<Token>)
    requires l <= l' <= |line| && Emitting(line, l, tokens)
    requires Emitted(Scan(line[l..], false)) == ChordPro.Before(g) + [t] + Emitted(Scan(line[l'..], false))
    requires tokens' == (if g != "" then tokens + [Token(None, g)] else tokens) + [t]
    ensures Emitting(line, l', tokens')
  {
    Assoc(tokens, ChordPro.Before(g), [t]);
    EmittingStep(line, l, l', tokens, ChordPro.Before(g) + [t], tokens');
  }

  /** Tokens added for the text from `l` up to `l'` carry the invariant from `l` to `l'`. */
  lemma EmittingStep(line: string, l: nat, l': nat, tokens: seq<Token>, added: seq<Token>, tokens': seq<Token>)
    requires l <= l' <= |line| && Emitting(line, l, tokens)
    requires Emitted(Scan(line[l..], false)) == added + Emitted(Scan(line[l'..], false))
    requires tokens' == tokens + added
    ensures Emitting(line, l', tokens')
  {
    SuffixDrop(line, l);
    SuffixDrop(line, l');
    Assoc(tokens, added, Emitted(Scan(line[l'..], false)));
  }

  /** The tokens of the line from `l` on: the lyric `g` before the match at `p`, its chord token `t`, and the tokens after it. */
  lemma TurnTokens(line: string, l: nat, p: nat, q: nat, g: string, t: Token, l': nat)
    requires l <= p && FirstOpen(line, l, p, false) && q == CloseOf(line, p) && l' == q + 1
    requires g == line[l..p] && t == Token(Some(Trim(line[p + 1..q])), "")
    ensures l' <= |line|
    ensures Emitted(Scan(line[l..], false)) == ChordPro.Before(g) + [t] + Emitted(Scan(line[l'..], false))
  {
    ExecFound(line, l, p, q, false);
    EmitFound(line[l..p], line[p + 1..q], Scan(line[q + 1..], false), Scan(line[l..], false));
  }

  /** The tokens of a gap, a marker and what follows them. */
  lemma EmitFound(g: string, c: string, after: seq<Segment>, whole: seq<Segment>)
    requires whole == GapOf(g) + [Marker(c)] + after
    ensures Emitted(whole) == ChordPro.Before(g) + [Token(Some(Trim(c)), "")] + Emitted(after)
  {
    EmittedAppend(GapOf(g) + [Marker(c)], after);
    EmittedAppend(GapOf(g), [Marker(c)]);
    EmitGapOf(g);
    EmitOne(Marker(c));
  }

  /** `exec` finds no more matches: what is left of the line is its trailing text. */
  lemma LoopEnd(line: string, l: nat, tokens: seq<Token>)
    requires Emitting(line, l, tokens) && OpensNone(line, l, |line|, false)
    ensures Emitted(Scan(line, false)) == tokens + (if line[l..] != "" then [Token(None, line[l..])] else [])
  {
    SuffixDrop(line, l);
    ExecNone(line, l, false);
    EmitGapOf(line[l..]);
  }

  lemma {:induction false} EmittedAppend(a: seq<Segment>, b: seq<Segment>)
    ensures Emitted(a + b) == Emitted(a) + Emitted(b)
  {
    if a == [] {
      assert a + b == b;
    } else {
      var ab := a + b;
      var rest := a[1..];
      assert ab[0] == a[0] && ab[1..] == rest + b;
      assert Emitted(ab) == Emit(a[0]) + Emitted(rest + b);
      assert Emitted(a) == Emit(a[0]) + Emitted(rest);
      EmittedAppend(rest, b);
    }
  }

  lemma EmitOne(g: Segment)
    ensures Emitted([g]) == Emit(g)
  {
    assert [g][1..] == [];
  }

  lemma EmitGapOf(t: string)
    ensures Emitted(GapOf(t)) == ChordPro.Before(t)
  {
    if t != "" {
      EmitOne(Gap(t));
    }
  }

  // ---------------------------------------------------------------------------
  // What the tokens of a line are

  /** Segments without an empty gap give one token each, the token the segment stands for. */
  lemma {:induction false} EmittedPointwise(segs: seq<Segment>)
    requires ChordPro.NoEmptyGap(segs)
    ensures |Emitted(segs)| == |segs|
    ensures forall i :: 0 <= i < |segs| ==> Emitted(segs)[i] == TokenFor(segs[i])
  {
    if segs != [] {
      var rest := segs[1..];
      assert forall i :: 0 <= i < |rest| ==> rest[i] == segs[i + 1];
      EmittedPointwise(rest);
      EmitToken(segs[0]);
      var r := Emitted(segs);
      var e := Emitted(rest);
      assert r == [TokenFor(segs[0])] + e;
      assert forall i :: 1 <= i < |segs| ==> r[i] == e[i - 1];
    }
  }

  /** A segment that is not an empty gap gives one token. */
  lemma EmitToken(g: Segment)
    requires g.Gap? ==> g.text != ""
    ensures Emit(g) == [TokenFor(g)]
  {
  }

  /**
   * The empty line gives the one blank token; any other line gives one token per segment
   * of its scan: a chord over an empty lyric for each marker, a lyric for each gap.
   */
  lemma TokensBySegment(line: string)
    ensures line == "" ==> TokensOf(line) == [BlankToken]
    ensures line != "" ==>
              var segs := Scan(line, false);
              var ts := TokensOf(line);
              |ts| == |segs| && forall i :: 0 <= i < |segs| ==> ts[i] == TokenFor(segs[i])
  {
    var segs := Scan(line, false);
    ChordPro.ScanWellFormed(line);
    EmittedPointwise(segs);
    if line != "" {
      ScanCovers(line, false);
      assert segs != [];
    }
  }

  /**
   * Every chord token has an empty lyric and a trimmed chord; unless the line is empty,
   * every chordless token has a lyric, and no two chordless tokens are neighbours.
   */
  lemma TokensShape(line: string)
    ensures var ts := TokensOf(line);
            (forall i :: 0 <= i < |ts| && ts[i].chord.Some? ==> ts[i].lyric == "" && Trimmed(ts[i].chord.value)) &&
            (line != "" ==> forall i :: 0 <= i < |ts| && ts[i].chord.None? ==> ts[i].lyric != "") &&
            (forall i :: 0 <= i < |ts| - 1 ==> ts[i].chord.Some? || ts[i + 1].chord.Some?)
  {
    var segs := Scan(line, false);
    TokensBySegment(line);
    ChordPro.ScanWellFormed(line);
    if line != "" {
      var ts := TokensOf(line);
      forall i | 0 <= i < |ts| - 1 ensures ts[i].chord.Some? || ts[i + 1].chord.Some? {
        assert !(segs[i].Gap? && segs[i + 1].Gap?);
      }
    }
  }

  /** The lyrics of the tokens are the scanned text with its markers deleted. */
  lemma {:induction false} EmittedLyrics(segs: seq<Segment>)
    ensures Lyrics(Emitted(segs)) == StripMarkers(segs)
  {
    if segs != [] {
      EmittedLyrics(segs[1..]);
      LyricsAppend(Emit(segs[0]), Emitted(segs[1..]));
      EmitLyric(segs[0]);
    }
  }

  /** One segment's tokens carry its gap text as lyrics, and a marker's carry none. */
  lemma EmitLyric(g: Segment)
    ensures Lyrics(Emit(g)) == match g case Gap(t) => t case Marker(_) => ""
  {
    match g
    case Gap(t) =>
      if t != "" {
        LyricsCons(Token(None, t), []);
      }
    case Marker(c) =>
      LyricsCons(Token(Some(Trim(c)), ""), []);
  }

  /** The lyrics of a line's tokens are the line with its chord markers deleted, whatever the line. */
  lemma TokensLyrics(line: string)
    ensures Lyrics(TokensOf(line)) == StripMarkers(Scan(line, false))
  {
    EmittedLyrics(Scan(line, false));
    if Emitted(Scan(line, false)) == [] {
      LyricsCons(BlankToken, []);
    }
  }

  lemma {:induction false} EmittedSlots(segs: seq<Segment>)
    ensures ChordSlots(Emitted(segs)) == ChordPro.TrimAll(MarkerContents(segs))
  {
    if segs != [] {
      EmittedSlots(segs[1..]);
      assert segs == [segs[0]] + segs[1..];
      SlotsStep(segs[0], segs[1..]);
    }
  }

  /** One more segment in front: its chord, if it is a marker, comes first. */
  lemma SlotsStep(g: Segment, rest: seq<Segment>)
    requires ChordSlots(Emitted(rest)) == ChordPro.TrimAll(MarkerContents(rest))
    ensures ChordSlots(Emitted([g] + rest)) == ChordPro.TrimAll(MarkerContents([g] + rest))
  {
    EmittedCons(g, rest);
    ContentsCons(g, rest);
    ChordSlotsAppend(Emit(g), Emitted(rest));
    EmitSlots(g);
    if g.Marker? {
      ChordPro.TrimAllCons(g.content, MarkerContents(rest));
    } else {
      assert ChordSlots(Emit(g)) + ChordSlots(Emitted(rest)) == ChordSlots(Emitted(rest));
      assert MarkerContents([g] + rest) == MarkerContents(rest);
    }
  }

  lemma EmittedCons(g: Segment, rest: seq<Segment>)
    ensures Emitted([g] + rest) == Emit(g) + Emitted(rest)
  {
    assert ([g] + rest)[1..] == rest;
  }

  lemma ContentsCons(g: Segment, rest: seq<Segment>)
    ensures MarkerContents([g] + rest) == (if g.Marker? then [g.content] else []) + MarkerContents(rest)
  {
    assert ([g] + rest)[1..] == rest;
  }

  /** The chord slots of one segment's tokens: the trimmed content of a marker, none for a gap. */
  lemma EmitSlots(g: Segment)
    ensures ChordSlots(Emit(g)) == if g.Marker? then [Trim(g.content)] else []
  {
    match g
    case Gap(t) =>
      if t != "" {
        ChordSlotsCons(Token(None, t), []);
      }
    case Marker(c) =>
      ChordSlotsCons(Token(Some(Trim(c)), ""), []);
  }

  /** The chords of a line's tokens are its marker contents, trimmed, in order. */
  lemma TokensSlots(line: string)
    ensures ChordSlots(TokensOf(line)) == ChordPro.TrimAll(MarkerContents(Scan(line, false)))
  {
    EmittedSlots(Scan(line, false));
    if Emitted(Scan(line, false)) == [] {
      ChordSlotsCons(BlankToken, []);
    }
  }

  // ---------------------------------------------------------------------------
  // The song

  /**
   * `parseSong`: the song the fold makes of the source's lines, each line that is not a
   * directive or blank tokenized by the build script's `parseTokens`.
   */
  method ParseSong(raw: string, sourcePath: string) returns (song: SongData)
    ensures song == SongOf(raw, sourcePath, TokensOf)
  {
    var lines := SplitLines(raw);
    ghost var ks := Kinds(lines, TokensOf);
    var title := "Untitled";
    var key: Option<string> := None;
    var sections: seq<Section> := [];
    var current := Section("Verse", []);
    assert ks[..0] == [];
    for i := 0 to |lines|
      invariant FoldState(ks[..i], title, key, sections, current)
    {
      title, key, sections, current := FoldLine(lines[i], title, key, sections, current, ks, i);
    }
    assert ks[..|lines|] == ks;
    FoldDone(raw, sourcePath, TokensOf, title, key, sections, current);
    if |current.lines| > 0 {
      sections := sections + [current];
    }
    song := SongData(Slugify(title), title, key, sections, sourcePath);
  }

  /** The body of the loop in `parseSong`: one more source line read. */
  method FoldLine(line: string, title: string, key: Option<string>, sections: seq<Section>,
                  current: Section, ghost ks: seq<LineKind>, ghost i: nat)
    returns (title': string, key': Option<string>, sections': seq<Section>, current': Section)
    requires i < |ks| && ks[i] == Classify(line, TokensOf)
    requires FoldState(ks[..i], title, key, sections, current)
    ensures FoldState(ks[..i + 1], title', key', sections', current')
  {
    ghost var done := ks[..i];
    ghost var k := Classify(line, TokensOf);
    TakeSnoc(ks, i);
    title', key', sections', current' := title, key, sections, current;
    var meta := DirectiveMatch(line);
    if meta.Some? {
      var (tag, value) := meta.value;
      if tag == "title" {
        title' := value;
      } else if tag == "key" {
        key' := Some(value);
      } else if tag == "section" {
        if |current.lines| > 0 {
          sections' := sections + [current];
        }
        current' := Section(value, []);
      }
    } else if Trim(line) == "" {
      current' := Section(current.name, current.lines + [Line([BlankToken], "")]);
    } else {
      var tokens := ParseTokens(line);
      current' := Section(current.name, current.lines + [Line(tokens, line)]);
    }
    FoldStateStep(done, k, title, key, sections, current, title', key', sections', current');
  }

  // ---------------------------------------------------------------------------
  // The index record

  /** `lines.map((line) => line.raw)`. */
  function Raws(ls: seq<Line>): seq<string> {
    if ls == [] then [] else [ls[0].raw] + Raws(ls[1..])
  }

  /** `.filter((line) => line.trim() !== '')`. */
  function NonBlank(rs: seq<string>): seq<string> {
    if rs == [] then [] else (if Trim(rs[0]) != "" then [rs[0]] else []) + NonBlank(rs[1..])
  }

  /** `song.sections.flatMap(...)`: the non-blank raw lines of each section, section after section. */
  function IndexLines(secs: seq<Section>): seq<string> {
    if secs == [] then [] else NonBlank(Raws(secs[0].lines)) + IndexLines(secs[1..])
  }

  /** The record `index.push` adds for a song. */
  function IndexEntry(song: SongData): (e: SongIndexEntry)
    ensures e.id == song.id && e.title == song.title && e.key == song.key
    ensures forall i :: 0 <= i < |e.sections| ==> !AllSpace(e.sections[i])
  {
    IndexLinesFilled(song.sections);
    SongIndexEntry(song.id, song.title, song.key, IndexLines(song.sections))
  }

  /** The filter keeps no whitespace-only line. */
  lemma {:induction false} NonBlankFilled(rs: seq<string>)
    ensures forall i :: 0 <= i < |NonBlank(rs)| ==> !AllSpace(NonBlank(rs)[i])
  {
    if rs != [] {
      NonBlankFilled(rs[1..]);
      var head := if Trim(rs[0]) != "" then [rs[0]] else [];
      var tail := NonBlank(rs[1..]);
      assert NonBlank(rs) == head + tail;
      forall i | 0 <= i < |head + tail| ensures !AllSpace((head + tail)[i]) {
        if i >= |head| {
          assert (head + tail)[i] == tail[i - |head|];
        }
      }
    }
  }

  /** No index line is whitespace only. */
  lemma {:induction false} IndexLinesFilled(secs: seq<Section>)
    ensures forall i :: 0 <= i < |IndexLines(secs)| ==> !AllSpace(IndexLines(secs)[i])
  {
    if secs != [] {
      IndexLinesFilled(secs[1..]);
      var head := NonBlank(Raws(secs[0].lines));
      var tail := IndexLines(secs[1..]);
      NonBlankFilled(Raws(secs[0].lines));
      assert IndexLines(secs) == head + tail;
      forall i | 0 <= i < |head + tail| ensures !AllSpace((head + tail)[i]) {
        if i >= |head| {
          assert (head + tail)[i] == tail[i - |head|];
        }
      }
    }
  }

  /** The source lines that are neither directives nor whitespace only, in order. */
  function TextLines(lines: seq<string>): seq<string> {
    if lines == [] then []
    else
      var l := lines[|lines| - 1];
      TextLines(lines[..|lines| - 1]) + (if DirectiveMatch(l).None? && !AllSpace(l) then [l] else [])
  }

  /**
   * The index record of a parsed song copies its id, title and key, and lists exactly the
   * source lines that are neither directives nor whitespace only, in source order.
   */
  lemma IndexOfSong(raw: string, sourcePath: string)
    ensures var song := SongOf(raw, sourcePath, TokensOf);
            var e := IndexEntry(song);
            e.id == song.id == Slugify(e.title) && e.title == song.title && e.key == song.key &&
            e.sections == TextLines(SplitLines(raw))
  {
    var lines := SplitLines(raw);
    var ks := Kinds(lines, TokensOf);
    var song := SongOf(raw, sourcePath, TokensOf);
    IndexAllLines(song.sections);
    SectionsCoverLines(ks, sourcePath);
    BodyText(lines, TokensOf);
  }

  /** Each section's lines filtered in turn are all lines filtered at once. */
  lemma {:induction false} IndexAllLines(secs: seq<Section>)
    ensures IndexLines(secs) == NonBlank(Raws(AllLines(secs)))
  {
    if secs != [] {
      IndexAllLines(secs[1..]);
      RawsAppend(secs[0].lines, AllLines(secs[1..]));
      NonBlankAppend(Raws(secs[0].lines), Raws(AllLines(secs[1..])));
    }
  }

  /** The raw texts of the lines that are not directives, less the blank ones, are the text lines. */
  lemma {:induction false} BodyText(lines: seq<string>, tokenize: string -> seq<Token>)
    ensures NonBlank(Raws(BodyLines(Kinds(lines, tokenize)))) == TextLines(lines)
  {
    if lines != [] {
      var n := |lines| - 1;
      var ks := Kinds(lines, tokenize);
      var front := Kinds(lines[..n], tokenize);
      assert ks[..n] == front;
      BodyText(lines[..n], tokenize);
      var l := lines[n];
      var last := match ks[n] case Content(x) => [x] case Meta(_, _) => [];
      assert BodyLines(ks) == BodyLines(front) + last;
      RawsAppend(BodyLines(front), last);
      NonBlankAppend(Raws(BodyLines(front)), Raws(last));
      LastText(l, tokenize, last);
    }
  }

  /** The contribution of one source line. */
  lemma LastText(l: string, tokenize: string -> seq<Token>, last: seq<Line>)
    requires last == match Classify(l, tokenize) case Content(x) => [x] case Meta(_, _) => []
    ensures NonBlank(Raws(last)) == if DirectiveMatch(l).None? && !AllSpace(l) then [l] else []
  {
    if last != [] {
      assert Raws(last) == [last[0].raw];
      assert NonBlank([last[0].raw]) == (if Trim(last[0].raw) != "" then [last[0].raw] else []);
    }
  }

  lemma {:induction false} RawsAppend(a: seq<Line>, b: seq<Line>)
    ensures Raws(a + b) == Raws(a) + Raws(b)
  {
    if a == [] {
      assert a + b == b;
    } else {
      assert (a + b)[1..] == a[1..] + b;
      RawsAppend(a[1..], b);
    }
  }

  lemma {:induction false} NonBlankAppend(a: seq<string>, b: seq<string>)
    ensures NonBlank(a + b) == NonBlank(a) + NonBlank(b)
  {
    if a == [] {
      assert a + b == b;
    } else {
      var x := a[0];
      var t := a[1..];
      var ab := a + b;
      var h := if Trim(x) != "" then [x] else [];
      assert ab[0] == x && ab[1..] == t + b;
      assert NonBlank(ab) == h + NonBlank(t + b);
      assert NonBlank(a) == h + NonBlank(t);
      NonBlankAppend(t, b);
    }
  }
}
