/**
 * The library's parser (src/lib/parseChordPro.ts): `parseTokens` cuts a line into
 * chord/lyric tokens, `parseChordPro` folds the lines of a song into its sections.
 *
 * `parseTokens` runs a global `exec` loop with the marker pattern and keeps its own
 * `lastIndex` beside the pattern's: after a marker it takes the text up to the next `[`
 * as the marker's lyric. A `[` that opens no marker therefore ends that lyric and starts
 * a chordless token of its own. `Absorb` states this over the scan of the line.
 */
module ChordPro {
  import opened Text
  import opened SongTypes
  import opened Markers
  import opened ScanFacts
  import opened Chords
  import opened Directives
  import opened Slug
  import opened Seqs

  /**
   * The tokens the loop makes of a scan: a gap becomes a chordless token, except a last
   * gap of whitespace only; a marker takes the text of the following gap up to its first
   * `[`, and the rest of that gap is read again as a gap.
   */
  function Absorb(segs: seq<Segment>): (r: seq<Token>)
    ensures |r| <= |segs| <= 2 * |r| + 1
    decreases |segs|
  {
    if segs == [] then []
    else match segs[0]
      case Gap(g) =>
        if |segs| == 1 && AllSpace(g) then [] else [Token(None, g)] + Absorb(segs[1..])
      case Marker(c) =>
        if |segs| >= 2 && segs[1].Gap? then
          var g := segs[1].text;
          var k := IndexOf(g, '[');
          [Token(Some(Trim(c)), g[..k])] + Absorb(GapOf(g[k..]) + segs[2..])
        else [Token(Some(Trim(c)), "")] + Absorb(segs[1..])
  }

  // What `Absorb` does with the first segments of a list, one lemma per case.

  lemma AbsorbGap(g: string, rest: seq<Segment>)
    ensures Absorb([Gap(g)] + rest)
         == if rest == [] && AllSpace(g) then [] else [Token(None, g)] + Absorb(rest)
  {
    assert ([Gap(g)] + rest)[1..] == rest;
  }

  lemma AbsorbMarkerGap(c: string, g: string, rest: seq<Segment>)
    ensures var k := IndexOf(g, '[');
            Absorb([Marker(c), Gap(g)] + rest) == [Token(Some(Trim(c)), g[..k])] + Absorb(GapOf(g[k..]) + rest)
  {
    var s := [Marker(c), Gap(g)] + rest;
    assert s[0] == Marker(c) && s[1] == Gap(g) && s[2..] == rest;
  }

  lemma AbsorbMarkerAlone(c: string, rest: seq<Segment>)
    requires rest == [] || rest[0].Marker?
    ensures Absorb([Marker(c)] + rest) == [Token(Some(Trim(c)), "")] + Absorb(rest)
  {
    var s := [Marker(c)] + rest;
    assert s[0] == Marker(c) && s[1..] == rest;
  }

  /** `parseTokens(line)`: the absorbed tokens, or the one blank token when there are none. */
  function TokensOf(line: string): (r: seq<Token>)
    ensures r != []
  {
    var a := Absorb(Scan(line, false));
    if a == [] then [BlankToken] else a
  }

  /** The chordless token `if (lyricBefore)` pushes. */
  function Before(t: string): seq<Token> {
    if t == "" then [] else [Token(None, t)]
  }

  // ---------------------------------------------------------------------------
  // The loop against `Absorb`

  /** The tokens so far, followed by the tokens of the line from `from` on, are the tokens of the line. */
  predicate Scanned(line: string, from: nat, tokens: seq<Token>) {
    from <= |line| && tokens + Absorb(Scan(Suffix(line, from), false)) == Absorb(Scan(line, false))
  }

  /** No `[` between the pattern's index `r` and the loop's `l`. */
  predicate NoOpenBetween(line: string, r: nat, l: nat) {
    r <= l <= |line| && forall i :: r <= i < l ==> line[i] != '['
  }

  /** `parseTokens`. */
  method ParseTokens(line: string) returns (tokens: seq<Token>)
    ensures tokens == TokensOf(line)
  {
    tokens := [];
    var lastIndex: nat := 0;
    var regexIndex: nat := 0;
    var m := Exec(line, regexIndex, false);
    while m.Some?
      invariant NoOpenBetween(line, regexIndex, lastIndex)
      invariant Scanned(line, lastIndex, tokens)
      invariant ExecResult(line, regexIndex, m, false)
      decreases |line| - regexIndex
    {
      tokens, lastIndex, regexIndex := Turn(line, tokens, lastIndex, regexIndex, m.value);
      m := Exec(line, regexIndex, false);
    }
    var trailing := line[lastIndex..];
    LoopEnd(line, regexIndex, lastIndex, tokens);
    if trailing != "" && Trim(trailing) != "" {
      tokens := tokens + [Token(None, trailing)];
    }
    if tokens == [] {
      tokens := [BlankToken];
    }
  }

  /**
   * One turn of the loop in `parseTokens`: the lyric before the marker at `p`
   * (if any), then the marker's chord with the text up to the next `[`.
   * Returns the new token list, `lastIndex` and the regex's `lastIndex`.
   */
  method Turn(line: string, tokens: seq<Token>, lastIndex: nat, regexIndex: nat, p: nat)
    returns (tokens': seq<Token>, lastIndex': nat, regexIndex': nat)
    requires NoOpenBetween(line, regexIndex, lastIndex) && Scanned(line, lastIndex, tokens)
    requires regexIndex <= p && FirstOpen(line, regexIndex, p, false)
    ensures p < regexIndex' <= lastIndex' <= |line|
    ensures NoOpenBetween(line, regexIndex', lastIndex') && Scanned(line, lastIndex', tokens')
  {
    var q := CloseOf(line, p);
    CloseInLine(line, p, false);
    var chord := Trim(line[p + 1..q]);
    var lyricBefore := line[lastIndex..p];
    tokens' := tokens;
    if lyricBefore != "" {
      tokens' := tokens' + [Token(None, lyricBefore)];
    }
    ghost var mid := tokens';
    assert mid == tokens + Before(lyricBefore);
    lastIndex' := q + 1;
    regexIndex' := q + 1;
    var remaining := line[lastIndex'..];
    var next := IndexOf(remaining, '[');
    var lyricAfter := remaining[..next];
    tokens' := tokens' + [Token(Some(chord), lyricAfter)];
    lastIndex' := lastIndex' + |lyricAfter|;
    LoopStep(line, regexIndex, lastIndex, tokens, p, q, next, mid, tokens', lastIndex');
  }

  /** One turn of the loop keeps its invariant. */
  lemma LoopStep(line: string, r: nat, l: nat, tokens: seq<Token>, p: nat, q: nat, k: nat,
                  mid: seq<Token>, tokens': seq<Token>, l': nat)
    requires NoOpenBetween(line, r, l) && Scanned(line, l, tokens)
    requires r <= p && FirstOpen(line, r, p, false)
    requires q == CloseOf(line, p) && q < |line| && k == IndexOf(line[q + 1..], '[')
    requires l' == q + 1 + k
    requires mid == tokens + Before(line[l..p])
    requires tokens' == mid + [Token(Some(Trim(line[p + 1..q])), line[q + 1..][..k])]
    ensures Scanned(line, l', tokens') && NoOpenBetween(line, q + 1, l')
  {
    FirstFrom(line, r, l, p);
    StepScanned(line, l, tokens, p, q, k, mid, tokens', l');
    LyricNoOpen(line, q + 1, k, l');
  }

  /** The tokens the turn adds are the ones `Absorb` makes of the line from `l` up to the next `[` after the marker. */
  lemma StepScanned(line: string, l: nat, tokens: seq<Token>, p: nat, q: nat, k: nat,
                    mid: seq<Token>, tokens': seq<Token>, l': nat)
    requires l <= p && FirstOpen(line, l, p, false) && Scanned(line, l, tokens)
    requires q == CloseOf(line, p) && q < |line| && k == IndexOf(line[q + 1..], '[')
    requires l' == q + 1 + k
    requires mid == tokens + Before(line[l..p])
    requires tokens' == mid + [Token(Some(Trim(line[p + 1..q])), line[q + 1..][..k])]
    ensures Scanned(line, l', tokens')
  {
    SuffixDrop(line, l);
    ExecStep(line, l, p, q, k, l');
    SuffixDrop(line, l');
    var u := [Token(Some(Trim(line[p + 1..q])), line[q + 1..][..k])];
    ScannedJoin(tokens, Absorb(Scan(line[l..], false)), Before(line[l..p]), u,
                Absorb(Scan(line[l'..], false)), Absorb(Scan(line, false)));
  }

  lemma ScannedJoin<T>(tokens: seq<T>, a: seq<T>, b: seq<T>, u: seq<T>, rest: seq<T>, whole: seq<T>)
    requires tokens + a == whole && a == b + u + rest
    ensures tokens + b + u + rest == whole
  {
  }

  /** The lyric after a marker holds no `[`. */
  lemma LyricNoOpen(line: string, a: nat, k: nat, e: nat)
    requires a <= |line| && k == IndexOf(line[a..], '[') && e == a + k
    ensures e <= |line| && NoOpenBetween(line, a, e)
  {
    IndexOfFirst(line[a..], '[');
    forall i | a <= i < a + k ensures line[i] != '[' {
      assert line[i] == line[a..][i - a];
    }
  }

  /** `exec` finds no more matches: what is left of the line is its trailing text. */
  lemma LoopEnd(line: string, r: nat, l: nat, tokens: seq<Token>)
    requires NoOpenBetween(line, r, l) && Scanned(line, l, tokens)
    requires OpensNone(line, r, |line|, false)
    ensures Absorb(Scan(line, false))
         == tokens + (if line[l..] != "" && Trim(line[l..]) != "" then [Token(None, line[l..])] else [])
  {
    SuffixDrop(line, l);
    assert OpensNone(line, l, |line|, false);
    ExecNone(line, l, false);
    var t := line[l..];
    if t != "" {
      assert GapOf(t) == [Gap(t)];
      if !AllSpace(t) {
        AbsorbGap(t, []);
        EmptyFront([Gap(t)]);
      }
    }
  }

  /** No `[` between the pattern's index `r` and the loop's `l`: the first match from `r` is the first from `l`. */
  lemma FirstFrom(line: string, r: nat, l: nat, p: nat)
    requires NoOpenBetween(line, r, l) && r <= p && FirstOpen(line, r, p, false)
    ensures l <= p && FirstOpen(line, l, p, false)
  {
    assert line[p..][0] == line[p];
  }

  /** One turn of the loop: the tokens of the rest of the line from `from`, as it builds them. */
  lemma ExecStep(line: string, from: nat, p: nat, q: nat, k: nat, next: nat)
    requires from <= p && FirstOpen(line, from, p, false)
    requires q == CloseOf(line, p) && k == IndexOf(line[q + 1..], '[') && next == q + 1 + k
    ensures q < |line| && next <= |line|
    ensures Absorb(Scan(line[from..], false))
              == Before(line[from..p]) + [Token(Some(Trim(line[p + 1..q])), line[q + 1..][..k])]
                 + Absorb(Scan(line[next..], false))
  {
    var rest := line[q + 1..];
    var g := line[from..p];
    var c := line[p + 1..q];
    ExecFound(line, from, p, q, false);
    DropDrop(line, q + 1, k, next);
    assert rest[k..] == line[next..];
    AfterClose(rest, g, c);
  }

  /** A gap and a marker followed by the scan of `rest`, which the lyric up to the next `[` joins. */
  lemma AfterClose(rest: string, g: string, c: string)
    ensures var k := IndexOf(rest, '[');
            Absorb(GapOf(g) + [Marker(c)] + Scan(rest, false))
              == Before(g) + [Token(Some(Trim(c)), rest[..k])] + Absorb(Scan(rest[k..], false))
  {
    var k := IndexOf(rest, '[');
    ScanToOpen(rest);
    ExecChain(g, c, rest[..k], Scan(rest[k..], false));
  }

  lemma ExecChain(g: string, c: string, u: string, x: seq<Segment>)
    requires NoOpenBracket(u) && StartsAtOpen(x)
    ensures Absorb(GapOf(g) + [Marker(c)] + Prepend(u, x)) == Before(g) + [Token(Some(Trim(c)), u)] + Absorb(x)
  {
    var y := Prepend(u, x);
    var m := [Marker(c)] + y;
    Assoc(GapOf(g), [Marker(c)], y);
    AbsorbGapFirst(g, m);
    AbsorbMarkerPrepend(c, u, x);
  }

  lemma DropDrop<T>(s: seq<T>, a: nat, b: nat, c: nat)
    requires c == a + b <= |s|
    ensures s[a..][b..] == s[c..]
  {
  }

  /** A text without `[`: the lyric after a marker, which runs up to the next `[`. */
  predicate NoOpenBracket(u: string) {
    '[' !in u
  }

  /** Segments that start at a `[`: a marker, or a gap whose `[` opens no marker. */
  predicate StartsAtOpen(x: seq<Segment>) {
    x == [] || x[0].Marker? || (x[0].text != [] && x[0].text[0] == '[')
  }

  /** The scan of a text is the text up to its first `[`, put before the scan from there. */
  lemma ScanToOpen(s: string)
    ensures var k := IndexOf(s, '[');
            Scan(s, false) == Prepend(s[..k], Scan(s[k..], false)) && NoOpenBracket(s[..k]) &&
            StartsAtOpen(Scan(s[k..], false))
  {
    var k := IndexOf(s, '[');
    IndexOfFirst(s, '[');
    forall i | 0 <= i < k ensures !OpensAt(s, i, false) {
      assert s[i..][0] == s[i];
    }
    ScanSkip(s, k, false);
    assert '[' !in s[..k] by {
      forall i | 0 <= i < k ensures s[..k][i] != '[' {
        assert s[..k][i] == s[i];
      }
    }
    if k < |s| {
      ScanHead(s[k..]);
    }
  }

  /** The first segment of a scan starts where the text does. */
  lemma ScanHead(s: string)
    requires s != []
    ensures var x := Scan(s, false);
            x != [] && (x[0].Marker? || (x[0].text != [] && x[0].text[0] == s[0]))
  {
  }

  lemma AbsorbGapFirst(t: string, rest: seq<Segment>)
    requires rest != []
    ensures Absorb(GapOf(t) + rest) == Before(t) + Absorb(rest)
  {
    if t == "" {
      assert GapOf(t) + rest == rest;
    } else {
      assert (GapOf(t) + rest)[1..] == rest;
    }
  }

  /** Text without a `[` put before segments that start at a `[`, as the lyric of a marker before it. */
  lemma AbsorbMarkerPrepend(c: string, u: string, x: seq<Segment>)
    requires '[' !in u && StartsAtOpen(x)
    ensures Absorb([Marker(c)] + Prepend(u, x)) == [Token(Some(Trim(c)), u)] + Absorb(x)
  {
    if x != [] && x[0].Gap? {
      assert x == [Gap(x[0].text)] + x[1..];
      MarkerJoinsGap(c, u, x[0].text, x[1..]);
    } else {
      PrependBeforeMarker(u, x);
      MarkerOwnGap(c, u, x);
    }
  }

  /** The text after the marker joins a gap that starts at a `[`. */
  lemma MarkerJoinsGap(c: string, u: string, g: string, y: seq<Segment>)
    requires '[' !in u && g != [] && g[0] == '['
    ensures Absorb([Marker(c)] + Prepend(u, [Gap(g)] + y)) == [Token(Some(Trim(c)), u)] + Absorb([Gap(g)] + y)
  {
    PrependGap(u, g, y);
    PairFront(Marker(c), Gap(u + g), y);
    AbsorbMarkerGap(c, u + g, y);
    IndexAfter(u, g);
    SplitJoined(u, g);
  }

  /** The first `[` of `u + g` is the first of `g` when `u` has none. */
  lemma IndexAfter(u: string, g: string)
    requires '[' !in u && g != [] && g[0] == '['
    ensures IndexOf(u + g, '[') == |u|
  {
    var h := u + g;
    forall i | 0 <= i < |u| ensures h[i] != '[' {
      assert h[i] == u[i];
    }
    IndexOfIs(h, '[', |u|);
  }

  /** The text after the marker is a gap of its own, or nothing, before a marker or the end. */
  lemma MarkerOwnGap(c: string, u: string, y: seq<Segment>)
    requires '[' !in u
    requires y == [] || y[0].Marker?
    ensures Absorb([Marker(c)] + (GapOf(u) + y)) == [Token(Some(Trim(c)), u)] + Absorb(y)
  {
    EmptyFront(y);
    if u == "" {
      AbsorbMarkerAlone(c, y);
    } else {
      PairFront(Marker(c), Gap(u), y);
      AbsorbMarkerGap(c, u, y);
      IndexNone(u, '[');
      TakeAll(u);
    }
  }

  /** Text put before a gap joins it. */
  lemma {:induction false} PrependGap(u: string, g: string, y: seq<Segment>)
    ensures Prepend(u, [Gap(g)] + y) == [Gap(u + g)] + y
  {
    if u == "" {
      assert u + g == g;
    } else {
      PrependGap(u[1..], g, y);
      assert [u[0]] + (u[1..] + g) == u + g;
      var z := [Gap(u[1..] + g)] + y;
      assert z[0] == Gap(u[1..] + g) && z[1..] == y;
    }
  }

  // ---------------------------------------------------------------------------
  // What the tokens of a line are

  /** A scan has no empty gap and no two gaps in a row. */
  predicate WellFormed(segs: seq<Segment>) {
    NoEmptyGap(segs) && NoAdjacentGaps(segs)
  }

  lemma {:induction false} ScanWellFormed(s: string)
    ensures WellFormed(Scan(s, false))
    decreases |s|
  {
    if s != [] {
      if Opens(s, false) {
        var q := Close(s);
        ScanWellFormed(s[q + 1..]);
        ConsWellFormed(Marker(s[1..q]), Scan(s[q + 1..], false));
      } else {
        ScanWellFormed(s[1..]);
        AddCharWellFormed(s[0], Scan(s[1..], false));
      }
    }
  }

  lemma ConsWellFormed(m: Segment, x: seq<Segment>)
    requires m.Marker? && WellFormed(x)
    ensures WellFormed([m] + x)
  {
    var y := [m] + x;
    assert forall i :: 1 <= i < |y| ==> y[i] == x[i - 1];
  }

  lemma AddCharWellFormed(c: char, x: seq<Segment>)
    requires WellFormed(x)
    ensures WellFormed(AddChar(c, x))
  {
    var y := AddChar(c, x);
    if x != [] && x[0].Gap? {
      assert forall i :: 1 <= i < |y| ==> y[i] == x[i];
    } else {
      assert forall i :: 1 <= i < |y| ==> y[i] == x[i - 1];
    }
  }

  /** The absorbed tokens leave out exactly a line of whitespace only. */
  lemma AbsorbEmpty(segs: seq<Segment>)
    ensures Absorb(segs) == [] <==> segs == [] || (|segs| == 1 && segs[0].Gap? && AllSpace(segs[0].text))
  {
  }

  /** A text without `[` scans as one gap. */
  lemma ScanPlain(s: string)
    requires '[' !in s
    ensures Scan(s, false) == GapOf(s)
  {
    forall i | 0 <= i < |s| ensures !OpensAt(s, i, false) {
      assert s[i..][0] == s[i];
    }
    ScanSkip(s, |s|, false);
    assert s[..|s|] == s && s[|s|..] == [];
    PrependBeforeMarker(s, []);
  }

  /** The tokens of a line are the one blank token exactly when the line is whitespace only. */
  lemma BlankTokens(line: string)
    ensures Absorb(Scan(line, false)) == [] <==> AllSpace(line)
    ensures AllSpace(line) <==> TokensOf(line) == [BlankToken]
  {
    var segs := Scan(line, false);
    ScanCovers(line, false);
    AbsorbEmpty(segs);
    if AllSpace(line) {
      ScanPlain(line);
    } else if |segs| == 1 && segs[0].Gap? {
      assert Flatten(segs) == segs[0].text + Flatten(segs[1..]);
    }
    if TokensOf(line) == [BlankToken] && Absorb(segs) != [] {
      var t := Absorb(segs)[0];
      AbsorbHeadNotBlank(segs);
    }
  }

  /** The first absorbed token of a well-formed scan is never the blank token. */
  lemma AbsorbHeadNotBlank(segs: seq<Segment>)
    requires segs != [] && (segs[0].Gap? ==> segs[0].text != "")
    ensures Absorb(segs) != [BlankToken]
  {
    var rest := segs[1..];
    match segs[0]
    case Gap(g) =>
      assert segs == [Gap(g)] + rest;
      HeadGapNotBlank(g, rest);
    case Marker(c) =>
      if rest != [] && rest[0].Gap? {
        assert segs == [Marker(c), rest[0]] + rest[1..];
        HeadMarkerGapNotBlank(c, rest[0].text, rest[1..]);
      } else {
        assert segs == [Marker(c)] + rest;
        HeadMarkerNotBlank(c, rest);
      }
  }

  lemma HeadGapNotBlank(g: string, rest: seq<Segment>)
    requires g != ""
    ensures Absorb([Gap(g)] + rest) != [BlankToken]
  {
    AbsorbGap(g, rest);
    var a := Absorb([Gap(g)] + rest);
    assert a != [] ==> a[0] == Token(None, g);
  }

  lemma HeadMarkerGapNotBlank(c: string, g: string, rest: seq<Segment>)
    ensures Absorb([Marker(c), Gap(g)] + rest) != [BlankToken]
  {
    AbsorbMarkerGap(c, g, rest);
    assert Absorb([Marker(c), Gap(g)] + rest)[0].chord.Some?;
  }

  lemma HeadMarkerNotBlank(c: string, rest: seq<Segment>)
    requires rest == [] || rest[0].Marker?
    ensures Absorb([Marker(c)] + rest) != [BlankToken]
  {
    AbsorbMarkerAlone(c, rest);
    assert Absorb([Marker(c)] + rest)[0].chord.Some?;
  }

  /** The lyrics of the absorbed tokens are the scanned text with its markers deleted. */
  lemma {:induction false} AbsorbLyrics(segs: seq<Segment>)
    requires NoAdjacentGaps(segs)
    ensures Lyrics(Absorb(segs))
         == if |segs| == 1 && segs[0].Gap? && AllSpace(segs[0].text) then "" else StripMarkers(segs)
    decreases |segs|, 1
  {
    if segs == [] {
    } else if segs[0].Gap? {
      AbsorbLyricsGap(segs);
    } else if |segs| >= 2 && segs[1].Gap? {
      AbsorbLyricsMarkerGap(segs);
    } else {
      AbsorbLyricsMarker(segs);
    }
  }

  lemma {:induction false} AbsorbLyricsGap(segs: seq<Segment>)
    requires NoAdjacentGaps(segs) && segs != [] && segs[0].Gap?
    ensures Lyrics(Absorb(segs)) == if |segs| == 1 && AllSpace(segs[0].text) then "" else StripMarkers(segs)
    decreases |segs|, 0
  {
    AdjacentTail(segs);
    AbsorbLyrics(segs[1..]);
    LyricsGap(segs);
  }

  lemma {:induction false} AbsorbLyricsMarker(segs: seq<Segment>)
    requires NoAdjacentGaps(segs) && segs != [] && segs[0].Marker? && (|segs| == 1 || segs[1].Marker?)
    ensures Lyrics(Absorb(segs)) == StripMarkers(segs)
    decreases |segs|, 0
  {
    AdjacentTail(segs);
    AbsorbLyrics(segs[1..]);
    LyricsMarkerAlone(segs);
  }

  lemma {:induction false} AbsorbLyricsMarkerGap(segs: seq<Segment>)
    requires NoAdjacentGaps(segs) && |segs| >= 2 && segs[0].Marker? && segs[1].Gap?
    ensures Lyrics(Absorb(segs)) == StripMarkers(segs)
    decreases |segs|, 0
  {
    var g := segs[1].text;
    var tail := segs[2..];
    var next := GapOf(g[IndexOf(g, '[')..]) + tail;
    AdjacentTail(segs);
    AdjacentTail(segs[1..]);
    assert segs[1..][1..] == tail;
    GapOfFront(g[IndexOf(g, '[')..], tail);
    MarkerGapNotBlank(g, tail);
    AbsorbLyrics(next);
    LyricsMarkerGap(segs, next);
  }

  /** The gap case of `AbsorbLyrics`, given what it states of the rest. */
  lemma LyricsGap(segs: seq<Segment>)
    requires segs != [] && segs[0].Gap? && (|segs| == 1 || segs[1].Marker?)
    requires Lyrics(Absorb(segs[1..])) == StripMarkers(segs[1..])
    ensures Lyrics(Absorb(segs)) == if |segs| == 1 && AllSpace(segs[0].text) then "" else StripMarkers(segs)
  {
    var g := segs[0].text;
    var rest := segs[1..];
    assert segs == [Gap(g)] + rest;
    AbsorbGap(g, rest);
    StripCons(Gap(g), rest);
    LyricsCons(Token(None, g), Absorb(rest));
  }

  /** The case of `AbsorbLyrics` for a marker with no gap after it. */
  lemma LyricsMarkerAlone(segs: seq<Segment>)
    requires segs != [] && segs[0].Marker? && (|segs| == 1 || segs[1].Marker?)
    requires Lyrics(Absorb(segs[1..])) == StripMarkers(segs[1..])
    ensures Lyrics(Absorb(segs)) == StripMarkers(segs)
  {
    var c := segs[0].content;
    var rest := segs[1..];
    assert segs == [Marker(c)] + rest;
    AbsorbMarkerAlone(c, rest);
    StripCons(Marker(c), rest);
    LyricsCons(Token(Some(Trim(c)), ""), Absorb(rest));
  }

  /** The marker-and-gap case of `AbsorbLyrics`, given what it states of what is read next. */
  lemma LyricsMarkerGap(segs: seq<Segment>, next: seq<Segment>)
    requires |segs| >= 2 && segs[0].Marker? && segs[1].Gap?
    requires next == GapOf(segs[1].text[IndexOf(segs[1].text, '[')..]) + segs[2..]
    requires Lyrics(Absorb(next)) == StripMarkers(next)
    ensures Lyrics(Absorb(segs)) == StripMarkers(segs)
  {
    var c := segs[0].content;
    var g := segs[1].text;
    var tail := segs[2..];
    assert segs == [Marker(c), Gap(g)] + tail;
    LyricsMarkerGapAt(c, g, tail, next);
  }

  lemma LyricsMarkerGapAt(c: string, g: string, tail: seq<Segment>, next: seq<Segment>)
    requires next == GapOf(g[IndexOf(g, '[')..]) + tail
    requires Lyrics(Absorb(next)) == StripMarkers(next)
    ensures Lyrics(Absorb([Marker(c), Gap(g)] + tail)) == StripMarkers([Marker(c), Gap(g)] + tail)
  {
    var k := IndexOf(g, '[');
    var y := [Gap(g)] + tail;
    var x := [Marker(c)] + y;
    assert x == [Marker(c), Gap(g)] + tail;
    StripCons(Marker(c), y);
    MarkerGapSplit(g, tail);
    assert StripMarkers(x) == g[..k] + StripMarkers(next);
    AbsorbMarkerGap(c, g, tail);
    LyricsCons(Token(Some(Trim(c)), g[..k]), Absorb(next));
    assert Lyrics(Absorb(x)) == g[..k] + Lyrics(Absorb(next));
  }

  /**
   * The gap after a marker: its text up to the first `[` goes to the marker's token,
   * and the rest is read again as a gap in front of `tail`.
   */
  lemma MarkerGapSplit(g: string, tail: seq<Segment>)
    ensures var k := IndexOf(g, '[');
            var next := GapOf(g[k..]) + tail;
            '[' !in g[..k] &&
            StripMarkers([Gap(g)] + tail) == g[..k] + StripMarkers(next) &&
            MarkerContents(next) == MarkerContents(tail)
  {
    var k := IndexOf(g, '[');
    IndexOfSplit(g, '[');
    GapSplit(g, g[..k], g[k..], tail);
  }

  lemma GapSplit(g: string, a: string, b: string, tail: seq<Segment>)
    requires a + b == g
    ensures StripMarkers([Gap(g)] + tail) == a + StripMarkers(GapOf(b) + tail)
    ensures MarkerContents(GapOf(b) + tail) == MarkerContents(tail)
  {
    StripCons(Gap(g), tail);
    StripGapOfCons(b, tail);
    var x := StripMarkers(tail);
    assert g + x == a + (b + x);
  }

  lemma StripGapOfCons(t: string, tail: seq<Segment>)
    ensures StripMarkers(GapOf(t) + tail) == t + StripMarkers(tail)
    ensures MarkerContents(GapOf(t) + tail) == MarkerContents(tail)
  {
    if t == "" {
      assert GapOf(t) + tail == tail;
    } else {
      StripCons(Gap(t), tail);
    }
  }

  /** What is read again after a marker's lyric is not a last gap of whitespace only. */
  lemma MarkerGapNotBlank(g: string, tail: seq<Segment>)
    requires tail == [] || tail[0].Marker?
    ensures var next := GapOf(g[IndexOf(g, '[')..]) + tail;
            !(|next| == 1 && next[0].Gap? && AllSpace(next[0].text))
  {
    var k := IndexOf(g, '[');
    IndexOfFirst(g, '[');
    if k < |g| {
      assert g[k..][0] == '[';
    }
  }

  /** Reading the rest of the gap again makes no empty gap. */
  lemma MarkerGapNoEmpty(g: string, tail: seq<Segment>)
    requires NoEmptyGap(tail)
    ensures NoEmptyGap(GapOf(g[IndexOf(g, '[')..]) + tail)
  {
    var h := GapOf(g[IndexOf(g, '[')..]);
    var next := h + tail;
    forall i | 0 <= i < |next| && next[i].Gap? ensures next[i].text != "" {
      if i >= |h| {
        assert next[i] == tail[i - |h|];
      }
    }
  }

  /** No two gaps in a row. */
  predicate NoAdjacentGaps(segs: seq<Segment>) {
    forall i :: 0 <= i < |segs| - 1 ==> !(segs[i].Gap? && segs[i + 1].Gap?)
  }

  lemma AdjacentTail(segs: seq<Segment>)
    requires segs != [] && NoAdjacentGaps(segs)
    ensures NoAdjacentGaps(segs[1..])
    ensures segs[0].Gap? && |segs| > 1 ==> segs[1].Marker?
  {
    assert forall i :: 0 <= i < |segs| - 1 ==> segs[1..][i] == segs[i + 1];
  }

  /** A gap put before a list that does not start with a gap keeps gaps apart. */
  lemma GapOfFront(t: string, tail: seq<Segment>)
    requires NoAdjacentGaps(tail) && (tail == [] || tail[0].Marker?)
    ensures NoAdjacentGaps(GapOf(t) + tail)
  {
    var r := GapOf(t) + tail;
    if t != "" {
      assert forall i :: 1 <= i < |r| ==> r[i] == tail[i - 1];
    } else {
      assert r == tail;
    }
  }

  lemma StripCons(g: Segment, rest: seq<Segment>)
    ensures StripMarkers([g] + rest) == (if g.Gap? then g.text else "") + StripMarkers(rest)
    ensures MarkerContents([g] + rest) == (if g.Marker? then [g.content] else []) + MarkerContents(rest)
  {
    assert ([g] + rest)[1..] == rest;
  }

  lemma StripGapOf(t: string)
    ensures StripMarkers(GapOf(t)) == t && MarkerContents(GapOf(t)) == []
  {
    if t != "" {
      StripCons(Gap(t), []);
      assert [Gap(t)] + [] == [Gap(t)];
    }
  }

  /**
   * The lyrics of a line's tokens are the line with its chord markers deleted; a line of
   * whitespace only gives the empty lyric.
   */
  lemma TokensLyrics(line: string)
    ensures Lyrics(TokensOf(line)) == if AllSpace(line) then "" else StripMarkers(Scan(line, false))
  {
    var segs := Scan(line, false);
    BlankTokens(line);
    ScanWellFormed(line);
    if AllSpace(line) {
      LyricsCons(BlankToken, []);
      assert [BlankToken] + [] == [BlankToken];
    } else {
      AbsorbEmpty(segs);
      AbsorbLyrics(segs);
    }
  }

  /** A token with a chord has a trimmed chord and a lyric without `[`; a chordless one has a lyric. */
  predicate TokenShape(t: Token) {
    if t.chord.Some? then Trimmed(t.chord.value) && '[' !in t.lyric else t.lyric != ""
  }

  predicate AllShaped(ts: seq<Token>) {
    forall i :: 0 <= i < |ts| ==> TokenShape(ts[i])
  }

  lemma ShapedCons(t: Token, ts: seq<Token>)
    requires TokenShape(t) && AllShaped(ts)
    ensures AllShaped([t] + ts)
  {
    assert forall i :: 1 <= i < |[t] + ts| ==> ([t] + ts)[i] == ts[i - 1];
  }

  /** No gap of the list is empty. */
  predicate NoEmptyGap(segs: seq<Segment>) {
    forall i :: 0 <= i < |segs| && segs[i].Gap? ==> segs[i].text != ""
  }

  lemma {:induction false} AbsorbShape(segs: seq<Segment>)
    requires NoEmptyGap(segs)
    ensures AllShaped(Absorb(segs))
    decreases |segs|
  {
    if segs != [] {
      var rest := segs[1..];
      assert segs == [segs[0]] + rest;
      assert NoEmptyGap(rest) by {
        assert forall i :: 0 <= i < |rest| ==> rest[i] == segs[i + 1];
      }
      match segs[0]
      case Gap(g) =>
        AbsorbGap(g, rest);
        if !(rest == [] && AllSpace(g)) {
          AbsorbShape(rest);
          ShapedCons(Token(None, g), Absorb(rest));
        }
      case Marker(c) =>
        if rest != [] && rest[0].Gap? {
          var g := rest[0].text;
          var tail := rest[1..];
          assert segs == [Marker(c), Gap(g)] + tail;
          AbsorbMarkerGap(c, g, tail);
          var k := IndexOf(g, '[');
          var next := GapOf(g[k..]) + tail;
          assert NoEmptyGap(tail) by {
            assert forall i :: 0 <= i < |tail| ==> tail[i] == rest[i + 1];
          }
          MarkerGapSplit(g, tail);
          MarkerGapNoEmpty(g, tail);
          AbsorbShape(next);
          ShapedCons(Token(Some(Trim(c)), g[..k]), Absorb(next));
        } else {
          AbsorbMarkerAlone(c, rest);
          AbsorbShape(rest);
          ShapedCons(Token(Some(Trim(c)), ""), Absorb(rest));
        }
    }
  }

  /**
   * Unless the line is whitespace only, every token of it has either a trimmed chord and a
   * lyric running at most to the next `[`, or no chord and a non-empty lyric.
   */
  lemma TokensShape(line: string)
    ensures !AllSpace(line) ==> AllShaped(TokensOf(line))
  {
    BlankTokens(line);
    ScanWellFormed(line);
    AbsorbShape(Scan(line, false));
  }

  /** Every marker content, trimmed. */
  function TrimAll(cs: seq<string>): (r: seq<string>)
    ensures |r| == |cs|
  {
    if cs == [] then [] else [Trim(cs[0])] + TrimAll(cs[1..])
  }

  lemma TrimAllCons(c: string, cs: seq<string>)
    ensures TrimAll([c] + cs) == [Trim(c)] + TrimAll(cs)
  {
    assert ([c] + cs)[1..] == cs;
  }

  lemma {:induction false} AbsorbSlots(segs: seq<Segment>)
    ensures ChordSlots(Absorb(segs)) == TrimAll(MarkerContents(segs))
    decreases |segs|
  {
    if segs != [] {
      var rest := segs[1..];
      assert segs == [segs[0]] + rest;
      match segs[0]
      case Gap(g) =>
        AbsorbSlots(rest);
        SlotsGap(g, rest);
      case Marker(c) =>
        if rest != [] && rest[0].Gap? {
          var g := rest[0].text;
          var tail := rest[1..];
          assert rest == [Gap(g)] + tail;
          AbsorbSlots(GapOf(g[IndexOf(g, '[')..]) + tail);
          SlotsMarkerGap(c, g, tail);
          assert segs == [Marker(c), Gap(g)] + tail;
        } else {
          AbsorbSlots(rest);
          SlotsMarkerAlone(c, rest);
        }
    }
  }

  /** The gap case of `AbsorbSlots`, given what it states of the rest. */
  lemma SlotsGap(g: string, rest: seq<Segment>)
    requires ChordSlots(Absorb(rest)) == TrimAll(MarkerContents(rest))
    ensures ChordSlots(Absorb([Gap(g)] + rest)) == TrimAll(MarkerContents([Gap(g)] + rest))
  {
    AbsorbGap(g, rest);
    StripCons(Gap(g), rest);
    if rest == [] && AllSpace(g) {
      assert MarkerContents([Gap(g)] + rest) == [];
    } else {
      var a := Absorb(rest);
      ChordSlotsCons(Token(None, g), a);
      assert ChordSlots([Token(None, g)] + a) == ChordSlots(a);
      assert MarkerContents([Gap(g)] + rest) == MarkerContents(rest);
    }
  }

  /** The case of `AbsorbSlots` for a marker with no gap after it. */
  lemma SlotsMarkerAlone(c: string, rest: seq<Segment>)
    requires rest == [] || rest[0].Marker?
    requires ChordSlots(Absorb(rest)) == TrimAll(MarkerContents(rest))
    ensures ChordSlots(Absorb([Marker(c)] + rest)) == TrimAll(MarkerContents([Marker(c)] + rest))
  {
    AbsorbMarkerAlone(c, rest);
    StripCons(Marker(c), rest);
    ChordSlotsCons(Token(Some(Trim(c)), ""), Absorb(rest));
    TrimAllCons(c, MarkerContents(rest));
  }

  /** The marker-and-gap case of `AbsorbSlots`, given what it states of the rest. */
  lemma SlotsMarkerGap(c: string, g: string, tail: seq<Segment>)
    requires var next := GapOf(g[IndexOf(g, '[')..]) + tail;
             ChordSlots(Absorb(next)) == TrimAll(MarkerContents(next))
    ensures ChordSlots(Absorb([Marker(c), Gap(g)] + tail)) == TrimAll(MarkerContents([Marker(c), Gap(g)] + tail))
  {
    var k := IndexOf(g, '[');
    var segs := [Marker(c), Gap(g)] + tail;
    AbsorbMarkerGap(c, g, tail);
    MarkerGapSplit(g, tail);
    ContentsMarkerGap(c, g, tail);
    SlotsAfterMarker(c, g[..k], Absorb(segs), Absorb(GapOf(g[k..]) + tail),
                     MarkerContents(segs), MarkerContents(tail));
  }

  lemma ContentsMarkerGap(c: string, g: string, tail: seq<Segment>)
    ensures MarkerContents([Marker(c), Gap(g)] + tail) == [c] + MarkerContents(tail)
  {
    assert [Marker(c), Gap(g)] + tail == [Marker(c)] + ([Gap(g)] + tail);
    StripCons(Marker(c), [Gap(g)] + tail);
    StripCons(Gap(g), tail);
  }

  lemma SlotsAfterMarker(c: string, lyric: string, whole: seq<Token>, after: seq<Token>,
                         contents: seq<string>, later: seq<string>)
    requires whole == [Token(Some(Trim(c)), lyric)] + after
    requires contents == [c] + later
    requires ChordSlots(after) == TrimAll(later)
    ensures ChordSlots(whole) == TrimAll(contents)
  {
    ChordSlotsCons(Token(Some(Trim(c)), lyric), after);
    TrimAllCons(c, later);
  }

  /** The chord fields of a line's tokens are its marker contents, trimmed, in order. */
  lemma TokensSlots(line: string)
    ensures ChordSlots(TokensOf(line)) == TrimAll(MarkerContents(Scan(line, false)))
  {
    var segs := Scan(line, false);
    AbsorbSlots(segs);
    if Absorb(segs) == [] {
      AbsorbEmpty(segs);
      ChordSlotsCons(BlankToken, []);
      if segs != [] {
        assert segs == [segs[0]] + [];
        StripCons(segs[0], []);
      }
    }
  }

  // ---------------------------------------------------------------------------
  // Transposing the source and tokenizing again

  /** No marker content starts with whitespace or holds a line terminator. */
  predicate PlainChords(segs: seq<Segment>) {
    forall i :: 0 <= i < |segs| && segs[i].Marker? ==>
      NoLineTerminator(segs[i].content) && (segs[i].content == [] || !IsSpace(segs[i].content[0]))
  }

  /**
   * Transposing the markers of a line and tokenizing the result gives the line's tokens
   * with their chords transposed, provided no marker holds a `[`, starts with whitespace
   * or holds a line terminator.
   */
  lemma TokensTranspose(line: string, steps: int)
    requires NoNestedOpen(Scan(line, false)) && PlainChords(Scan(line, false))
    ensures TokensOf(TransposeMarkers(line, steps)) == TransposeTokens(TokensOf(line), steps)
  {
    var segs := Scan(line, false);
    TransposeMarkersRescan(line, steps);
    var f := c => TransposeChord(c, steps);
    forall i | 0 <= i < |segs| && segs[i].Marker?
      ensures Trim(f(segs[i].content)) == TransposeChord(Trim(segs[i].content), steps)
    {
      TrimTranspose(segs[i].content, steps);
    }
    AbsorbRelabel(segs, f, steps);
    if Absorb(segs) == [] {
      assert TransposeTokens([BlankToken], steps)[0] == BlankToken;
    }
  }

  lemma TransposeTokensCons(t: Token, b: seq<Token>, steps: int)
    ensures TransposeTokens([t] + b, steps) == [TransposeToken(t, steps)] + TransposeTokens(b, steps)
  {
    var x := [t] + b;
    TransposeTokensFirst(x, steps);
    assert x[0] == t && x[1..] == b;
  }

  /** Every marker's content, rewritten by `f` and trimmed, is its trimmed content transposed. */
  predicate TrimsAgree(segs: seq<Segment>, f: string -> string, steps: int) {
    forall i :: 0 <= i < |segs| && segs[i].Marker? ==>
      Trim(f(segs[i].content)) == TransposeChord(Trim(segs[i].content), steps)
  }

  /** Rewriting the markers by `f` and absorbing is absorbing and transposing the tokens. */
  lemma {:induction false} AbsorbRelabel(segs: seq<Segment>, f: string -> string, steps: int)
    requires TrimsAgree(segs, f, steps)
    ensures Absorb(Relabel(segs, f)) == TransposeTokens(Absorb(segs), steps)
    decreases |segs|, 1
  {
    if segs != [] {
      var tail := segs[1..];
      AgreeDrop(segs, f, steps, 1);
      match segs[0]
      case Gap(g) =>
        AbsorbRelabel(tail, f, steps);
        RelabelGapStep(segs, g, tail, f, steps);
      case Marker(c) =>
        if |segs| >= 2 && segs[1].Gap? {
          var g := segs[1].text;
          var after := segs[2..];
          assert segs == [Marker(c), Gap(g)] + after;
          AbsorbRelabelMarkerGap(c, g, after, f, steps);
        } else {
          AbsorbRelabel(tail, f, steps);
          RelabelMarkerAloneStep(segs, c, tail, f, steps);
        }
    }
  }

  /** `AbsorbRelabel` on a marker followed by a gap. */
  lemma {:induction false} AbsorbRelabelMarkerGap(c: string, g: string, after: seq<Segment>, f: string -> string, steps: int)
    requires TrimsAgree([Marker(c), Gap(g)] + after, f, steps)
    ensures var segs := [Marker(c), Gap(g)] + after;
            Absorb(Relabel(segs, f)) == TransposeTokens(Absorb(segs), steps)
    decreases |after| + 2, 0
  {
    var segs := [Marker(c), Gap(g)] + after;
    var k := IndexOf(g, '[');
    var rest := GapOf(g[k..]) + after;
    assert segs[0] == Marker(c) && segs[2..] == after;
    AgreeDrop(segs, f, steps, 2);
    AgreeGapFront(g[k..], after, f, steps);
    AbsorbRelabel(rest, f, steps);
    RelabelMarkerGapAt(c, g, after, f, steps);
  }

  lemma AgreeDrop(segs: seq<Segment>, f: string -> string, steps: int, n: nat)
    requires TrimsAgree(segs, f, steps) && n <= |segs|
    ensures TrimsAgree(segs[n..], f, steps)
  {
    forall i | 0 <= i < |segs[n..]| && segs[n..][i].Marker?
      ensures Trim(f(segs[n..][i].content)) == TransposeChord(Trim(segs[n..][i].content), steps)
    {
      assert segs[n..][i] == segs[i + n];
    }
  }

  lemma AgreeGapFront(t: string, after: seq<Segment>, f: string -> string, steps: int)
    requires TrimsAgree(after, f, steps)
    ensures TrimsAgree(GapOf(t) + after, f, steps)
  {
    if t == "" {
      assert GapOf(t) + after == after;
    } else {
      assert GapOf(t) == [Gap(t)];
      AgreeGapCons(t, after, f, steps);
    }
  }

  lemma AgreeGapCons(t: string, after: seq<Segment>, f: string -> string, steps: int)
    requires TrimsAgree(after, f, steps)
    ensures TrimsAgree([Gap(t)] + after, f, steps)
  {
    var x := [Gap(t)] + after;
    forall i | 0 <= i < |x| && x[i].Marker?
      ensures Trim(f(x[i].content)) == TransposeChord(Trim(x[i].content), steps)
    {
      assert x[i] == after[i - 1];
    }
  }

  /** `AbsorbRelabel` at a leading gap, given what it states of the rest. */
  lemma RelabelGapStep(segs: seq<Segment>, g: string, tail: seq<Segment>, f: string -> string, steps: int)
    requires segs != [] && segs[0] == Gap(g) && tail == segs[1..]
    requires Absorb(Relabel(tail, f)) == TransposeTokens(Absorb(tail), steps)
    ensures Absorb(Relabel(segs, f)) == TransposeTokens(Absorb(segs), steps)
  {
    assert segs == [Gap(g)] + tail;
    RelabelGap(g, tail, f);
    AbsorbGap(g, tail);
    AbsorbGap(g, Relabel(tail, f));
    TransposeTokensCons(Token(None, g), Absorb(tail), steps);
  }

  lemma RelabelGap(g: string, tail: seq<Segment>, f: string -> string)
    ensures Relabel([Gap(g)] + tail, f) == [Gap(g)] + Relabel(tail, f)
  {
    assert ([Gap(g)] + tail)[1..] == tail;
  }

  /** `AbsorbRelabel` at a marker not followed by a gap, given what it states of the rest. */
  lemma RelabelMarkerAloneStep(segs: seq<Segment>, c: string, tail: seq<Segment>, f: string -> string, steps: int)
    requires segs != [] && segs[0] == Marker(c) && tail == segs[1..] && (tail == [] || tail[0].Marker?)
    requires Trim(f(c)) == TransposeChord(Trim(c), steps)
    requires Absorb(Relabel(tail, f)) == TransposeTokens(Absorb(tail), steps)
    ensures Absorb(Relabel(segs, f)) == TransposeTokens(Absorb(segs), steps)
  {
    assert segs == [Marker(c)] + tail;
    RelabelMarker(c, tail, f);
    RelabelKeepsMarker(tail, f);
    AbsorbMarkerAlone(c, tail);
    AbsorbMarkerAlone(f(c), Relabel(tail, f));
    TransposeTokensCons(Token(Some(Trim(c)), ""), Absorb(tail), steps);
  }

  lemma RelabelKeepsMarker(tail: seq<Segment>, f: string -> string)
    requires tail == [] || tail[0].Marker?
    ensures Relabel(tail, f) == [] || Relabel(tail, f)[0].Marker?
  {
  }

  /** `AbsorbRelabel` at a marker followed by a gap, given what it states of what the marker leaves of the gap and the rest. */
  lemma RelabelMarkerGapAt(c: string, g: string, after: seq<Segment>, f: string -> string, steps: int)
    requires Trim(f(c)) == TransposeChord(Trim(c), steps)
    requires var rest := GapOf(g[IndexOf(g, '[')..]) + after;
             Absorb(Relabel(rest, f)) == TransposeTokens(Absorb(rest), steps)
    ensures var segs := [Marker(c), Gap(g)] + after;
            Absorb(Relabel(segs, f)) == TransposeTokens(Absorb(segs), steps)
  {
    var k := IndexOf(g, '[');
    var rest := GapOf(g[k..]) + after;
    var t := Token(Some(Trim(c)), g[..k]);
    RelabelMarkerGap(c, g, after, f);
    AbsorbMarkerGap(f(c), g, Relabel(after, f));
    RelabelAppend(GapOf(g[k..]), after, f);
    RelabelGapOf(g[k..], f);
    assert Relabel(rest, f) == GapOf(g[k..]) + Relabel(after, f);
    assert Absorb(Relabel([Marker(c), Gap(g)] + after, f)) == [Token(Some(Trim(f(c))), g[..k])] + TransposeTokens(Absorb(rest), steps);
    AbsorbMarkerGap(c, g, after);
    TransposeTokensCons(t, Absorb(rest), steps);
  }

  lemma RelabelMarkerGap(c: string, g: string, after: seq<Segment>, f: string -> string)
    ensures Relabel([Marker(c), Gap(g)] + after, f) == [Marker(f(c)), Gap(g)] + Relabel(after, f)
  {
    var s := [Marker(c), Gap(g)] + after;
    assert s[1..] == [Gap(g)] + after;
    RelabelGap(g, after, f);
  }

  lemma RelabelGapOf(t: string, f: string -> string)
    ensures Relabel(GapOf(t), f) == GapOf(t)
  {
  }

  /**
   * Trimming commutes with transposing a chord that does not start with whitespace and
   * holds no line terminator: the transposed root never ends in whitespace.
   */
  lemma TrimTranspose(c: string, steps: int)
    requires NoLineTerminator(c) && (c == [] || !IsSpace(c[0]))
    ensures Trim(TransposeChord(c, steps)) == TransposeChord(Trim(c), steps)
  {
    TrimNoLead(c);
    if steps != 0 {
      match SplitChord(c)
      case None =>
        TrimUnsplit(c);
      case Some((root, suffix)) =>
        TrimSplit(c, root, suffix);
        RenderShape(root, steps);
        TrimAfterWord(Render(TransposeRoot(root, steps)), suffix);
    }
  }

  /** Trimming text that starts and ends with a non-space word before `b` trims only the end of `b`. */
  lemma TrimAfterWord(a: string, b: string)
    requires a != [] && !IsSpace(a[0]) && !IsSpace(a[|a| - 1])
    ensures Trim(a + b) == a + TrimEnd(b)
  {
    TrimNoLead(a + b);
    TrimEndAfter(a, b);
  }

  /** Trimming the end of a chord the root pattern does not match leaves it unmatched. */
  lemma TrimUnsplit(c: string)
    requires NoLineTerminator(c) && SplitChord(c).None?
    ensures SplitChord(TrimEnd(c)).None?
  {
    var t := TrimEnd(c);
    TrimEndShape(c);
    if c != [] {
      assert NoLineTerminator(c[1..]) by {
        forall i | 0 <= i < |c[1..]| ensures !IsLineTerminator(c[1..][i]) {
          assert c[1..][i] == c[i + 1];
        }
      }
      if t != [] {
        assert t[0] == c[0];
      }
    }
  }

  /** Trimming the end of a matched chord trims the end of its suffix and keeps its root. */
  lemma TrimSplit(c: string, root: string, suffix: string)
    requires NoLineTerminator(c) && SplitChord(c) == Some((root, suffix))
    ensures SplitChord(TrimEnd(c)) == Some((root, TrimEnd(suffix)))
  {
    var t := TrimEnd(c);
    var ts := TrimEnd(suffix);
    TrimEndShape(suffix);
    TrimEndAfter(root, suffix);
    KeepPrefix(c, root, suffix, ts, t);
    SplitChordIs(t, root, ts);
  }

  /** Cutting the suffix of a root-and-suffix text gives a prefix with the same root and no line terminator. */
  lemma KeepPrefix(c: string, root: string, suffix: string, ts: string, t: string)
    requires c == root + suffix && |root| >= 1 && NoLineTerminator(c)
    requires |ts| <= |suffix| && ts == suffix[..|ts|] && t == root + ts
    ensures t == c[..|t|] && NoLineTerminator(t[1..])
  {
    assert forall i :: 0 <= i < |ts| ==> ts[i] == suffix[i];
    forall i | 0 <= i < |t[1..]| ensures !IsLineTerminator(t[1..][i]) {
      assert t[1..][i] == c[i + 1];
    }
  }

  /** A text made of a root of the right length and a suffix is matched as that root and suffix. */
  lemma SplitChordIs(t: string, root: string, rest: string)
    requires t == root + rest && root != [] && 'A' <= root[0] <= 'G' && NoLineTerminator(t[1..])
    requires |root| <= 2 && (|root| == 2 ==> IsAccidental(root[1]))
    requires |root| == 1 && |t| >= 2 ==> !IsAccidental(t[1])
    ensures SplitChord(t) == Some((root, rest))
  {
    assert t[0] == root[0];
    assert |root| == 2 ==> t[1] == root[1];
    assert t[..|root|] == root && t[|root|..] == rest;
  }

  /** A rendered root is non-empty and starts and ends with a letter or a sign. */
  lemma RenderShape(root: string, steps: int)
    requires root != [] && 'A' <= root[0] <= 'G'
    requires |root| <= 2 && (|root| == 2 ==> IsAccidental(root[1]))
    ensures var r := Render(TransposeRoot(root, steps));
            r != [] && !IsSpace(r[0]) && !IsSpace(r[|r| - 1])
  {
    var index := NoteIndex(NormalizeRoot(root));
    var t := TransposeRoot(root, steps);
    if index == -1 {
      assert t == Some(root);
    } else {
      var shifted := JsRem12(index + steps + 12);
      RootOutcome(root, steps, index, shifted);
      if shifted >= 0 {
        NoteShape(shifted);
      }
    }
  }

  /** Where a root in the table goes, given its index and the shifted index. */
  lemma RootOutcome(root: string, steps: int, index: int, shifted: int)
    requires index == NoteIndex(NormalizeRoot(root)) && index != -1
    requires shifted == JsRem12(index + steps + 12)
    ensures TransposeRoot(root, steps) == if shifted >= 0 then Some(NoteSequence[shifted]) else None
  {
  }

  /** Without leading whitespace, trimming only trims the end. */
  lemma TrimNoLead(s: string)
    requires s == [] || !IsSpace(s[0])
    ensures Trim(s) == TrimEnd(s)
  {
  }

  /** Trailing whitespace after text that ends in something else is all that the end trim drops. */
  lemma {:induction false} TrimEndAfter(a: string, b: string)
    requires a != [] && !IsSpace(a[|a| - 1])
    ensures TrimEnd(a + b) == a + TrimEnd(b)
    decreases |b|
  {
    if b == [] {
      assert a + b == a;
    } else {
      var s := a + b;
      assert s[|s| - 1] == b[|b| - 1];
      assert s[..|s| - 1] == a + b[..|b| - 1];
      TrimEndAfter(a, b[..|b| - 1]);
    }
  }

  // ---------------------------------------------------------------------------
  // The song

  /**
   * `parseChordPro`: the song the fold makes of the source's lines, each line that is not a
   * directive or blank tokenized by `parseTokens`; `source` is the text unchanged.
   */
  method ParseChordPro(raw: string, sourcePath: string) returns (song: SongData, source: string)
    ensures song == SongOf(raw, sourcePath, TokensOf)
    ensures source == raw
  {
    var lines := SplitLines(raw);
    ghost var ks := Kinds(lines, TokensOf);
    var title := "Untitled";
    var key: Option<string> := None;
    var sections: seq<Section> := [];
    var current := Section("Verse", []);
    assert ks[..0] == [];
    for i := 0 to |lines|
      invariant FoldState(ks[..i], title, key, sections, current)
    {
      title, key, sections, current := FoldLine(lines[i], title, key, sections, current, ks, i);
    }
    assert ks[..|lines|] == ks;
    FoldDone(raw, sourcePath, TokensOf, title, key, sections, current);
    if |current.lines| > 0 {
      sections := sections + [current];
    }
    song := SongData(Slugify(title), title, key, sections, sourcePath);
    source := raw;
  }

  /** The body of the loop in `parseChordPro`: one more source line read. */
  method FoldLine(line: string, title: string, key: Option<string>, sections: seq<Section>,
                  current: Section, ghost ks: seq<LineKind>, ghost i: nat)
    returns (title': string, key': Option<string>, sections': seq<Section>, current': Section)
    requires i < |ks| && ks[i] == Classify(line, TokensOf)
    requires FoldState(ks[..i], title, key, sections, current)
    ensures FoldState(ks[..i + 1], title', key', sections', current')
  {
    ghost var done := ks[..i];
    ghost var k := Classify(line, TokensOf);
    TakeSnoc(ks, i);
    title', key', sections', current' := title, key, sections, current;
    var meta := DirectiveMatch(line);
    if meta.Some? {
      var (tag, value) := meta.value;
      if tag == "title" {
        title' := value;
      } else if tag == "key" {
        key' := Some(value);
      } else if tag == "section" {
        if |current.lines| > 0 {
          sections' := sections + [current];
        }
        current' := Section(value, []);
      }
    } else if Trim(line) == "" {
      current' := Section(current.name, current.lines + [Line([BlankToken], "")]);
    } else {
      var tokens := ParseTokens(line);
      current' := Section(current.name, current.lines + [Line(tokens, line)]);
    }
    FoldStateStep(done, k, title, key, sections, current, title', key', sections', current');
  }
}
