/**
 * The song view's chord line (`padChordLine` in src/App.tsx): the chords of a line's
 * tokens are written on a line of their own, each above the start of its lyric, with
 * spaces standing in for the lyric text under which no chord starts.
 */
module ChordDisplay {
  import opened SongTypes

  /** `' '.repeat(n)`. */
  function Spaces(n: nat): (s: string)
    ensures |s| == n && forall i :: 0 <= i < n ==> s[i] == ' '
  {
    seq(n, _ => ' ')
  }

  function Max(a: int, b: int): int {
    if a < b then b else a
  }

  /** `Math.max(lyric.length - chord.length + 1, 1)`: the spaces after a chord. */
  function Padding(t: Token): (n: nat)
    requires t.chord.Some?
    ensures n >= 1 && |t.chord.value| + n == Max(|t.chord.value|, |t.lyric|) + 1
  {
    Max(|t.lyric| - |t.chord.value| + 1, 1)
  }

  /** What one turn of the loop appends to the chord line for token `t`. */
  function Cell(t: Token): string {
    if HasChord(t) then t.chord.value + Spaces(Padding(t)) else Spaces(|t.lyric|)
  }

  /** The columns a token takes up on the chord line. */
  function Width(t: Token): nat {
    if HasChord(t) then Max(|t.chord.value|, |t.lyric|) + 1 else |t.lyric|
  }

  /** The strings of `parts`, one after the other. */
  function Concat(parts: seq<string>): string {
    if parts == [] then "" else Concat(parts[..|parts| - 1]) + parts[|parts| - 1]
  }

  /** The cell of each token. */
  function Cells(ts: seq<Token>): (cs: seq<string>)
    ensures |cs| == |ts|
  {
    seq(|ts|, i requires 0 <= i < |ts| => Cell(ts[i]))
  }

  /** The chord line of a token list: the cells of its tokens, in order. */
  function ChordLine(ts: seq<Token>): string {
    Concat(Cells(ts))
  }

  /** `padChordLine(tokens)`: the chord line and the lyric line of a token list. */
  method PadChordLine(tokens: seq<Token>) returns (chords: string, lyrics: string)
    ensures chords == ChordLine(tokens) && lyrics == Lyrics(tokens)
  {
    chords := "";
    lyrics := "";
    for i := 0 to |tokens|
      invariant chords == ChordLine(tokens[..i]) && lyrics == Lyrics(tokens[..i])
    {
      var token := tokens[i];
      if HasChord(token) {
        chords := chords + token.chord.value;
        var padding := Max(|token.lyric| - |token.chord.value| + 1, 1);
        chords := chords + Spaces(padding);
      } else {
        chords := chords + Spaces(|token.lyric|);
      }
      lyrics := lyrics + token.lyric;
      assert tokens[..i + 1] == tokens[..i] + [token];
      ChordLineSnoc(tokens[..i], token);
      LyricsSnoc(tokens[..i], token);
    }
    assert tokens[..|tokens|] == tokens;
  }

  // ---------------------------------------------------------------------------
  // What the chord line looks like

  lemma ChordLineSnoc(ts: seq<Token>, t: Token)
    ensures ChordLine(ts + [t]) == ChordLine(ts) + Cell(t)
  {
    var cs := Cells(ts + [t]);
    assert cs[..|ts|] == Cells(ts);
  }

  lemma LyricsSnoc(ts: seq<Token>, t: Token)
    ensures Lyrics(ts + [t]) == Lyrics(ts) + t.lyric
    ensures ChordsOf(ts + [t]) == ChordsOf(ts) + (if HasChord(t) then [t.chord.value] else [])
  {
    assert (ts + [t])[..|ts|] == ts;
  }

  /**
   * The chord line is at least as long as the lyrics plus one column per chord. Of the
   * tokens before token `k`, this says that token `k`'s chord starts at or after its
   * lyric's column, and one column further on for each earlier chord.
   */
  lemma {:induction false} ChordLineBound(ts: seq<Token>)
    ensures |ChordLine(ts)| >= |Lyrics(ts)| + |ChordsOf(ts)|
  {
    if ts != [] {
      var init := ts[..|ts| - 1];
      var t := ts[|ts| - 1];
      assert ts == init + [t];
      ChordLineBound(init);
      ChordLineSnoc(init, t);
      LyricsSnoc(init, t);
    }
  }

  /**
   * The chord line is exactly as long as the lyrics plus one column per chord when, and
   * only when, no chord is longer than the lyric under it.
   */
  lemma {:induction false} ChordLineExact(ts: seq<Token>)
    ensures |ChordLine(ts)| == |Lyrics(ts)| + |ChordsOf(ts)|
        <==> forall k :: 0 <= k < |ts| && HasChord(ts[k]) ==> |ts[k].chord.value| <= |ts[k].lyric|
  {
    if ts != [] {
      var init := ts[..|ts| - 1];
      var t := ts[|ts| - 1];
      assert ts == init + [t];
      ChordLineBound(init);
      ChordLineExact(init);
      ChordLineSnoc(init, t);
      LyricsSnoc(init, t);
      assert forall k :: 0 <= k < |init| ==> init[k] == ts[k];
    }
  }

  lemma {:induction false} ConcatAppend(a: seq<string>, b: seq<string>)
    ensures Concat(a + b) == Concat(a) + Concat(b)
    decreases |b|
  {
    if b == [] {
      assert a + b == a;
    } else {
      var ab := a + b;
      var front := b[..|b| - 1];
      var last := b[|b| - 1];
      assert ab[..|ab| - 1] == a + front && ab[|ab| - 1] == last;
      assert Concat(ab) == Concat(a + front) + last;
      ConcatAppend(a, front);
      assert Concat(b) == Concat(front) + last;
    }
  }

  lemma ChordLineAppend(a: seq<Token>, b: seq<Token>)
    ensures ChordLine(a + b) == ChordLine(a) + ChordLine(b)
  {
    assert Cells(a + b) == Cells(a) + Cells(b);
    ConcatAppend(Cells(a), Cells(b));
  }

  /**
   * Token `k`'s cell sits in the chord line `line` where the chord line of the earlier
   * tokens ends, at `col`.
   */
  lemma CellAt(ts: seq<Token>, k: nat, col: nat, line: string)
    requires k < |ts| && col == |ChordLine(ts[..k])| && line == ChordLine(ts)
    ensures |ChordLine(ts[..k + 1])| == col + |Cell(ts[k])| <= |line|
    ensures line[col..col + |Cell(ts[k])|] == Cell(ts[k])
  {
    var before := ts[..k];
    var upto := ts[..k + 1];
    var after := ts[k + 1..];
    assert upto == before + [ts[k]];
    assert ts == upto + after;
    ChordLineSnoc(before, ts[k]);
    ChordLineAppend(upto, after);
    Bracketed(ChordLine(before), Cell(ts[k]), ChordLine(after), line);
  }

  /** The middle piece of a three-piece concatenation, sliced out again. */
  lemma Bracketed(a: string, m: string, b: string, line: string)
    requires line == a + m + b
    ensures line[|a|..|a| + |m|] == m
  {
  }

  /** A chord token's cell: the chord, then spaces to the wider of chord and lyric, plus one. */
  lemma ChordCell(t: Token)
    requires HasChord(t)
    ensures |Cell(t)| == Width(t) == Max(|t.chord.value|, |t.lyric|) + 1
    ensures Cell(t)[..|t.chord.value|] == t.chord.value
    ensures forall i :: |t.chord.value| <= i < |Cell(t)| ==> Cell(t)[i] == ' '
  {
  }

  /**
   * Token `k` carrying a chord: the chord is written into the chord line `line` where
   * the chord line of the earlier tokens ends, at `col` (which `ChordLineBound` of the
   * earlier tokens places at or after the column where the lyric starts); spaces follow
   * it up to the width of the longer of chord and lyric, plus one.
   */
  lemma ChordAt(ts: seq<Token>, k: nat, col: nat, line: string)
    requires k < |ts| && HasChord(ts[k])
    requires col == |ChordLine(ts[..k])| && line == ChordLine(ts)
    ensures Width(ts[k]) == Max(|ts[k].chord.value|, |ts[k].lyric|) + 1
    ensures |ChordLine(ts[..k + 1])| == col + Width(ts[k]) <= |line|
    ensures line[col..col + |ts[k].chord.value|] == ts[k].chord.value
    ensures forall i :: col + |ts[k].chord.value| <= i < col + Width(ts[k]) ==> line[i] == ' '
  {
    CellAt(ts, k, col, line);
    ChordCell(ts[k]);
    PaddedAt(line, col, Cell(ts[k]), ts[k].chord.value, Width(ts[k]));
  }

  /** A padded cell placed at `col`: its text at `col`, then spaces up to its width `w`. */
  lemma PaddedAt(line: string, col: nat, cell: string, ch: string, w: nat)
    requires col + |cell| <= |line| && line[col..col + |cell|] == cell
    requires |ch| <= |cell| == w && cell[..|ch|] == ch && forall i :: |ch| <= i < |cell| ==> cell[i] == ' '
    ensures line[col..col + |ch|] == ch
    ensures forall i :: col + |ch| <= i < col + w ==> line[i] == ' '
  {
    assert line[col..col + |ch|] == line[col..col + |cell|][..|ch|];
    forall i | col + |ch| <= i < col + w ensures line[i] == ' ' {
      SliceAt(line, col, cell, i);
    }
  }

  /**
   * Token `k` carrying no chord, or the empty chord: the chord line `line` holds spaces
   * for the whole of its lyric, from `col` where the earlier tokens' chord line ends.
   */
  lemma BlankAt(ts: seq<Token>, k: nat, col: nat, line: string)
    requires k < |ts| && !HasChord(ts[k])
    requires col == |ChordLine(ts[..k])| && line == ChordLine(ts)
    ensures |ChordLine(ts[..k + 1])| == col + |ts[k].lyric| <= |line|
    ensures forall i :: col <= i < col + |ts[k].lyric| ==> line[i] == ' '
  {
    CellAt(ts, k, col, line);
    var cell := Cell(ts[k]);
    assert forall i :: 0 <= i < |cell| ==> cell[i] == ' ';
    forall i | col <= i < col + |ts[k].lyric| ensures line[i] == ' ' {
      SliceAt(line, col, cell, i);
    }
  }

  /** A character inside a slice that equals `cell` is the matching character of `cell`. */
  lemma SliceAt(line: string, col: nat, cell: string, i: nat)
    requires col + |cell| <= |line| && line[col..col + |cell|] == cell && col <= i < col + |cell|
    ensures line[i] == cell[i - col]
  {
    assert line[i] == line[col..col + |cell|][i - col];
  }

  /** Chords are written in token order: a later chord starts after an earlier one and its spaces. */
  lemma ChordsInOrder(ts: seq<Token>, j: nat, k: nat)
    requires j < k < |ts| && HasChord(ts[j])
    ensures |ChordLine(ts[..j])| + |ts[j].chord.value| < |ChordLine(ts[..k])|
  {
    ChordAt(ts, j, |ChordLine(ts[..j])|, ChordLine(ts));
    assert ts[..k] == ts[..j + 1] + ts[j + 1..k];
    ChordLineAppend(ts[..j + 1], ts[j + 1..k]);
  }
}
