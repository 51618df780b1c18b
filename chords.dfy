/**
 * Transposition of chords (src/lib/chords.ts): a chord root moves round the
 * twelve sharp-spelled pitch classes, flat spellings are read as their sharp
 * equivalents, and whatever follows the root is kept verbatim.
 *
 * JavaScript's `%` keeps the sign of its dividend, and indexing the note table
 * with a negative number yields `undefined`, which a template literal renders as
 * the text "undefined". `TransposeRoot` returns `None` for that case.
 */
module Chords {
  import opened Text
  import opened SongTypes
  import opened Markers
  import opened ScanFacts

  /** The twelve pitch classes, spelled with sharps, from C. */
  const NoteSequence: seq<string> := ["C", "C#", "D", "D#", "E", "F", "F#", "G", "G#", "A", "A#", "B"]

  /** Where the natural note of a letter sits in `NoteSequence`, or -1 for any other character. */
  function LetterIndex(c: char): (i: int)
    ensures -1 <= i < 12
    ensures i == -1 <==> !('A' <= c <= 'G')
  {
    if c == 'C' then 0 else if c == 'D' then 2 else if c == 'E' then 4 else if c == 'F' then 5
    else if c == 'G' then 7 else if c == 'A' then 9 else if c == 'B' then 11 else -1
  }

  /**
   * `NOTE_SEQUENCE.indexOf(note)`: read off the letter and the sharp sign. `NoteIndexSpec`
   * shows it finds exactly the names of the table, each at its place.
   */
  function NoteIndex(note: string): (i: int)
    ensures -1 <= i < 12
  {
    if |note| == 1 then LetterIndex(note[0])
    else if |note| == 2 && note[1] == '#' && note[0] != 'E' && note[0] != 'B' && LetterIndex(note[0]) != -1
    then LetterIndex(note[0]) + 1
    else -1
  }

  /** What every note name looks like: a letter, possibly followed by `#`. */
  lemma NoteShape(i: int)
    requires 0 <= i < 12
    ensures var n := NoteSequence[i];
      1 <= |n| <= 2 && 'A' <= n[0] <= 'G' && (|n| == 2 ==> n[1] == '#')
  {
  }

  /** The index of a note name is its position in the table. */
  lemma NoteIndexOf(i: int)
    requires 0 <= i < 12
    ensures NoteIndex(NoteSequence[i]) == i
  {
  }

  /** `NoteIndex` is the table's `indexOf`: a found index holds the name, and -1 means the name is absent. */
  lemma NoteIndexSpec(note: string)
    ensures NoteIndex(note) >= 0 ==> NoteSequence[NoteIndex(note)] == note
    ensures NoteIndex(note) == -1 <==> note !in NoteSequence
  {
    if NoteIndex(note) >= 0 {
      NoteAtIndex(note);
    }
    if note in NoteSequence {
      var k :| 0 <= k < 12 && NoteSequence[k] == note;
      NoteIndexOf(k);
    }
  }

  /** A found index holds the name. */
  lemma NoteAtIndex(note: string)
    requires NoteIndex(note) >= 0
    ensures NoteSequence[NoteIndex(note)] == note
  {
    var i := NoteIndex(note);
    var n := NoteSequence[i];
    NoteShape(i);
    if |note| == 1 {
      assert note == [note[0]] && n == [n[0]];
    } else {
      assert note == [note[0], note[1]] && n == [n[0], n[1]];
    }
  }

  /** The flat table: the five flat spellings with their sharp equivalents. */
  function FlatToSharp(root: string): (r: Option<string>)
    ensures r.Some? ==> |root| == 2 && root[1] == 'b' && |r.value| == 2 && r.value[1] == '#' && r.value[0] != root[0]
    ensures root in {"Db", "Eb", "Gb", "Ab", "Bb"} ==> r.Some?
  {
    if |root| != 2 || root[1] != 'b' then None
    else
      assert root == [root[0], 'b'];
      if root[0] == 'D' then Some("C#") else if root[0] == 'E' then Some("D#")
      else if root[0] == 'G' then Some("F#") else if root[0] == 'A' then Some("G#")
      else if root[0] == 'B' then Some("A#") else None
  }

  /** A flat spelling becomes its sharp equivalent, a semitone below the letter; anything else is left alone. */
  function NormalizeRoot(root: string): (r: string)
    ensures FlatToSharp(root).Some? ==> NoteIndex(r) == LetterIndex(root[0]) - 1 >= 0
    ensures FlatToSharp(root).None? ==> r == root
  {
    match FlatToSharp(root)
    case Some(sharp) => sharp
    case None => root
  }

  /**
   * JavaScript's `a % 12`: the division truncates, so the remainder has the sign of `a`;
   * it is the Euclidean remainder, or that remainder less 12.
   */
  function JsRem12(a: int): (r: int)
    ensures -12 < r < 12
    ensures a >= 0 ==> r == a % 12
    ensures a < 0 ==> r <= 0 && (r == 0 <==> a % 12 == 0) && (r < 0 ==> r + 12 == a % 12)
  {
    if a >= 0 then a % 12
    else
      var m := (-a) % 12;
      var q := (-a) / 12;
      assert a == -12 * q - m;
      assert m != 0 ==> a == 12 * (-q - 1) + (12 - m);
      -m
  }

  /** A template literal's rendering of `string | undefined`. */
  function Render(root: Option<string>): (r: string)
    ensures root.None? ==> r == "undefined"
    ensures root.Some? ==> r == root.value
  {
    match root
    case Some(s) => s
    case None => "undefined"
  }

  /**
   * `transposeRoot`: a root outside the table comes back unchanged; a known one moves
   * `steps` semitones, through the truncating remainder of `index + steps + 12`.
   * `None` is JavaScript's `undefined`, the result of indexing the table below 0.
   */
  function TransposeRoot(root: string, steps: int): (r: Option<string>)
    ensures NoteIndex(NormalizeRoot(root)) == -1 ==> r == Some(root)
    ensures r.None? ==> NoteIndex(NormalizeRoot(root)) + steps + 12 < 0
  {
    var index := NoteIndex(NormalizeRoot(root));
    if index == -1 then Some(root)
    else
      var shifted := JsRem12(index + steps + 12);
      if shifted >= 0 then Some(NoteSequence[shifted]) else None
  }

  /** `c` is a sharp or flat sign that the chord pattern can take into a root. */
  predicate IsAccidental(c: char) {
    c == '#' || c == 'b'
  }

  /**
   * The pattern `^([A-G](?:#|b)?)(.*)$` applied to a chord: the root and the suffix,
   * or `None` when the chord does not start with a note letter or the rest holds a
   * line terminator (which `.` does not match).
   */
  function SplitChord(chord: string): (m: Option<(string, string)>)
    ensures m.Some? <==> StartsWithNoteLetter(chord) && NoLineTerminator(chord[1..])
    ensures m.Some? ==> m.value.0 + m.value.1 == chord
    ensures m.Some? ==> |m.value.0| == (if |chord| >= 2 && IsAccidental(chord[1]) then 2 else 1)
  {
    if !StartsWithNoteLetter(chord) || !NoLineTerminator(chord[1..]) then None
    else
      var n := if |chord| >= 2 && IsAccidental(chord[1]) then 2 else 1;
      assert chord[..n] + chord[n..] == chord;
      Some((chord[..n], chord[n..]))
  }

  /**
   * `transposeChord`: zero steps leave the chord as it is; a chord the root pattern does
   * not match is returned unchanged; otherwise the transposed root is written before the
   * untouched suffix.
   */
  function TransposeChord(chord: string, steps: int): (r: string)
    ensures steps == 0 || SplitChord(chord).None? ==> r == chord
  {
    if steps == 0 then chord
    else
      match SplitChord(chord)
      case None => chord
      case Some((root, suffix)) => Render(TransposeRoot(root, steps)) + suffix
  }

  /** The chord with a flat root spelled with sharps, as a transposition writes it. */
  function NormalizeChord(chord: string): string {
    match SplitChord(chord)
    case None => chord
    case Some((root, suffix)) => NormalizeRoot(root) + suffix
  }

  /** The four roots the pattern accepts that the table does not know: C flat, F flat, E sharp, B sharp. */
  predicate UnknownRoot(root: string) {
    |root| == 2 &&
    (((root[0] == 'C' || root[0] == 'F') && root[1] == 'b') || ((root[0] == 'E' || root[0] == 'B') && root[1] == '#'))
  }

  /** Every root the pattern accepts is in the table, read through the flat map, except four. */
  lemma RootKnown(chord: string)
    requires SplitChord(chord).Some?
    ensures var root := SplitChord(chord).value.0;
      NoteIndex(NormalizeRoot(root)) == -1 <==> UnknownRoot(root)
  {
    var root := SplitChord(chord).value.0;
    assert root[0] == chord[0];
    assert |root| == 2 ==> root[1] == chord[1];
  }

  /** A known root moves `steps` semitones round the sharp names, for every step count from -12 up. */
  lemma RootMoves(root: string, steps: int)
    requires NoteIndex(NormalizeRoot(root)) != -1 && steps >= -12
    ensures TransposeRoot(root, steps) == Some(NoteSequence[(NoteIndex(NormalizeRoot(root)) + steps) % 12])
  {
    var i := NoteIndex(NormalizeRoot(root));
    assert JsRem12(i + steps + 12) == (i + steps) % 12;
  }

  /** The root moves `steps` semitones round the sharp names, and the suffix is kept, for every step count from -12 up. */
  lemma TransposeMovesRoot(chord: string, steps: int)
    requires steps != 0 && SplitChord(chord).Some?
    requires !UnknownRoot(SplitChord(chord).value.0)
    requires steps >= -12
    ensures var i := NoteIndex(NormalizeRoot(SplitChord(chord).value.0));
      0 <= i && TransposeChord(chord, steps) == NoteSequence[(i + steps) % 12] + SplitChord(chord).value.1
  {
    RootKnown(chord);
    RootMoves(SplitChord(chord).value.0, steps);
  }

  /** A chord whose root the table does not know is returned unchanged by any step count. */
  lemma UnknownRootUnchanged(chord: string, steps: int)
    requires SplitChord(chord).Some? && UnknownRoot(SplitChord(chord).value.0)
    ensures TransposeChord(chord, steps) == chord
  {
    RootKnown(chord);
  }

  /**
   * Below -12 the truncating remainder can go negative: the root then renders as
   * "undefined". This happens exactly when `index + steps + 12` is negative and not a
   * multiple of 12.
   */
  lemma TransposeUndefined(chord: string, steps: int)
    requires steps != 0 && SplitChord(chord).Some?
    requires !UnknownRoot(SplitChord(chord).value.0)
    ensures var (root, suffix) := SplitChord(chord).value;
      var a := NoteIndex(NormalizeRoot(root)) + steps + 12;
      TransposeRoot(root, steps).None? <==> a < 0 && a % 12 != 0
  {
    RootKnown(chord);
  }

  /** One octave more transposes to the same chord, for step counts from -12 up other than 0 and -12. */
  lemma TransposePeriodic(chord: string, steps: int)
    requires steps >= -12 && steps != 0 && steps != -12
    ensures TransposeChord(chord, steps) == TransposeChord(chord, steps + 12)
  {
    if SplitChord(chord).Some? {
      if UnknownRoot(SplitChord(chord).value.0) {
        UnknownRootUnchanged(chord, steps);
        UnknownRootUnchanged(chord, steps + 12);
      } else {
        TransposeMovesRoot(chord, steps);
        TransposeMovesRoot(chord, steps + 12);
      }
    }
  }

  /** The zero-step shortcut keeps a flat spelling that a whole octave rewrites. */
  lemma PeriodicFailsAtZero()
    ensures TransposeChord("Bb", 0) == "Bb" && TransposeChord("Bb", 12) == "A#"
    ensures TransposeChord("Bb", -12) == "A#"
  {
    var c := "Bb";
    assert c[1..] == "b" && c[..2] == c && c[2..] == "";
    assert SplitChord(c) == Some(("Bb", ""));
    assert NoteIndex(NormalizeRoot("Bb")) == 10;
  }

  /** `s` does not begin with a sign that the root pattern would swallow after a bare letter. */
  predicate NoLeadingAccidental(s: string) {
    s == "" || !IsAccidental(s[0])
  }

  lemma SplitNoteName(j: int, suffix: string)
    requires 0 <= j < 12
    requires NoLineTerminator(suffix) && NoLeadingAccidental(suffix)
    ensures SplitChord(NoteSequence[j] + suffix) == Some((NoteSequence[j], suffix))
  {
    var n := NoteSequence[j];
    var c := n + suffix;
    assert c[0] == n[0];
    assert |n| == 2 ==> c[1] == '#';
    assert |n| == 1 && |c| >= 2 ==> c[1] == suffix[0];
    forall k | 0 <= k < |c[1..]| ensures !IsLineTerminator(c[1..][k]) {
      if k + 1 < |n| {
        assert c[1..][k] == n[k + 1];
      } else {
        assert c[1..][k] == suffix[k + 1 - |n|];
      }
    }
    assert c[..|n|] == n;
    assert c[|n|..] == suffix;
  }

  /**
   * Transposing by `steps` and back by `-steps` gives the chord again, flat roots
   * respelled with sharps, for step counts from -12 to 12 other than 0 and chords
   * whose suffix does not begin with `#` or `b`.
   */
  lemma TransposeRoundTrip(chord: string, steps: int)
    requires steps != 0 && -12 <= steps <= 12
    requires SplitChord(chord).Some? ==> NoLeadingAccidental(SplitChord(chord).value.1)
    ensures TransposeChord(TransposeChord(chord, steps), -steps) == NormalizeChord(chord)
  {
    if SplitChord(chord).Some? {
      var (root, suffix) := SplitChord(chord).value;
      if UnknownRoot(root) {
        UnknownRootUnchanged(chord, steps);
        UnknownRootUnchanged(chord, -steps);
        assert NormalizeChord(chord) == root + suffix;
      } else {
        RoundTripKnown(chord, steps);
      }
    }
  }

  lemma RoundTripKnown(chord: string, steps: int)
    requires steps != 0 && -12 <= steps <= 12
    requires SplitChord(chord).Some? && !UnknownRoot(SplitChord(chord).value.0)
    requires NoLeadingAccidental(SplitChord(chord).value.1)
    ensures TransposeChord(TransposeChord(chord, steps), -steps) == NormalizeChord(chord)
  {
    var root := SplitChord(chord).value.0;
    var suffix := SplitChord(chord).value.1;
    var i := NoteIndex(NormalizeRoot(root));
    TransposeMovesRoot(chord, steps);
    SuffixNoTerminator(chord);
    NameRoundTrip(i, steps, (i + steps) % 12, suffix, TransposeChord(chord, steps));
    NoteAtIndex(NormalizeRoot(root));
    NormalizeSplit(chord);
  }

  /** Text that is a note name with a suffix, moved back down by the steps that brought the name there, comes back. */
  lemma NameRoundTrip(i: int, steps: int, j: int, suffix: string, m: string)
    requires 0 <= i < 12 && steps != 0 && -12 <= steps <= 12 && j == (i + steps) % 12
    requires NoLineTerminator(suffix) && NoLeadingAccidental(suffix)
    requires m == NoteSequence[j] + suffix
    ensures TransposeChord(m, -steps) == NoteSequence[i] + suffix
  {
    ModBack(i, steps, j);
    TransposeNoteName(j, suffix, -steps, m, i);
  }

  lemma NormalizeSplit(chord: string)
    requires SplitChord(chord).Some?
    ensures NormalizeChord(chord) == NormalizeRoot(SplitChord(chord).value.0) + SplitChord(chord).value.1
  {
  }

  /** A note name followed by a suffix the root pattern leaves alone moves as the name does. */
  lemma TransposeNoteName(j: int, suffix: string, steps: int, m: string, k: int)
    requires 0 <= j < 12 && steps != 0 && steps >= -12
    requires NoLineTerminator(suffix) && NoLeadingAccidental(suffix)
    requires m == NoteSequence[j] + suffix && k == (j + steps) % 12
    ensures TransposeChord(m, steps) == NoteSequence[k] + suffix
  {
    var n := NoteSequence[j];
    SplitNoteName(j, suffix);
    NoteNameIsSharp(j);
    RootMoves(n, steps);
  }

  lemma SuffixNoTerminator(chord: string)
    requires SplitChord(chord).Some?
    ensures NoLineTerminator(SplitChord(chord).value.1)
  {
    var (root, suffix) := SplitChord(chord).value;
    forall k | 0 <= k < |suffix| ensures !IsLineTerminator(suffix[k]) {
      assert suffix[k] == chord[1..][k + |root| - 1];
    }
  }

  lemma NoteNameIsSharp(j: int)
    requires 0 <= j < 12
    ensures NormalizeRoot(NoteSequence[j]) == NoteSequence[j]
    ensures !UnknownRoot(NoteSequence[j]) && NoteIndex(NoteSequence[j]) == j
  {
  }

  lemma ModBack(i: int, s: int, j: int)
    requires 0 <= i < 12 && -12 <= s <= 12 && j == (i + s) % 12
    ensures 0 <= j < 12 && (j + -s) % 12 == i
  {
    var k := (i + s) / 12;
    assert i + s == 12 * k + j;
    assert -1 <= k <= 2;
    assert j - s == i - 12 * k;
  }

  /** A suffix beginning with `b` merges into a bare transposed root: "C#b" comes back as "C". */
  lemma RoundTripMergesSuffix()
    ensures TransposeChord(TransposeChord("C#b", 1), -1) == "C"
  {
    SharpFlatUp();
    FlatDown();
  }

  lemma SharpFlatUp()
    ensures TransposeChord("C#b", 1) == "Db"
  {
    var c := "C#b";
    assert c[1..] == "#b" && c[..2] == "C#" && c[2..] == "b";
    assert SplitChord(c) == Some(("C#", "b"));
    assert NoteIndex(NormalizeRoot("C#")) == 1;
    assert TransposeRoot("C#", 1) == Some("D");
  }

  lemma FlatDown()
    ensures TransposeChord("Db", -1) == "C"
  {
    var d := "Db";
    assert d[1..] == "b" && d[..2] == d && d[2..] == "";
    assert SplitChord(d) == Some(("Db", ""));
    assert NoteIndex(NormalizeRoot(d)) == 1;
    assert TransposeRoot(d, -1) == Some("C");
  }

  /** `x` occurs in `chord` or in one of the texts a root can be rendered as. */
  lemma TransposeChordChars(chord: string, steps: int, x: char)
    requires x !in chord && x != '#' && !('A' <= x <= 'G') && x !in "undefined"
    ensures x !in TransposeChord(chord, steps)
  {
    if steps != 0 && SplitChord(chord).Some? {
      var (root, suffix) := SplitChord(chord).value;
      InConcat(x, root, suffix);
      RenderedRootChars(root, steps, x);
      InConcat(x, Render(TransposeRoot(root, steps)), suffix);
    }
  }

  /** A transposed root is made of the root's own characters, a note name, or "undefined". */
  lemma RenderedRootChars(root: string, steps: int, x: char)
    requires x !in root && x != '#' && !('A' <= x <= 'G') && x !in "undefined"
    ensures x !in Render(TransposeRoot(root, steps))
  {
    var index := NoteIndex(NormalizeRoot(root));
    if index != -1 {
      var shifted := JsRem12(index + steps + 12);
      if shifted >= 0 {
        var n := NoteSequence[shifted];
        NoteShape(shifted);
        assert n == [n[0]] || n == [n[0], n[1]];
      }
    }
  }

  /** A transposed marker content is still something the tokenizers' pattern captures. */
  lemma TransposeKeepsGoodContent(chord: string, steps: int)
    requires GoodContent(chord)
    ensures GoodContent(TransposeChord(chord, steps))
  {
    TransposeChordNonEmpty(chord, steps);
    TransposeChordChars(chord, steps, ']');
  }

  /** Every transposed chord of a list. */
  function TransposeAll(chords: seq<string>, steps: int): (r: seq<string>)
    ensures |r| == |chords|
  {
    seq(|chords|, i requires 0 <= i < |chords| => TransposeChord(chords[i], steps))
  }

  /** A token with its chord transposed, when it has one. */
  function TransposeToken(t: Token, steps: int): (r: Token)
    ensures r.lyric == t.lyric
    ensures HasChord(r) <==> HasChord(t)
    ensures !HasChord(t) ==> r == t
  {
    if HasChord(t) then
      TransposeChordNonEmpty(t.chord.value, steps);
      Token(Some(TransposeChord(t.chord.value, steps)), t.lyric)
    else t
  }

  /** `transposeTokens`: every token, in order, with its chord transposed. */
  function TransposeTokens(tokens: seq<Token>, steps: int): (r: seq<Token>)
    ensures |r| == |tokens|
    ensures forall i :: 0 <= i < |tokens| ==> r[i].lyric == tokens[i].lyric
    ensures forall i :: 0 <= i < |tokens| && !HasChord(tokens[i]) ==> r[i] == tokens[i]
    ensures forall i :: 0 <= i < |tokens| && HasChord(tokens[i]) ==>
      r[i].chord == Some(TransposeChord(tokens[i].chord.value, steps))
  {
    seq(|tokens|, i requires 0 <= i < |tokens| => TransposeToken(tokens[i], steps))
  }

  /** The first token transposed, then the others. */
  lemma TransposeTokensFirst(tokens: seq<Token>, steps: int)
    requires tokens != []
    ensures TransposeTokens(tokens, steps) == [TransposeToken(tokens[0], steps)] + TransposeTokens(tokens[1..], steps)
  {
    var r := TransposeTokens(tokens, steps);
    var tail := TransposeTokens(tokens[1..], steps);
    forall i | 1 <= i < |r| ensures r[i] == tail[i - 1] {
      assert tokens[1..][i - 1] == tokens[i];
    }
    assert r[1..] == tail;
  }

  /** A transposed chord is never empty when the chord is not: a token keeps its chord. */
  lemma TransposeChordNonEmpty(chord: string, steps: int)
    requires chord != ""
    ensures TransposeChord(chord, steps) != ""
  {
    if steps != 0 && SplitChord(chord).Some? {
      var (root, suffix) := SplitChord(chord).value;
      var index := NoteIndex(NormalizeRoot(root));
      if index != -1 {
        var shifted := JsRem12(index + steps + 12);
        if shifted >= 0 {
          NoteShape(shifted);
        }
      }
    }
  }

  lemma TransposeTokensSnoc(tokens: seq<Token>, steps: int)
    requires tokens != []
    ensures var n := |tokens| - 1;
      TransposeTokens(tokens, steps) == TransposeTokens(tokens[..n], steps) + [TransposeToken(tokens[n], steps)]
  {
  }

  /** Transposing tokens keeps the lyrics. */
  lemma {:induction false} TransposeTokensLyrics(tokens: seq<Token>, steps: int)
    ensures Lyrics(TransposeTokens(tokens, steps)) == Lyrics(tokens)
    decreases |tokens|
  {
    if tokens != [] {
      var n := |tokens| - 1;
      var r := TransposeTokens(tokens, steps);
      TransposeTokensSnoc(tokens, steps);
      assert r[..n] == TransposeTokens(tokens[..n], steps);
      TransposeTokensLyrics(tokens[..n], steps);
    }
  }

  /**
   * Transposing tokens keeps which tokens carry a chord: the chords become the
   * transposed chords, in the same order.
   */
  lemma {:induction false} TransposeTokensChords(tokens: seq<Token>, steps: int)
    ensures ChordsOf(TransposeTokens(tokens, steps)) == TransposeAll(ChordsOf(tokens), steps)
    decreases |tokens|
  {
    if tokens != [] {
      var n := |tokens| - 1;
      var r := TransposeTokens(tokens, steps);
      TransposeTokensSnoc(tokens, steps);
      assert r[..n] == TransposeTokens(tokens[..n], steps);
      TransposeTokensChords(tokens[..n], steps);
      var t := tokens[n];
      if HasChord(t) {
        TransposeChordNonEmpty(t.chord.value, steps);
        var cs := ChordsOf(tokens[..n]);
        assert TransposeAll(cs + [t.chord.value], steps) == TransposeAll(cs, steps) + [r[n].chord.value];
      } else {
        assert ChordsOf(tokens[..n]) + [] == ChordsOf(tokens[..n]);
      }
    }
  }

  /** Zero steps give the tokens back. */
  lemma TransposeTokensZero(tokens: seq<Token>)
    ensures TransposeTokens(tokens, 0) == tokens
  {
    assert forall i :: 0 <= i < |tokens| ==> TransposeToken(tokens[i], 0) == tokens[i];
  }

  /**
   * `transposeDelta`: the signed semitone distance from one key to another, 0 when either
   * key is missing, empty or not a note name.
   */
  function TransposeDelta(fromKey: Option<string>, toKey: Option<string>): (d: int)
    ensures -11 <= d <= 11
    ensures fromKey.None? || fromKey.value == "" || toKey.None? || toKey.value == "" ==> d == 0
  {
    if fromKey.None? || fromKey.value == "" || toKey.None? || toKey.value == "" then 0
    else
      var fromIndex := NoteIndex(NormalizeRoot(fromKey.value));
      var toIndex := NoteIndex(NormalizeRoot(toKey.value));
      if fromIndex == -1 || toIndex == -1 then 0 else toIndex - fromIndex
  }

  /** The distance between two known keys takes the first to the second, sharp-spelled. */
  lemma DeltaLands(fromKey: string, toKey: string)
    requires NoteIndex(NormalizeRoot(fromKey)) != -1 && NoteIndex(NormalizeRoot(toKey)) != -1
    requires fromKey != "" && toKey != ""
    ensures TransposeRoot(fromKey, TransposeDelta(Some(fromKey), Some(toKey))) == Some(NormalizeRoot(toKey))
  {
    var i := NoteIndex(NormalizeRoot(fromKey));
    var j := NoteIndex(NormalizeRoot(toKey));
    var d := TransposeDelta(Some(fromKey), Some(toKey));
    assert d == j - i;
    NoteIndexSpec(NormalizeRoot(toKey));
    assert i + d + 12 == j + 12;
    assert (j + 12) % 12 == j;
  }

  /** A key the table does not know gives a zero distance. */
  lemma DeltaUnknown(fromKey: string, toKey: string)
    requires NoteIndex(NormalizeRoot(fromKey)) == -1 || NoteIndex(NormalizeRoot(toKey)) == -1
    ensures TransposeDelta(Some(fromKey), Some(toKey)) == 0
  {
  }

  /** `regex.replace` of every transposition-pattern marker by its transposed chord. */
  function TransposeMarkers(line: string, steps: int): (r: string)
    ensures '[' !in line ==> r == line
  {
    var f := c => TransposeChord(c, steps);
    PlainKept(line, f);
    Flatten(Relabel(Scan(line, true), f))
  }

  /**
   * Transposing the markers of a line rewrites exactly its bracketed chords: the
   * tokenizers' scan of the result finds the same gaps and the same markers, each
   * holding the transposed content, provided no marker content holds a `[`.
   */
  lemma TransposeMarkersRescan(line: string, steps: int)
    requires NoNestedOpen(Scan(line, false))
    ensures Scan(TransposeMarkers(line, steps), false)
         == Relabel(Scan(line, false), c => TransposeChord(c, steps))
  {
    var f := c => TransposeChord(c, steps);
    forall c | GoodContent(c) ensures GoodContent(f(c)) {
      TransposeKeepsGoodContent(c, steps);
    }
    ChordScanAgrees(line, f);
    ScanRelabel(line, f);
  }

  /** A character that is not a bracket and that `f` never introduces stays out of the rewritten text. */
  lemma {:induction false} RelabelKeepsOut(segs: seq<Segment>, f: string -> string, x: char)
    requires x !in Flatten(segs) && x != '[' && x != ']'
    requires forall c :: x !in c ==> x !in f(c)
    ensures x !in Flatten(Relabel(segs, f))
  {
    if segs != [] {
      RelabelKeepsOut(segs[1..], f, x);
      RelabelUnfold(segs, f);
      var h := SegText(segs[0]);
      var h' := SegText(Relabel([segs[0]], f)[0]);
      InConcat(x, h, Flatten(segs[1..]));
      InConcat(x, h', Flatten(Relabel(segs[1..], f)));
      if segs[0].Marker? {
        var c := segs[0].content;
        InConcat(x, "[" + c, "]");
        InConcat(x, "[", c);
        InConcat(x, "[" + f(c), "]");
        InConcat(x, "[", f(c));
      }
    }
  }

  /** The first index at or after `i` that does not hold whitespace, or `|s|`. */
  function SkipSpaces(s: string, i: nat): (j: nat)
    requires i <= |s|
    ensures i <= j <= |s|
    ensures forall k :: i <= k < j ==> IsSpace(s[k])
    ensures j < |s| ==> !IsSpace(s[j])
    decreases |s| - i
  {
    if i < |s| && IsSpace(s[i]) then SkipSpaces(s, i + 1) else i
  }

  /** `[A-G]` under the case-insensitive flag. */
  predicate IsNoteLetterAnyCase(c: char) {
    'A' <= c <= 'G' || 'a' <= c <= 'g'
  }

  /** `#|b` under the case-insensitive flag. */
  predicate IsAccidentalAnyCase(c: char) {
    c == '#' || c == 'b' || c == 'B'
  }

  /**
   * The case-insensitive key-line pattern `^(\{\s*key:\s*)([A-G](?:#|b)?)(\s*\})$`:
   * the text up to the key, the key, and the text after it. A sign after the letter
   * always joins the key, since neither `\s` nor `}` could take it instead.
   */
  function KeyLine(line: string): (m: Option<(string, string, string)>)
    ensures m.Some? ==> m.value.0 + m.value.1 + m.value.2 == line
    ensures m.Some? ==> 1 <= |m.value.1| <= 2 && IsNoteLetterAnyCase(m.value.1[0])
    ensures m.Some? && |m.value.1| == 2 ==> IsAccidentalAnyCase(m.value.1[1])
    ensures m.Some? ==> line[0] == '{' && line[|line| - 1] == '}'
  {
    if line == [] || line[0] != '{' then None
    else
      var a := SkipSpaces(line, 1);
      if a + 4 > |line| || ToLower(line[a..a + 3]) != "key" || line[a + 3] != ':' then None
      else KeyValue(line, SkipSpaces(line, a + 4))
  }

  /** The rest of the key-line pattern, from the key's first character at `b` on. */
  function KeyValue(line: string, b: nat): (m: Option<(string, string, string)>)
    requires b <= |line|
    ensures m.Some? ==> m.value.0 + m.value.1 + m.value.2 == line
    ensures m.Some? ==> 1 <= |m.value.1| <= 2 && IsNoteLetterAnyCase(m.value.1[0])
    ensures m.Some? && |m.value.1| == 2 ==> IsAccidentalAnyCase(m.value.1[1])
    ensures m.Some? ==> line[|line| - 1] == '}'
  {
    if b == |line| || !IsNoteLetterAnyCase(line[b]) then None
    else
      var e := if b + 1 < |line| && IsAccidentalAnyCase(line[b + 1]) then b + 2 else b + 1;
      var c := SkipSpaces(line, e);
      if c + 1 == |line| && line[c] == '}' then
        KeyPieces(line, b, e);
        Some((line[..b], line[b..e], line[e..]))
      else None
  }

  /** The three pieces a key line is cut into, and the characters of the key. */
  lemma KeyPieces(line: string, b: nat, e: nat)
    requires b < e <= |line|
    ensures line[..b] + line[b..e] + line[e..] == line
    ensures |line[b..e]| == e - b && line[b..e][0] == line[b]
    ensures e == b + 2 ==> line[b..e][1] == line[b + 1]
  {
  }

  /** The shape a key line has: `{`, spaces, `key` in any case, `:`, spaces, the key, spaces, `}`. */
  predicate KeyLineParts(sp1: string, kw: string, sp2: string, key: string, sp3: string) {
    AllSpace(sp1) && AllSpace(sp2) && AllSpace(sp3) && ToLower(kw) == "key" &&
    1 <= |key| <= 2 && IsNoteLetterAnyCase(key[0]) && (|key| == 2 ==> IsAccidentalAnyCase(key[1]))
  }

  lemma SkipSpacesTo(s: string, i: nat, j: nat)
    requires i <= j <= |s|
    requires forall k :: i <= k < j ==> IsSpace(s[k])
    requires j < |s| ==> !IsSpace(s[j])
    ensures SkipSpaces(s, i) == j
  {
  }

  /** Every line of that shape is a key line, split before and after its key. */
  lemma KeyLineOf(sp1: string, kw: string, sp2: string, key: string, sp3: string)
    requires KeyLineParts(sp1, kw, sp2, key, sp3)
    ensures var pre := "{" + sp1 + kw + ":" + sp2; var post := sp3 + "}";
      KeyLine(pre + key + post) == Some((pre, key, post))
  {
    var pre := "{" + sp1 + kw + ":" + sp2;
    var post := sp3 + "}";
    var line := pre + key + post;
    var a := 1 + |sp1|;
    var b := |pre|;
    var e := b + |key|;
    PrefixParts(sp1, kw, sp2);
    forall k | 0 <= k < b ensures line[k] == pre[k] { }
    forall k | e <= k < |line| - 1 ensures IsSpace(line[k]) {
      assert line[k] == post[k - e] == sp3[k - e];
    }
    assert line[b] == key[0];
    assert |key| == 2 ==> line[b + 1] == key[1];
    assert |key| == 1 ==> line[b + 1] == post[0];
    assert line[|line| - 1] == '}';
    assert line[..b] == pre && line[b..e] == key && line[e..] == post;
    assert line[a..a + 3] == pre[a..a + 3];
    KeyLineAt(line, a, b, e);
  }

  /** Where the parts of a key line's beginning sit. */
  lemma PrefixParts(sp1: string, kw: string, sp2: string)
    requires AllSpace(sp1) && AllSpace(sp2) && |kw| == 3
    ensures var pre := "{" + sp1 + kw + ":" + sp2; var a := 1 + |sp1|;
      |pre| == a + 4 + |sp2| && pre[0] == '{' && pre[a..a + 3] == kw && pre[a + 3] == ':' &&
      (forall k :: 1 <= k < a ==> IsSpace(pre[k])) &&
      (forall k :: a + 4 <= k < |pre| ==> IsSpace(pre[k]))
  {
    var pre := "{" + sp1 + kw + ":" + sp2;
    var a := 1 + |sp1|;
    forall k | 1 <= k < a ensures IsSpace(pre[k]) {
      assert pre[k] == sp1[k - 1];
    }
    forall k | a + 4 <= k < |pre| ensures IsSpace(pre[k]) {
      assert pre[k] == sp2[k - a - 4];
    }
  }

  /** The key-line scan, given where the keyword, the key and the closing brace are. */
  lemma KeyLineAt(line: string, a: nat, b: nat, e: nat)
    requires 1 <= a && a + 4 <= b < e < |line|
    requires line[0] == '{' && line[|line| - 1] == '}'
    requires forall k :: 1 <= k < a ==> IsSpace(line[k])
    requires ToLower(line[a..a + 3]) == "key" && line[a + 3] == ':'
    requires forall k :: a + 4 <= k < b ==> IsSpace(line[k])
    requires IsNoteLetterAnyCase(line[b])
    requires e == b + 1 || (e == b + 2 && IsAccidentalAnyCase(line[b + 1]))
    requires e == b + 1 ==> !IsAccidentalAnyCase(line[b + 1])
    requires forall k :: e <= k < |line| - 1 ==> IsSpace(line[k])
    ensures KeyLine(line) == Some((line[..b], line[b..e], line[e..]))
  {
    SkipSpacesTo(line, 1, a);
    SkipSpacesTo(line, a + 4, b);
    KeyTagAt(line, a);
    KeyValueAt(line, b, e);
  }

  /** Past `{`, the spaces, `key` and `:`, the key-line pattern goes on with the key. */
  lemma KeyTagAt(line: string, a: nat)
    requires line != [] && line[0] == '{' && SkipSpaces(line, 1) == a
    requires a + 4 <= |line| && ToLower(line[a..a + 3]) == "key" && line[a + 3] == ':'
    ensures KeyLine(line) == KeyValue(line, SkipSpaces(line, a + 4))
  {
  }

  lemma KeyValueAt(line: string, b: nat, e: nat)
    requires b < e < |line| && line[|line| - 1] == '}'
    requires IsNoteLetterAnyCase(line[b])
    requires e == b + 1 || (e == b + 2 && IsAccidentalAnyCase(line[b + 1]))
    requires e == b + 1 ==> !IsAccidentalAnyCase(line[b + 1])
    requires forall k :: e <= k < |line| - 1 ==> IsSpace(line[k])
    ensures KeyValue(line, b) == Some((line[..b], line[b..e], line[e..]))
  {
    SkipSpacesTo(line, e, |line| - 1);
  }

  /**
   * One line of `transposeChordProSource`: a key line gets its key transposed in place,
   * any other line has its chord markers transposed.
   */
  function TransposeSourceLine(line: string, steps: int): (r: string)
    ensures KeyLine(line).None? && '[' !in line ==> r == line
    ensures KeyLine(line).Some? ==>
              var (pre, key, suf) := KeyLine(line).value;
              pre <= r && |suf| <= |r| && r[|r| - |suf|..] == suf
  {
    match KeyLine(line)
    case Some((pre, key, suf)) => pre + Render(TransposeRoot(key, steps)) + suf
    case None => TransposeMarkers(line, steps)
  }

  /** A key line whose key the table knows gets the key moved `steps` semitones, for step counts from -12 up. */
  lemma KeyLineTransposed(line: string, steps: int, pre: string, key: string, suf: string)
    requires KeyLine(line) == Some((pre, key, suf)) && steps >= -12
    requires NoteIndex(NormalizeRoot(key)) != -1
    ensures TransposeSourceLine(line, steps) == pre + NoteSequence[(NoteIndex(NormalizeRoot(key)) + steps) % 12] + suf
  {
    KeyLineSource(line, steps, pre, key, suf);
    RootMoves(key, steps);
  }

  /** What `transposeChordProSource` makes of a key line, given its pieces. */
  lemma KeyLineSource(line: string, steps: int, pre: string, key: string, suf: string)
    requires KeyLine(line) == Some((pre, key, suf))
    ensures TransposeSourceLine(line, steps) == pre + Render(TransposeRoot(key, steps)) + suf
  {
  }

  /** A key line whose key the table does not know (a lower-case one, say) is left as it is. */
  lemma KeyLineUnknownKept(line: string, steps: int)
    requires KeyLine(line).Some? && NoteIndex(NormalizeRoot(KeyLine(line).value.1)) == -1
    ensures TransposeSourceLine(line, steps) == line
  {
  }

  /** No line break is introduced into a line. */
  lemma TransposeLineNoBreak(line: string, steps: int)
    requires '\n' !in line
    ensures '\n' !in TransposeSourceLine(line, steps)
  {
    if KeyLine(line).Some? {
      KeyLineNoBreak(line, steps);
    } else {
      var f := c => TransposeChord(c, steps);
      forall c | '\n' !in c ensures '\n' !in f(c) {
        TransposeChordChars(c, steps, '\n');
      }
      ScanCovers(line, true);
      RelabelKeepsOut(Scan(line, true), f, '\n');
    }
  }

  lemma KeyLineNoBreak(line: string, steps: int)
    requires '\n' !in line && KeyLine(line).Some?
    ensures '\n' !in TransposeSourceLine(line, steps)
  {
    var (pre, key, suf) := KeyLine(line).value;
    var rendered := Render(TransposeRoot(key, steps));
    InConcat('\n', pre, key);
    InConcat('\n', pre + key, suf);
    RenderedRootChars(key, steps, '\n');
    InConcat('\n', pre, rendered);
    InConcat('\n', pre + rendered, suf);
  }

  /** Every line transposed. */
  function TransposeLines(lines: seq<string>, steps: int): (r: seq<string>)
    ensures |r| == |lines|
  {
    seq(|lines|, i requires 0 <= i < |lines| => TransposeSourceLine(lines[i], steps))
  }

  /** `transposeChordProSource`: zero steps return the source; otherwise every line is transposed and the lines are joined with `\n`. */
  function TransposeChordProSource(source: string, steps: int): (r: string)
    ensures steps == 0 ==> r == source
  {
    if steps == 0 then source else JoinLines(TransposeLines(SplitLines(source), steps))
  }

  /**
   * Transposed source has as many lines as the source, and each is the transposed
   * source line; a `\r` before a line break of the source is not kept.
   */
  lemma TransposeSourceLines(source: string, steps: int)
    requires steps != 0
    ensures var ls := SplitLines(source);
      var rs := SplitLines(TransposeChordProSource(source, steps));
      |rs| == |ls| &&
      (forall i :: 0 <= i < |ls| - 1 ==> rs[i] == DropCR(TransposeSourceLine(ls[i], steps))) &&
      rs[|ls| - 1] == TransposeSourceLine(ls[|ls| - 1], steps)
  {
    var ls := SplitLines(source);
    var ts := TransposeLines(ls, steps);
    forall i | 0 <= i < |ts| ensures '\n' !in ts[i] {
      TransposeLineNoBreak(ls[i], steps);
    }
    SplitJoin(ts);
  }

  /**
   * `transposeRoot` as evidently intended: the index wraps round the table for every
   * step count, so a known root always becomes a note name.
   */
  function TransposeRootWrapped(root: string, steps: int): (r: string)
    ensures NoteIndex(NormalizeRoot(root)) != -1 ==> r in NoteSequence
    ensures NoteIndex(NormalizeRoot(root)) == -1 ==> r == root
  {
    var index := NoteIndex(NormalizeRoot(root));
    if index == -1 then root else NoteSequence[(index + steps) % 12]
  }

  /** `transposeChord` built on the wrapping root transposition. */
  function TransposeChordWrapped(chord: string, steps: int): (r: string)
    ensures steps == 0 || SplitChord(chord).None? ==> r == chord
    ensures SplitChord(chord).Some? ==>
              var (root, suffix) := SplitChord(chord).value;
              |suffix| <= |r| && r[|r| - |suffix|..] == suffix &&
              (steps != 0 && NoteIndex(NormalizeRoot(root)) != -1 ==> r[..|r| - |suffix|] in NoteSequence)
  {
    if steps == 0 then chord
    else
      match SplitChord(chord)
      case None => chord
      case Some((root, suffix)) => TransposeRootWrapped(root, steps) + suffix
  }

  /** The wrapping version agrees with the code as written for every step count from -12 up. */
  lemma WrappedAgrees(chord: string, steps: int)
    requires steps >= -12
    ensures TransposeChordWrapped(chord, steps) == TransposeChord(chord, steps)
  {
    if steps != 0 && SplitChord(chord).Some? {
      var (root, suffix) := SplitChord(chord).value;
      var index := NoteIndex(NormalizeRoot(root));
      if index != -1 {
        assert JsRem12(index + steps + 12) == (index + steps) % 12;
      }
    }
  }

  /** The wrapping version is periodic in the octave for every step count but the zero shortcut. */
  lemma WrappedPeriodic(chord: string, steps: int)
    requires steps != 0 && steps != -12
    ensures TransposeChordWrapped(chord, steps) == TransposeChordWrapped(chord, steps + 12)
  {
    if SplitChord(chord).Some? {
      var (root, suffix) := SplitChord(chord).value;
      WrappedRootPeriodic(root, steps);
    }
  }

  lemma WrappedRootPeriodic(root: string, steps: int)
    ensures TransposeRootWrapped(root, steps) == TransposeRootWrapped(root, steps + 12)
  {
    var index := NoteIndex(NormalizeRoot(root));
    var a := index + steps;
    assert (a + 12) % 12 == a % 12;
  }

  /** Thirteen semitones down, the code as written renders a C as "undefined"; the wrapping version gives B. */
  lemma UndefinedBelowOctave()
    ensures TransposeChord("C", -13) == "undefined"
    ensures TransposeChordWrapped("C", -13) == "B"
  {
    SplitC();
    RootCBelow();
    RootCWrapped();
  }

  lemma RootCBelow()
    ensures TransposeRoot("C", -13) == None
  {
    CIndex();
    var index := NoteIndex(NormalizeRoot("C"));
    assert index + -13 + 12 == -1;
    assert JsRem12(-1) == -1;
  }

  lemma RootCWrapped()
    ensures TransposeRootWrapped("C", -13) == "B"
  {
    CIndex();
    var index := NoteIndex(NormalizeRoot("C"));
    assert (index + -13) % 12 == 11;
    assert NoteSequence[11] == "B";
  }

  lemma SplitC()
    ensures SplitChord("C") == Some(("C", ""))
  {
    var c := "C";
    assert c[1..] == "" && c[..1] == c;
  }

  lemma CIndex()
    ensures NoteIndex(NormalizeRoot("C")) == 0
  {
    assert FlatToSharp("C").None?;
  }
}
