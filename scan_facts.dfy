/**
 * Facts about the scanners of module Markers: a scan covers its text, finds its
 * matches where `regex.exec` does, is reproduced by scanning its own text after the
 * marker contents are rewritten, and the transposition pattern rewrites the same chord
 * markers the tokenizers find.
 */
module ScanFacts {
  import opened Text
  import opened Seqs
  import opened SongTypes
  import opened Markers

  // ---------------------------------------------------------------------------
  // Concatenation and single-character steps

  lemma {:induction false} FlattenAppend(a: seq<Segment>, b: seq<Segment>)
    ensures Flatten(a + b) == Flatten(a) + Flatten(b)
  {
    if a != [] {
      assert (a + b)[1..] == a[1..] + b;
      FlattenAppend(a[1..], b);
    } else {
      assert a + b == b;
    }
  }

  lemma {:induction false} RelabelAppend(a: seq<Segment>, b: seq<Segment>, f: string -> string)
    ensures Relabel(a + b, f) == Relabel(a, f) + Relabel(b, f)
  {
    if a != [] {
      assert (a + b)[1..] == a[1..] + b;
      RelabelAppend(a[1..], b, f);
    } else {
      assert a + b == b;
    }
  }

  lemma {:induction false} StripAppend(a: seq<Segment>, b: seq<Segment>)
    ensures StripMarkers(a + b) == StripMarkers(a) + StripMarkers(b)
    ensures MarkerContents(a + b) == MarkerContents(a) + MarkerContents(b)
  {
    if a != [] {
      assert (a + b)[1..] == a[1..] + b;
      StripAppend(a[1..], b);
    } else {
      assert a + b == b;
    }
  }

  lemma RelabelMarker(c: string, rest: seq<Segment>, f: string -> string)
    ensures Relabel([Marker(c)] + rest, f) == [Marker(f(c))] + Relabel(rest, f)
  {
    assert ([Marker(c)] + rest)[1..] == rest;
  }

  lemma FlattenMarker(c: string, rest: seq<Segment>)
    ensures Flatten([Marker(c)] + rest) == "[" + c + "]" + Flatten(rest)
  {
    assert ([Marker(c)] + rest)[1..] == rest;
  }

  lemma FlattenAddChar(c: char, segs: seq<Segment>)
    ensures Flatten(AddChar(c, segs)) == [c] + Flatten(segs)
  {
    if segs != [] && segs[0].Gap? {
      var r := AddChar(c, segs);
      assert r[1..] == segs[1..];
      assert Flatten(segs) == segs[0].text + Flatten(segs[1..]);
    } else {
      assert ([Gap([c])] + segs)[1..] == segs;
    }
  }

  lemma RelabelAddChar(c: char, segs: seq<Segment>, f: string -> string)
    ensures Relabel(AddChar(c, segs), f) == AddChar(c, Relabel(segs, f))
  {
    var r := AddChar(c, segs);
    assert r[1..] == (if segs != [] && segs[0].Gap? then segs[1..] else segs);
    if segs != [] && segs[0].Gap? {
      assert Relabel(segs, f) == [Gap(segs[0].text)] + Relabel(segs[1..], f);
    }
  }

  lemma StripAddChar(c: char, segs: seq<Segment>)
    ensures StripMarkers(AddChar(c, segs)) == [c] + StripMarkers(segs)
    ensures MarkerContents(AddChar(c, segs)) == MarkerContents(segs)
  {
    var r := AddChar(c, segs);
    assert StripMarkers(r) == r[0].text + StripMarkers(r[1..]);
    assert MarkerContents(r) == MarkerContents(r[1..]);
    if segs != [] && segs[0].Gap? {
      assert r[1..] == segs[1..];
      assert StripMarkers(segs) == segs[0].text + StripMarkers(segs[1..]);
      assert MarkerContents(segs) == MarkerContents(segs[1..]);
    } else {
      assert r[1..] == segs;
    }
  }

  lemma NestedAddChar(c: char, segs: seq<Segment>)
    ensures NoNestedOpen(AddChar(c, segs)) ==> NoNestedOpen(segs)
  {
    var r := AddChar(c, segs);
    if NoNestedOpen(r) {
      var d := if segs != [] && segs[0].Gap? then 0 else 1;
      forall i | 0 <= i < |segs| && segs[i].Marker? ensures '[' !in segs[i].content {
        assert segs[i] == r[i + d];
      }
    }
  }

  lemma {:induction false} RelabelPrepend(t: string, segs: seq<Segment>, f: string -> string)
    ensures Relabel(Prepend(t, segs), f) == Prepend(t, Relabel(segs, f))
  {
    if t != [] {
      RelabelPrepend(t[1..], segs, f);
      RelabelAddChar(t[0], Prepend(t[1..], segs), f);
    }
  }

  lemma {:induction false} FlattenPrepend(t: string, segs: seq<Segment>)
    ensures Flatten(Prepend(t, segs)) == t + Flatten(segs)
  {
    if t != [] {
      var x := Prepend(t[1..], segs);
      FlattenPrepend(t[1..], segs);
      FlattenAddChar(t[0], x);
      assert Flatten(Prepend(t, segs)) == [t[0]] + (t[1..] + Flatten(segs));
      assert t == [t[0]] + t[1..];
    }
  }

  /** Before a marker or the end, the prepended text is one gap of its own. */
  lemma {:induction false} PrependBeforeMarker(t: string, segs: seq<Segment>)
    requires segs == [] || segs[0].Marker?
    ensures Prepend(t, segs) == GapOf(t) + segs
  {
    if t != [] {
      PrependBeforeMarker(t[1..], segs);
      if t[1..] == [] {
        assert t == [t[0]];
      } else {
        assert [t[0]] + t[1..] == t;
        assert (GapOf(t[1..]) + segs)[1..] == segs;
      }
    }
  }

  // ---------------------------------------------------------------------------
  // A scan covers its text exactly

  lemma SliceBracket(s: string, q: nat)
    requires 0 < q < |s| && s[0] == '[' && s[q] == ']'
    ensures s == "[" + s[1..q] + "]" + s[q + 1..]
  {
  }

  /** Gluing the segments back together gives the scanned text: nothing is lost or added. */
  lemma {:induction false} ScanCovers(s: string, chordOnly: bool)
    ensures Flatten(Scan(s, chordOnly)) == s
    decreases |s|
  {
    if s == [] {
    } else if Opens(s, chordOnly) {
      var q := Close(s);
      CloseFirst(s);
      ScanCovers(s[q + 1..], chordOnly);
      FlattenMarker(s[1..q], Scan(s[q + 1..], chordOnly));
      SliceBracket(s, q);
    } else {
      ScanCovers(s[1..], chordOnly);
      FlattenAddChar(s[0], Scan(s[1..], chordOnly));
      assert s == [s[0]] + s[1..];
    }
  }

  // ---------------------------------------------------------------------------
  // The scan finds its matches where `regex.exec` does

  /** Text in which no match starts joins the leading gap of the scan of what follows. */
  lemma {:induction false} ScanSkip(s: string, k: nat, chordOnly: bool)
    requires OpensNone(s, 0, k, chordOnly)
    ensures Scan(s, chordOnly) == Prepend(s[..k], Scan(s[k..], chordOnly))
  {
    if k > 0 {
      assert !OpensAt(s, 0, chordOnly);
      assert s[0..] == s;
      forall i | 0 <= i < k - 1 ensures !OpensAt(s[1..], i, chordOnly) {
        assert s[1..][i..] == s[i + 1..];
        assert !OpensAt(s, i + 1, chordOnly);
      }
      ScanSkip(s[1..], k - 1, chordOnly);
      assert s[1..][..k - 1] == s[..k][1..];
      assert s[1..][k - 1..] == s[k..];
    }
  }

  /** A match at the start of `s` becomes its first marker. */
  lemma ScanOpens(s: string, chordOnly: bool)
    requires Opens(s, chordOnly)
    ensures Scan(s, chordOnly) == [Marker(s[1..Close(s)])] + Scan(s[Close(s) + 1..], chordOnly)
  {
  }

  /** `ScanSkip` for a stretch `line[from..p]` of a line. */
  lemma ScanSkipLine(line: string, from: nat, p: nat, chordOnly: bool)
    requires OpensNone(line, from, p, chordOnly)
    ensures Scan(line[from..], chordOnly) == Prepend(line[from..p], Scan(line[p..], chordOnly))
  {
    var s := line[from..];
    forall i | 0 <= i < p - from ensures !OpensAt(s, i, chordOnly) {
      assert s[i..] == line[from + i..];
      assert !OpensAt(line, from + i, chordOnly);
    }
    ScanSkip(s, p - from, chordOnly);
    assert s[..p - from] == line[from..p];
    assert s[p - from..] == line[p..];
  }

  /** A match at `p` of a line: the scan from `p` is its marker followed by the scan after it. */
  lemma ScanOpensAt(line: string, p: nat, q: nat, chordOnly: bool)
    requires OpensAt(line, p, chordOnly) && q == CloseOf(line, p)
    ensures q < |line| && Scan(line[p..], chordOnly) == [Marker(line[p + 1..q])] + Scan(line[q + 1..], chordOnly)
  {
    var t := line[p..];
    ScanOpens(t, chordOnly);
    assert t[1..Close(t)] == line[p + 1..q];
    assert t[Close(t) + 1..] == line[q + 1..];
  }

  /** `exec` found a match at `p`: the scan from `from` is the gap before it, the marker, and the scan after it. */
  lemma ExecFound(line: string, from: nat, p: nat, q: nat, chordOnly: bool)
    requires from <= p && FirstOpen(line, from, p, chordOnly) && q == CloseOf(line, p)
    ensures q < |line|
    ensures Scan(line[from..], chordOnly) == GapOf(line[from..p]) + [Marker(line[p + 1..q])] + Scan(line[q + 1..], chordOnly)
  {
    ScanSkipLine(line, from, p, chordOnly);
    ScanOpensAt(line, p, q, chordOnly);
    FoundJoin(Scan(line[from..], chordOnly), line[from..p], Scan(line[p..], chordOnly),
              Marker(line[p + 1..q]), Scan(line[q + 1..], chordOnly));
  }

  lemma FoundJoin(whole: seq<Segment>, before: string, at: seq<Segment>, m: Segment, after: seq<Segment>)
    requires m.Marker? && whole == Prepend(before, at) && at == [m] + after
    ensures whole == GapOf(before) + [m] + after
  {
    PrependBeforeMarker(before, at);
    Assoc(GapOf(before), [m], after);
  }

  /** `exec` found nothing: the rest of the line is one gap. */
  lemma ExecNone(line: string, from: nat, chordOnly: bool)
    requires OpensNone(line, from, |line|, chordOnly)
    ensures Scan(line[from..], chordOnly) == GapOf(line[from..])
  {
    var s := line[from..];
    forall i | 0 <= i < |s| ensures !OpensAt(s, i, chordOnly) {
      assert s[i..] == line[from + i..];
      assert !OpensAt(line, from + i, chordOnly);
    }
    ScanSkip(s, |s|, chordOnly);
    assert s[..|s|] == s && s[|s|..] == [];
    PrependBeforeMarker(s, []);
  }

  // ---------------------------------------------------------------------------
  // Rewriting marker contents and scanning again

  /** A bracketed good content opens a match that closes at its own `]`. */
  lemma ScanMarker(c: string, v: string)
    requires GoodContent(c)
    ensures Scan("[" + c + "]" + v, false) == [Marker(c)] + Scan(v, false)
  {
    var u := "[" + c + "]" + v;
    assert u[1 + |c|] == ']';
    forall i | 0 < i < 1 + |c| ensures u[i] != ']' {
      assert u[i] == c[i - 1];
    }
    assert u[1..][|c|] == ']';
    IndexOfIs(u[1..], ']', |c|);
    assert Close(u) == 1 + |c|;
    assert u[1] == c[0];
    assert u[1..1 + |c|] == c;
    assert u[|c| + 2..] == v;
  }

  lemma CloseInside(u: string)
    requires u != []
    ensures Close(u) < |u| <==> ']' in u[1..]
  {
    var q := Close(u);
    CloseFirst(u);
    if q < |u| {
      assert u[1..][q - 1] == ']';
    }
    if ']' in u[1..] {
      var j :| 0 <= j < |u[1..]| && u[1..][j] == ']';
      assert u[j + 1] == ']';
    }
  }

  lemma InConcat(x: char, a: string, b: string)
    ensures x in a + b <==> x in a || x in b
  {
    if x in a + b {
      var i :| 0 <= i < |a + b| && (a + b)[i] == x;
      if i >= |a| { assert b[i - |a|] == x; }
    }
    if x in b {
      var i :| 0 <= i < |b| && b[i] == x;
      assert (a + b)[|a| + i] == x;
    }
  }

  /** The first segment's text and the text of the rest, before and after rewriting. */
  lemma RelabelUnfold(segs: seq<Segment>, f: string -> string)
    requires segs != []
    ensures Flatten(segs) == SegText(segs[0]) + Flatten(segs[1..])
    ensures Flatten(Relabel(segs, f))
         == SegText(Relabel([segs[0]], f)[0]) + Flatten(Relabel(segs[1..], f))
    ensures Relabel([segs[0]], f)[0] == (match segs[0] case Gap(t) => Gap(t) case Marker(c) => Marker(f(c)))
  {
    var r := Relabel(segs, f);
    assert r[1..] == Relabel(segs[1..], f);
  }

  /** Rewriting marker contents leaves the emptiness and the first character of the text alone. */
  lemma {:induction false} RelabelHead(segs: seq<Segment>, f: string -> string)
    ensures var a := Flatten(segs); var b := Flatten(Relabel(segs, f));
            (a == [] <==> b == []) && (a != [] ==> a[0] == b[0])
  {
    if segs != [] {
      RelabelHead(segs[1..], f);
      RelabelUnfold(segs, f);
    }
  }

  /** Rewriting marker contents leaves the presence of a `]` in the text alone. */
  lemma {:induction false} RelabelClose(segs: seq<Segment>, f: string -> string)
    ensures ']' in Flatten(segs) <==> ']' in Flatten(Relabel(segs, f))
  {
    if segs != [] {
      RelabelClose(segs[1..], f);
      RelabelUnfold(segs, f);
      var h := SegText(segs[0]);
      var h' := SegText(Relabel([segs[0]], f)[0]);
      InConcat(']', h, Flatten(segs[1..]));
      InConcat(']', h', Flatten(Relabel(segs[1..], f)));
      if segs[0].Marker? {
        assert h[|h| - 1] == ']' && h'[|h'| - 1] == ']';
      }
    }
  }

  /** Whether a match opens at a `c` put in front depends only on what `RelabelHead` and `RelabelClose` keep. */
  lemma OpensAgree(c: char, segs: seq<Segment>, f: string -> string)
    ensures Opens([c] + Flatten(segs), false) <==> Opens([c] + Flatten(Relabel(segs, f)), false)
  {
    var a := Flatten(segs);
    var b := Flatten(Relabel(segs, f));
    RelabelHead(segs, f);
    RelabelClose(segs, f);
    CloseInside([c] + a);
    CloseInside([c] + b);
    assert ([c] + a)[1..] == a && ([c] + b)[1..] == b;
  }

  /**
   * The tokenizers' scan of a text rewritten marker by marker finds the rewritten
   * markers, provided the rewriting keeps contents capturable.
   */
  lemma {:induction false} ScanRelabel(s: string, f: string -> string)
    requires forall c :: GoodContent(c) ==> GoodContent(f(c))
    ensures Scan(Flatten(Relabel(Scan(s, false), f)), false) == Relabel(Scan(s, false), f)
    decreases |s|
  {
    if s == [] {
    } else if Opens(s, false) {
      ScanRelabel(s[Close(s) + 1..], f);
      OpenedGood(s);
      RelabelAtMarker(s, f);
    } else {
      ScanRelabel(s[1..], f);
      RelabelAtFirst(s, f);
    }
  }

  /** The step of `ScanRelabel` at a match, given what it states of the text after the match. */
  lemma RelabelAtMarker(s: string, f: string -> string)
    requires Opens(s, false) && GoodContent(f(s[1..Close(s)]))
    requires var rest := Scan(s[Close(s) + 1..], false);
             Scan(Flatten(Relabel(rest, f)), false) == Relabel(rest, f)
    ensures Scan(Flatten(Relabel(Scan(s, false), f)), false) == Relabel(Scan(s, false), f)
  {
    var q := Close(s);
    var c := s[1..q];
    var rest := Scan(s[q + 1..], false);
    OpenedGood(s);
    MarkerRoundTrip(c, rest, f);
  }

  /** What the tokenizers' pattern captures at a match is a good content, and it becomes the first marker. */
  lemma OpenedGood(s: string)
    requires Opens(s, false)
    ensures GoodContent(s[1..Close(s)])
    ensures Scan(s, false) == [Marker(s[1..Close(s)])] + Scan(s[Close(s) + 1..], false)
  {
    var c := s[1..Close(s)];
    CloseFirst(s);
    assert c[0] == s[1];
    forall i | 0 <= i < |c| ensures c[i] != ']' {
      assert c[i] == s[i + 1];
    }
  }

  /** A good marker in front of a scan that reads back: the relabelled whole reads back too. */
  lemma MarkerRoundTrip(c: string, rest: seq<Segment>, f: string -> string)
    requires GoodContent(f(c))
    requires Scan(Flatten(Relabel(rest, f)), false) == Relabel(rest, f)
    ensures var whole := [Marker(c)] + rest;
            Scan(Flatten(Relabel(whole, f)), false) == Relabel(whole, f)
  {
    RelabelMarker(c, rest, f);
    FlattenMarker(f(c), Relabel(rest, f));
    ScanMarker(f(c), Flatten(Relabel(rest, f)));
  }

  /** `RelabelAtPlain` for a text cut after its first character. */
  lemma RelabelAtFirst(s: string, f: string -> string)
    requires s != [] && !Opens(s, false)
    requires var r := Scan(s[1..], false);
             Scan(Flatten(Relabel(r, f)), false) == Relabel(r, f)
    ensures Scan(Flatten(Relabel(Scan(s, false), f)), false) == Relabel(Scan(s, false), f)
  {
    assert s == [s[0]] + s[1..];
    RelabelAtPlain(s[0], s[1..], f);
  }

  /** The step of `ScanRelabel` at a character where no match starts. */
  lemma RelabelAtPlain(c: char, t: string, f: string -> string)
    requires !Opens([c] + t, false)
    requires var r := Scan(t, false);
             Scan(Flatten(Relabel(r, f)), false) == Relabel(r, f)
    ensures var s := [c] + t;
            Scan(Flatten(Relabel(Scan(s, false), f)), false) == Relabel(Scan(s, false), f)
  {
    var r := Scan(t, false);
    ScanPlainCons(c, t);
    ScanCovers(t, false);
    OpensAgree(c, r, f);
    AddCharRoundTrip(c, r, f);
  }

  /** A character where no match starts, in front of a scan that reads back: the relabelled whole reads back too. */
  lemma AddCharRoundTrip(c: char, r: seq<Segment>, f: string -> string)
    requires !Opens([c] + Flatten(Relabel(r, f)), false)
    requires Scan(Flatten(Relabel(r, f)), false) == Relabel(r, f)
    ensures var whole := AddChar(c, r);
            Scan(Flatten(Relabel(whole, f)), false) == Relabel(whole, f)
  {
    RelabelAddChar(c, r, f);
    FlattenAddChar(c, Relabel(r, f));
    ScanPlainCons(c, Flatten(Relabel(r, f)));
  }

  /** A text holding no `[` scans as one gap, or as nothing when it is empty. */
  lemma {:induction false} ScanNoBracket(s: string, chordOnly: bool)
    ensures '[' !in s ==> Scan(s, chordOnly) == GapOf(s)
    decreases |s|
  {
    if s != [] && '[' !in s {
      var c, t := s[0], s[1..];
      assert s == [c] + t;
      ScanNoBracket(t, chordOnly);
      PlainCons(c, t, chordOnly);
      AddCharGap(c, t);
    }
  }

  /** A character other than `[` joins the leading gap of the scan after it. */
  lemma PlainCons(c: char, t: string, chordOnly: bool)
    requires c != '['
    ensures Scan([c] + t, chordOnly) == AddChar(c, Scan(t, chordOnly))
  {
    assert ([c] + t)[1..] == t;
  }

  /** A character put before the gap of `t` gives the gap of both. */
  lemma AddCharGap(c: char, t: string)
    ensures AddChar(c, GapOf(t)) == GapOf([c] + t)
  {
    if t == [] {
      assert [c] + t == [c];
    }
  }

  /** Rewriting the markers of a text holding no `[` gives the text back. */
  lemma PlainKept(s: string, f: string -> string)
    ensures '[' !in s ==> Flatten(Relabel(Scan(s, true), f)) == s
  {
    ScanNoBracket(s, true);
    if '[' !in s && s != [] {
      assert Relabel([Gap(s)], f) == [Gap(s)] + Relabel([], f);
      assert Flatten([Gap(s)]) == s + Flatten([]);
    }
  }

  /** A character where no match starts joins the leading gap of the scan after it. */
  lemma ScanPlainCons(c: char, t: string)
    requires !Opens([c] + t, false)
    ensures Scan([c] + t, false) == AddChar(c, Scan(t, false))
  {
    assert ([c] + t)[1..] == t;
  }

  // ---------------------------------------------------------------------------
  // The transposition pattern finds the chord markers of the tokenizers' pattern

  /**
   * When no marker content holds a `[`, and `f` leaves alone every content that does not
   * start with a note letter, relabelling the transposition pattern's matches gives the
   * same text as relabelling all of the tokenizers' matches.
   */
  lemma {:induction false} ChordScanAgrees(s: string, f: string -> string)
    requires NoNestedOpen(Scan(s, false))
    requires forall c :: !StartsWithNoteLetter(c) ==> f(c) == c
    ensures Flatten(Relabel(Scan(s, true), f)) == Flatten(Relabel(Scan(s, false), f))
    decreases |s|
  {
    if s == [] {
    } else if Opens(s, false) {
      NoNestedSplit(s);
      ChordScanAgrees(s[Close(s) + 1..], f);
      AgreeAtMarker(s, f);
    } else {
      NestedAddChar(s[0], Scan(s[1..], false));
      ChordScanAgrees(s[1..], f);
      AgreeAtPlain(s, f);
    }
  }

  /** The first marker of a tokenizer scan holds no `[` and neither does any later one. */
  lemma NoNestedSplit(s: string)
    requires Opens(s, false) && NoNestedOpen(Scan(s, false))
    ensures '[' !in s[1..Close(s)] && NoNestedOpen(Scan(s[Close(s) + 1..], false))
  {
    var q := Close(s);
    var rest := Scan(s[q + 1..], false);
    ScanOpens(s, false);
    assert Scan(s, false)[0] == Marker(s[1..q]);
    forall i | 0 <= i < |rest| && rest[i].Marker? ensures '[' !in rest[i].content {
      assert rest[i] == Scan(s, false)[i + 1];
    }
  }

  lemma AgreeAtMarker(s: string, f: string -> string)
    requires Opens(s, false) && '[' !in s[1..Close(s)]
    requires forall c :: !StartsWithNoteLetter(c) ==> f(c) == c
    requires Flatten(Relabel(Scan(s[Close(s) + 1..], true), f))
          == Flatten(Relabel(Scan(s[Close(s) + 1..], false), f))
    ensures Flatten(Relabel(Scan(s, true), f)) == Flatten(Relabel(Scan(s, false), f))
  {
    MarkerText(s, false, f);
    if 'A' <= s[1] <= 'G' {
      MarkerText(s, true, f);
    } else {
      AgreeAtNonChord(s, f);
      NonChordKept(s, f);
    }
  }

  /** The transposition pattern skips a marker whose content does not start with a note letter. */
  lemma AgreeAtNonChord(s: string, f: string -> string)
    requires Opens(s, false) && '[' !in s[1..Close(s)] && !('A' <= s[1] <= 'G')
    ensures Flatten(Relabel(Scan(s, true), f)) == s[..Close(s) + 1] + Flatten(Relabel(Scan(s[Close(s) + 1..], true), f))
  {
    var q := Close(s);
    var rest := Scan(s[q + 1..], true);
    BracketScan(s, q);
    RelabelPrepend(s[..q + 1], rest, f);
    FlattenPrepend(s[..q + 1], Relabel(rest, f));
  }

  /** The transposition pattern's scan reads such a marker as text put before the scan after it. */
  lemma BracketScan(s: string, q: nat)
    requires Opens(s, false) && q == Close(s) && !('A' <= s[1] <= 'G')
    requires '[' !in s[1..q]
    ensures Scan(s, true) == Prepend(s[..q + 1], Scan(s[q + 1..], true))
  {
    BracketSkipped(s, q);
    ScanSkip(s, q + 1, true);
  }

  /** Such a marker is kept, brackets and all, by a rewrite that keeps non-chord contents. */
  lemma NonChordKept(s: string, f: string -> string)
    requires Opens(s, false) && !('A' <= s[1] <= 'G')
    requires forall c :: !StartsWithNoteLetter(c) ==> f(c) == c
    ensures "[" + f(s[1..Close(s)]) + "]" == s[..Close(s) + 1]
  {
    CloseFirst(s);
    KeptBracket(s, Close(s), f);
  }

  /** The content of a bracket whose first character is no note letter is kept, brackets and all. */
  lemma KeptBracket(s: string, q: nat, f: string -> string)
    requires 1 < q < |s| && s[0] == '[' && s[q] == ']' && !('A' <= s[1] <= 'G')
    requires forall c :: !StartsWithNoteLetter(c) ==> f(c) == c
    ensures f(s[1..q]) == s[1..q] && s[..q + 1] == "[" + s[1..q] + "]"
  {
    assert s[1..q][0] == s[1];
    BracketPrefix(s, q);
  }

  /** The text of a relabelled scan that starts with a match. */
  lemma MarkerText(s: string, chordOnly: bool, f: string -> string)
    requires Opens(s, chordOnly)
    ensures Flatten(Relabel(Scan(s, chordOnly), f))
         == "[" + f(s[1..Close(s)]) + "]" + Flatten(Relabel(Scan(s[Close(s) + 1..], chordOnly), f))
  {
    var rest := Scan(s[Close(s) + 1..], chordOnly);
    ScanOpens(s, chordOnly);
    RelabelMarker(s[1..Close(s)], rest, f);
    FlattenMarker(f(s[1..Close(s)]), Relabel(rest, f));
  }

  lemma BracketPrefix(s: string, q: nat)
    requires 0 < q < |s| && s[0] == '[' && s[q] == ']'
    ensures s[..q + 1] == "[" + s[1..q] + "]"
  {
  }

  lemma AgreeAtPlain(s: string, f: string -> string)
    requires s != [] && !Opens(s, false)
    requires Flatten(Relabel(Scan(s[1..], true), f)) == Flatten(Relabel(Scan(s[1..], false), f))
    ensures Flatten(Relabel(Scan(s, true), f)) == Flatten(Relabel(Scan(s, false), f))
  {
    assert !Opens(s, true);
    RelabelAddChar(s[0], Scan(s[1..], true), f);
    RelabelAddChar(s[0], Scan(s[1..], false), f);
    FlattenAddChar(s[0], Relabel(Scan(s[1..], true), f));
    FlattenAddChar(s[0], Relabel(Scan(s[1..], false), f));
  }

  /** A bracketed content without `[` and without a note letter holds no match of the transposition pattern. */
  lemma BracketSkipped(s: string, q: nat)
    requires Opens(s, false) && q == Close(s) && !('A' <= s[1] <= 'G')
    requires '[' !in s[1..q]
    ensures OpensNone(s, 0, q + 1, true)
  {
    CloseFirst(s);
    NoOpenInside(s, q);
    BracketNoChord(s, q);
  }

  /** No `[` in `s[1..q]`: no `[` at the positions strictly between 0 and `q`. */
  lemma NoOpenInside(s: string, q: nat)
    requires 1 <= q <= |s| && '[' !in s[1..q]
    ensures forall i :: 0 < i < q ==> s[i] != '['
  {
    forall i | 0 < i < q ensures s[i] != '[' {
      assert s[i] == s[1..q][i - 1];
    }
  }

  /** `[`, a first character that is no note letter, no `[` up to the `]` at `q`: no chord match starts there. */
  lemma BracketNoChord(s: string, q: nat)
    requires 1 < |s| && q < |s| && s[0] == '[' && !('A' <= s[1] <= 'G') && s[q] == ']'
    requires forall i :: 0 < i < q ==> s[i] != '['
    ensures OpensNone(s, 0, q + 1, true)
  {
    forall i | 0 <= i < q + 1 ensures !OpensAt(s, i, true) {
      if i == 0 {
        assert s[0..] == s;
      } else {
        NotOpenAt(s, i, true);
      }
    }
  }

  /** No match starts at a character other than `[`. */
  lemma NotOpenAt(s: string, i: nat, chordOnly: bool)
    requires i < |s| && s[i] != '['
    ensures !OpensAt(s, i, chordOnly)
  {
    assert s[i..][0] == s[i];
  }
}
