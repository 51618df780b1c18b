/**
 * The visual song editor (src/components/SongEditor.tsx): the source is edited line by
 * line, and a lyric line is edited as its lyrics plus a list of chords, each standing at
 * a character offset of the lyrics. Every change to the lyrics or the chords writes the
 * line again with `reconstructLine`, which puts each chord's `[name]` marker before the
 * lyric character at its offset.
 */
module SongEditor {
  import opened Text
  import opened Seqs
  import opened SongTypes
  import opened Markers
  import opened ScanFacts
  import ChordPro

  /** `{ name, index, originalTokenIndex }`: a chord of the line and its lyric offset. */
  datatype ChordPos = ChordPos(name: string, index: nat, originalTokenIndex: int)

  /** A chord marker to write and the lyric offset it is written before. */
  datatype Place = Place(name: string, at: nat)

  // ---------------------------------------------------------------------------
  // From a line's tokens to lyrics and chords

  /**
   * The chords of the tokens `ts`, the first of which is token number `first` and starts
   * at lyric offset `offset`: one entry for every token whose chord is truthy.
   */
  function ChordsFrom(ts: seq<Token>, offset: nat, first: nat): seq<ChordPos>
    decreases |ts|
  {
    if ts == [] then []
    else (if HasChord(ts[0]) then [ChordPos(ts[0].chord.value, offset, first)] else [])
         + ChordsFrom(ts[1..], offset + |ts[0].lyric|, first + 1)
  }

  /** The chords of a whole token list. */
  function ChordsOfLine(ts: seq<Token>): seq<ChordPos> {
    ChordsFrom(ts, 0, 0)
  }

  /** The `tokens.forEach` loop of `LineEditor`: the lyrics and the chords of a line's tokens. */
  method ExtractChords(tokens: seq<Token>) returns (lyrics: string, chords: seq<ChordPos>)
    ensures lyrics == Lyrics(tokens) && chords == ChordsOfLine(tokens)
  {
    lyrics := "";
    chords := [];
    var currentLen := 0;
    for i := 0 to |tokens|
      invariant lyrics == Lyrics(tokens[..i]) && currentLen == |lyrics|
      invariant chords + ChordsFrom(tokens[i..], currentLen, i) == ChordsOfLine(tokens)
    {
      var token := tokens[i];
      var chords' := chords;
      if HasChord(token) {
        chords' := chords + [ChordPos(token.chord.value, currentLen, i)];
      }
      ChordsFromStep(tokens, i, currentLen, chords, chords');
      chords := chords';
      lyrics := lyrics + token.lyric;
      currentLen := currentLen + |token.lyric|;
      assert tokens[..i + 1][..i] == tokens[..i];
    }
    assert tokens[..|tokens|] == tokens;
  }

  /** One turn of the extraction loop keeps the chords found so far and the rest together. */
  lemma ChordsFromStep(ts: seq<Token>, i: nat, offset: nat, found: seq<ChordPos>, found': seq<ChordPos>)
    requires i < |ts|
    requires found' == found + if HasChord(ts[i]) then [ChordPos(ts[i].chord.value, offset, i)] else []
    ensures found + ChordsFrom(ts[i..], offset, i) == found' + ChordsFrom(ts[i + 1..], offset + |ts[i].lyric|, i + 1)
  {
    assert ts[i..][1..] == ts[i + 1..];
  }

  // ---------------------------------------------------------------------------
  // What the extracted chords are

  /** The chord names of a chord list, in order. */
  function Names(cs: seq<ChordPos>): (r: seq<string>)
    ensures |r| == |cs|
  {
    seq(|cs|, i requires 0 <= i < |cs| => cs[i].name)
  }

  /**
   * Each extracted chord comes from a token of the line, counted from `first`: that
   * token's chord is truthy and is the chord's name, and the chord's offset is the length
   * of the lyrics of the tokens before it, counted from `offset`.
   */
  lemma {:induction false} ChordsFromTokens(ts: seq<Token>, offset: nat, first: nat, j: nat, c: ChordPos)
    requires j < |ChordsFrom(ts, offset, first)| && c == ChordsFrom(ts, offset, first)[j]
    ensures first <= c.originalTokenIndex < first + |ts|
    ensures HasChord(ts[c.originalTokenIndex - first])
    ensures c.name == ts[c.originalTokenIndex - first].chord.value
    ensures c.index == offset + |Lyrics(ts[..c.originalTokenIndex - first])|
    decreases |ts|
  {
    var t := ts[0];
    var rest := ts[1..];
    var offset' := offset + |t.lyric|;
    var first' := first + 1;
    var head := if HasChord(t) then [ChordPos(t.chord.value, offset, first)] else [];
    var tail := ChordsFrom(rest, offset', first');
    assert ChordsFrom(ts, offset, first) == head + tail;
    if j < |head| {
      assert ts[..0] == [];
    } else {
      var j' := j - |head|;
      assert c == tail[j'];
      ChordsFromTokens(rest, offset', first', j', c);
      TokenInTail(ts, offset, first, offset', first', c);
    }
  }

  /** A chord taken from the tokens after the first one, seen from the whole list. */
  lemma TokenInTail(ts: seq<Token>, offset: nat, first: nat, offset': nat, first': nat, c: ChordPos)
    requires ts != [] && offset' == offset + |ts[0].lyric| && first' == first + 1
    requires first' <= c.originalTokenIndex < first' + |ts[1..]|
    requires HasChord(ts[1..][c.originalTokenIndex - first'])
    requires c.name == ts[1..][c.originalTokenIndex - first'].chord.value
    requires c.index == offset' + |Lyrics(ts[1..][..c.originalTokenIndex - first'])|
    ensures first <= c.originalTokenIndex < first + |ts|
    ensures HasChord(ts[c.originalTokenIndex - first])
    ensures c.name == ts[c.originalTokenIndex - first].chord.value
    ensures c.index == offset + |Lyrics(ts[..c.originalTokenIndex - first])|
  {
    var rest := ts[1..];
    var o := c.originalTokenIndex - first;
    var o' := c.originalTokenIndex - first';
    assert rest[o'] == ts[o];
    assert ts[..o] == [ts[0]] + rest[..o'];
    LyricsCons(ts[0], rest[..o']);
  }

  /** Chords have non-decreasing offsets, within the lyrics. */
  predicate SortedByIndex(cs: seq<ChordPos>) {
    forall i, j :: 0 <= i < j < |cs| ==> cs[i].index <= cs[j].index
  }

  /**
   * The extracted chords come in token order: their offsets never decrease and lie
   * within the lyrics, and their token numbers strictly increase.
   */
  lemma {:induction false} ChordsFromOrdered(ts: seq<Token>, offset: nat, first: nat)
    ensures var cs := ChordsFrom(ts, offset, first);
            SortedByIndex(cs) &&
            (forall i :: 0 <= i < |cs| ==> offset <= cs[i].index <= offset + |Lyrics(ts)|) &&
            (forall i :: 0 <= i < |cs| ==> first <= cs[i].originalTokenIndex < first + |ts|) &&
            (forall i, j :: 0 <= i < j < |cs| ==> cs[i].originalTokenIndex < cs[j].originalTokenIndex)
    decreases |ts|
  {
    if ts != [] {
      var t := ts[0];
      var rest := ts[1..];
      var offset' := offset + |t.lyric|;
      var first' := first + 1;
      var head := if HasChord(t) then [ChordPos(t.chord.value, offset, first)] else [];
      var tail := ChordsFrom(rest, offset', first');
      assert ChordsFrom(ts, offset, first) == head + tail;
      ChordsFromOrdered(rest, offset', first');
      assert ts == [t] + rest;
      LyricsCons(t, rest);
      OrderedCons(head, tail, offset, |t.lyric|, |Lyrics(rest)|, first, |rest|);
    }
  }

  /** A chord at the front offset and token number, before chords in order further on. */
  lemma OrderedCons(head: seq<ChordPos>, tail: seq<ChordPos>, offset: nat, len: nat, more: nat, first: nat, count: nat)
    requires |head| <= 1 && (head != [] ==> head[0].index == offset && head[0].originalTokenIndex == first)
    requires SortedByIndex(tail)
    requires forall i :: 0 <= i < |tail| ==> offset + len <= tail[i].index <= offset + len + more
    requires forall i :: 0 <= i < |tail| ==> first + 1 <= tail[i].originalTokenIndex < first + 1 + count
    requires forall i, j :: 0 <= i < j < |tail| ==> tail[i].originalTokenIndex < tail[j].originalTokenIndex
    ensures var cs := head + tail;
            SortedByIndex(cs) &&
            (forall i :: 0 <= i < |cs| ==> offset <= cs[i].index <= offset + (len + more)) &&
            (forall i :: 0 <= i < |cs| ==> first <= cs[i].originalTokenIndex < first + (count + 1)) &&
            (forall i, j :: 0 <= i < j < |cs| ==> cs[i].originalTokenIndex < cs[j].originalTokenIndex)
  {
    var cs := head + tail;
    assert forall i :: |head| <= i < |cs| ==> cs[i] == tail[i - |head|];
  }

  /** The extracted names are the line's chords, in order. */
  lemma {:induction false} ChordsFromNames(ts: seq<Token>, offset: nat, first: nat)
    ensures Names(ChordsFrom(ts, offset, first)) == ChordsOf(ts)
    decreases |ts|
  {
    if ts != [] {
      var t := ts[0];
      var rest := ts[1..];
      var offset' := offset + |t.lyric|;
      var first' := first + 1;
      ChordsFromNames(rest, offset', first');
      assert ts == [t] + rest;
      ChordsOfCons(t, rest);
      var head := if HasChord(t) then [ChordPos(t.chord.value, offset, first)] else [];
      var tail := ChordsFrom(rest, offset', first');
      assert ChordsFrom(ts, offset, first) == head + tail;
      NamesAppend(head, tail);
    }
  }

  /** The names of two chord lists joined are their names joined. */
  lemma NamesAppend(a: seq<ChordPos>, b: seq<ChordPos>)
    ensures Names(a + b) == Names(a) + Names(b)
  {
    var l := Names(a + b);
    var r := Names(a) + Names(b);
    assert forall i :: 0 <= i < |a| ==> l[i] == r[i];
    assert forall i :: |a| <= i < |l| ==> l[i] == (a + b)[i].name == b[i - |a|].name;
  }
  // ---------------------------------------------------------------------------
  // Sorting the chords by offset

  /**
   * `c` put before the first chord whose offset is not smaller: one step of a stable sort
   * by offset, as `Array.prototype.sort` with `(a, b) => a.index - b.index` is.
   */
  function Insert(c: ChordPos, s: seq<ChordPos>): (r: seq<ChordPos>)
    ensures |r| == |s| + 1
  {
    if s == [] || c.index <= s[0].index then [c] + s else [s[0]] + Insert(c, s[1..])
  }

  /** `[...currentChords].sort((a, b) => a.index - b.index)`: a stable sort by offset. */
  function SortByIndex(cs: seq<ChordPos>): (r: seq<ChordPos>)
    ensures |r| == |cs|
  {
    if cs == [] then [] else Insert(cs[0], SortByIndex(cs[1..]))
  }

  /** The chords at offset `v`, in order. */
  function WithIndex(cs: seq<ChordPos>, v: nat): seq<ChordPos> {
    if cs == [] then []
    else (if cs[0].index == v then [cs[0]] else []) + WithIndex(cs[1..], v)
  }

  /** Where `Insert` puts `c`: after the chords of smaller offset at the front of `s`. */
  lemma {:induction false} InsertSplit(c: ChordPos, s: seq<ChordPos>) returns (k: nat)
    ensures k <= |s| && Insert(c, s) == s[..k] + [c] + s[k..]
    ensures forall i :: 0 <= i < k ==> s[i].index < c.index
    ensures k < |s| ==> c.index <= s[k].index
  {
    if s == [] || c.index <= s[0].index {
      k := 0;
    } else {
      var k' := InsertSplit(c, s[1..]);
      k := k' + 1;
      assert s[..k] == [s[0]] + s[1..][..k'];
      assert s[k..] == s[1..][k'..];
    }
  }

  lemma InsertSorted(c: ChordPos, s: seq<ChordPos>)
    requires SortedByIndex(s)
    ensures SortedByIndex(Insert(c, s))
  {
    var k := InsertSplit(c, s);
    var r := Insert(c, s);
    forall i, j | 0 <= i < j < |r| ensures r[i].index <= r[j].index {
      InsertedAt(c, s, k, r, i);
      InsertedAt(c, s, k, r, j);
    }
  }

  lemma InsertedAt(c: ChordPos, s: seq<ChordPos>, k: nat, r: seq<ChordPos>, i: nat)
    requires k <= |s| && r == s[..k] + [c] + s[k..] && i < |r|
    ensures r[i] == if i < k then s[i] else if i == k then c else s[i - 1]
  {
  }

  /** The sort leaves the chords in non-decreasing order of offset. */
  lemma {:induction false} SortSorted(cs: seq<ChordPos>)
    ensures SortedByIndex(SortByIndex(cs))
  {
    if cs != [] {
      SortSorted(cs[1..]);
      InsertSorted(cs[0], SortByIndex(cs[1..]));
    }
  }

  /** The sort keeps every chord, each as often as it was there. */
  lemma {:induction false} SortPermutes(cs: seq<ChordPos>)
    ensures multiset(SortByIndex(cs)) == multiset(cs)
  {
    if cs != [] {
      SortPermutes(cs[1..]);
      InsertPermutes(cs[0], SortByIndex(cs[1..]));
      assert cs == [cs[0]] + cs[1..];
    }
  }

  lemma {:induction false} InsertPermutes(c: ChordPos, s: seq<ChordPos>)
    ensures multiset(Insert(c, s)) == multiset{c} + multiset(s)
  {
    if s != [] && s[0].index < c.index {
      InsertPermutes(c, s[1..]);
      assert s == [s[0]] + s[1..];
    }
  }

  lemma WithIndexCons(x: ChordPos, rest: seq<ChordPos>, v: nat)
    ensures WithIndex([x] + rest, v) == (if x.index == v then [x] else []) + WithIndex(rest, v)
  {
    assert ([x] + rest)[1..] == rest;
  }

  lemma {:induction false} InsertWithIndex(c: ChordPos, s: seq<ChordPos>, v: nat)
    ensures WithIndex(Insert(c, s), v) == (if c.index == v then [c] else []) + WithIndex(s, v)
  {
    var hc := if c.index == v then [c] else [];
    if s == [] || c.index <= s[0].index {
      assert Insert(c, s) == [c] + s;
      WithIndexCons(c, s, v);
    } else {
      var x := s[0];
      var rest := Insert(c, s[1..]);
      var h0 := if x.index == v then [x] else [];
      assert Insert(c, s) == [x] + rest;
      assert s == [x] + s[1..];
      WithIndexCons(x, rest, v);
      WithIndexCons(x, s[1..], v);
      InsertWithIndex(c, s[1..], v);
      assert h0 == [] || hc == [];
      assert h0 + (hc + WithIndex(s[1..], v)) == hc + (h0 + WithIndex(s[1..], v));
    }
  }

  /** The sort is stable: the chords at any one offset keep their order. */
  lemma {:induction false} SortStable(cs: seq<ChordPos>, v: nat)
    ensures WithIndex(SortByIndex(cs), v) == WithIndex(cs, v)
  {
    if cs != [] {
      SortStable(cs[1..], v);
      InsertWithIndex(cs[0], SortByIndex(cs[1..]), v);
    }
  }

  /** Chords already in order of offset come out of the sort as they went in. */
  lemma {:induction false} SortOfSorted(cs: seq<ChordPos>)
    requires SortedByIndex(cs)
    ensures SortByIndex(cs) == cs
  {
    if cs != [] {
      SortOfSorted(cs[1..]);
      assert cs == [cs[0]] + cs[1..];
    }
  }
  // ---------------------------------------------------------------------------
  // Writing the line again

  /** `Math.min(c.index, newLyrics.length)`: chords past the end go to the end. */
  function Clamped(c: ChordPos, len: nat): Place {
    Place(c.name, if c.index < len then c.index else len)
  }

  function ClampAll(cs: seq<ChordPos>, len: nat): (r: seq<Place>)
    ensures |r| == |cs|
  {
    seq(|cs|, i requires 0 <= i < |cs| => Clamped(cs[i], len))
  }

  /** `chordsByIndex.get(i) || []`. */
  function Get(m: map<nat, seq<string>>, i: nat): seq<string> {
    if i in m then m[i] else []
  }

  /** The `chordsByIndex` map: the names of the chords at each clamped offset, in order. */
  function Grouped(cs: seq<ChordPos>, len: nat): map<nat, seq<string>> {
    if cs == [] then map[]
    else
      var m := Grouped(cs[..|cs| - 1], len);
      var p := Clamped(cs[|cs| - 1], len);
      m[p.at := Get(m, p.at) + [p.name]]
  }

  /** A `[name]` marker for each name, in order. */
  function MarkersOf(names: seq<string>): (r: seq<Segment>)
    ensures |r| == |names|
  {
    seq(|names|, k requires 0 <= k < |names| => Marker(names[k]))
  }

  /** The lyric character at position `i`, if there is one, as a gap of its own. */
  function Here(lyr: string, i: nat): seq<Segment> {
    if i < |lyr| then [Gap([lyr[i]])] else []
  }

  /**
   * The segments the writing loop has produced before position `n` of the lyrics: at each
   * position the markers of the chords there, then the lyric character, if any.
   */
  function Written(lyr: string, m: map<nat, seq<string>>, n: nat): seq<Segment> {
    if n == 0 then [] else Written(lyr, m, n - 1) + MarkersOf(Get(m, n - 1)) + Here(lyr, n - 1)
  }

  /** The segments of the line `reconstructLine(lyr, cs)` writes. */
  function Rebuild(lyr: string, cs: seq<ChordPos>): seq<Segment> {
    Written(lyr, Grouped(SortByIndex(cs), |lyr|), |lyr| + 1)
  }

  /** `reconstructLine(newLyrics, currentChords)`: the line with the chords written in. */
  method ReconstructLine(newLyrics: string, currentChords: seq<ChordPos>) returns (result: string)
    ensures result == Flatten(Rebuild(newLyrics, currentChords))
  {
    var sortedChords := SortByIndex(currentChords);
    var chordsByIndex := GroupChords(sortedChords, |newLyrics|);
    result := WriteLine(newLyrics, chordsByIndex);
  }

  /** The `sortedChords.forEach` loop that fills `chordsByIndex`. */
  method GroupChords(sortedChords: seq<ChordPos>, len: nat) returns (chordsByIndex: map<nat, seq<string>>)
    ensures chordsByIndex == Grouped(sortedChords, len)
  {
    chordsByIndex := map[];
    for k := 0 to |sortedChords|
      invariant chordsByIndex == Grouped(sortedChords[..k], len)
    {
      var c := sortedChords[k];
      var idx := if c.index < len then c.index else len;
      var list := if idx in chordsByIndex then chordsByIndex[idx] else [];
      list := list + [c.name];
      chordsByIndex := chordsByIndex[idx := list];
      assert sortedChords[..k + 1][..k] == sortedChords[..k];
    }
    assert sortedChords[..|sortedChords|] == sortedChords;
  }

  /** The `for (let i = 0; i <= newLyrics.length; i++)` loop that writes the line. */
  method WriteLine(newLyrics: string, chordsByIndex: map<nat, seq<string>>) returns (result: string)
    ensures result == Flatten(Written(newLyrics, chordsByIndex, |newLyrics| + 1))
  {
    result := "";
    for i := 0 to |newLyrics| + 1
      invariant result == Flatten(Written(newLyrics, chordsByIndex, i))
    {
      result := WriteAt(newLyrics, chordsByIndex, i, result);
      WrittenStep(newLyrics, chordsByIndex, i);
    }
  }

  /** One turn of the writing loop: the markers of the chords at `i`, then the lyric character there, if any. */
  method WriteAt(newLyrics: string, chordsByIndex: map<nat, seq<string>>, i: nat, result: string) returns (r: string)
    ensures r == result + Flatten(MarkersOf(Get(chordsByIndex, i))) + Flatten(Here(newLyrics, i))
  {
    r := result;
    if i in chordsByIndex {
      r := AppendMarkers(r, chordsByIndex[i]);
    }
    if i < |newLyrics| {
      r := r + [newLyrics[i]];
    }
    HereFlat(newLyrics, i);
  }

  /** `chordsAtI.forEach(c => result += `[${c}]`)`. */
  method AppendMarkers(result: string, names: seq<string>) returns (r: string)
    ensures r == result + Flatten(MarkersOf(names))
  {
    r := result;
    for j := 0 to |names|
      invariant r == result + Flatten(MarkersOf(names[..j]))
    {
      var marker := "[" + names[j] + "]";
      MarkersSnoc(names, j, marker);
      Assoc(result, Flatten(MarkersOf(names[..j])), marker);
      r := r + marker;
    }
    assert names[..|names|] == names;
  }

  lemma MarkersSnoc(names: seq<string>, j: nat, marker: string)
    requires j < |names| && marker == "[" + names[j] + "]"
    ensures Flatten(MarkersOf(names[..j + 1])) == Flatten(MarkersOf(names[..j])) + marker
  {
    assert MarkersOf(names[..j + 1]) == MarkersOf(names[..j]) + [Marker(names[j])];
    FlattenAppend(MarkersOf(names[..j]), [Marker(names[j])]);
    FlattenMarker(names[j], []);
  }

  /** One turn of the writing loop adds the markers at position `i`, then the character there. */
  lemma WrittenStep(lyr: string, m: map<nat, seq<string>>, i: nat)
    ensures Flatten(Written(lyr, m, i + 1))
         == Flatten(Written(lyr, m, i)) + Flatten(MarkersOf(Get(m, i))) + Flatten(Here(lyr, i))
  {
    var w := Written(lyr, m, i);
    var here := MarkersOf(Get(m, i));
    var h := Here(lyr, i);
    assert Written(lyr, m, i + 1) == w + here + h;
    FlattenAppend(w + here, h);
    FlattenAppend(w, here);
  }

  /** The text of the lyric character written at position `i`, if any. */
  lemma HereFlat(lyr: string, i: nat)
    ensures Flatten(Here(lyr, i)) == if i < |lyr| then [lyr[i]] else ""
  {
    if i < |lyr| {
      assert Flatten(Here(lyr, i)) == [lyr[i]] + Flatten([]);
    }
  }
  // ---------------------------------------------------------------------------
  // What the written line holds

  /** The chord markers of a segment list, each with the lyric offset it stands at, from `off`. */
  function SegPlaces(segs: seq<Segment>, off: nat): seq<Place>
    decreases |segs|
  {
    if segs == [] then []
    else match segs[0]
      case Gap(t) => SegPlaces(segs[1..], off + |t|)
      case Marker(c) => [Place(c, off)] + SegPlaces(segs[1..], off)
  }

  /** The places of the names `names`, all at offset `at`. */
  function PlacesOf(names: seq<string>, at: nat): (r: seq<Place>)
    ensures |r| == |names|
  {
    seq(|names|, k requires 0 <= k < |names| => Place(names[k], at))
  }

  /** The names of the places at offset `v`, in order. */
  function NamesAt(ps: seq<Place>, v: nat): seq<string> {
    if ps == [] then [] else (if ps[0].at == v then [ps[0].name] else []) + NamesAt(ps[1..], v)
  }

  /** The places before offset `n`, in order. */
  function Below(ps: seq<Place>, n: nat): seq<Place> {
    if ps == [] then [] else (if ps[0].at < n then [ps[0]] else []) + Below(ps[1..], n)
  }

  predicate SortedByAt(ps: seq<Place>) {
    forall i, j :: 0 <= i < j < |ps| ==> ps[i].at <= ps[j].at
  }

  lemma {:induction false} SegPlacesAppend(a: seq<Segment>, b: seq<Segment>, off: nat)
    ensures SegPlaces(a + b, off) == SegPlaces(a, off) + SegPlaces(b, off + |StripMarkers(a)|)
    decreases |a|
  {
    if a == [] {
      assert a + b == b;
    } else {
      assert (a + b)[1..] == a[1..] + b;
      match a[0]
      case Gap(t) => SegPlacesAppend(a[1..], b, off + |t|);
      case Marker(c) => SegPlacesAppend(a[1..], b, off);
    }
  }

  lemma {:induction false} MarkersOfFacts(names: seq<string>, off: nat)
    ensures SegPlaces(MarkersOf(names), off) == PlacesOf(names, off)
    ensures StripMarkers(MarkersOf(names)) == ""
    decreases |names|
  {
    if names != [] {
      MarkersOfFacts(names[1..], off);
      assert MarkersOf(names)[1..] == MarkersOf(names[1..]);
      assert PlacesOf(names, off) == [Place(names[0], off)] + PlacesOf(names[1..], off);
    }
  }

  /** The lyric character at `i`, or nothing past the end. */
  lemma HereText(lyr: string, i: nat)
    ensures StripMarkers(Here(lyr, i)) == Flatten(Here(lyr, i)) == if i < |lyr| then [lyr[i]] else ""
  {
    if i < |lyr| {
      assert Here(lyr, i)[1..] == [];
    }
  }

  /** What writing position `n` adds to the lyrics: the character there, if any. */
  lemma WrittenStrip(lyr: string, m: map<nat, seq<string>>, n: nat)
    ensures StripMarkers(Written(lyr, m, n + 1)) == StripMarkers(Written(lyr, m, n)) + StripMarkers(Here(lyr, n))
  {
    var w := Written(lyr, m, n);
    var here := MarkersOf(Get(m, n));
    StripAppend(w + here, Here(lyr, n));
    StripAppend(w, here);
    MarkersOfFacts(Get(m, n), 0);
  }

  /** The lyrics of the segments written before position `n` are the lyrics up to `n`. */
  lemma {:induction false} WrittenLyrics(lyr: string, m: map<nat, seq<string>>, n: nat)
    requires n <= |lyr|
    ensures StripMarkers(Written(lyr, m, n)) == lyr[..n]
  {
    if n > 0 {
      var k := n - 1;
      WrittenLyrics(lyr, m, k);
      WrittenStrip(lyr, m, k);
      HereText(lyr, k);
      var a := StripMarkers(Written(lyr, m, k));
      var b := StripMarkers(Here(lyr, k));
      assert StripMarkers(Written(lyr, m, n)) == a + b;
      assert a == lyr[..k];
      assert b == [lyr[k]];
      TakeSnoc(lyr, k);
    }
  }

  /** The written line's lyrics are the new lyrics. */
  lemma RebuildLyrics(lyr: string, cs: seq<ChordPos>)
    ensures StripMarkers(Rebuild(lyr, cs)) == lyr
  {
    var m := Grouped(SortByIndex(cs), |lyr|);
    WrittenLyrics(lyr, m, |lyr|);
    WrittenStrip(lyr, m, |lyr|);
    HereText(lyr, |lyr|);
    assert lyr[..|lyr|] == lyr;
  }

  /** Adding one place at the end adds its name to the names at its offset. */
  lemma {:induction false} NamesAtSnoc(ps: seq<Place>, p: Place, v: nat)
    ensures NamesAt(ps + [p], v) == NamesAt(ps, v) + (if p.at == v then [p.name] else [])
    decreases |ps|
  {
    var extra := if p.at == v then [p.name] else [];
    if ps == [] {
      assert ps + [p] == [p];
    } else {
      var rest := ps[1..];
      var x := ps + [p];
      var head := if ps[0].at == v then [ps[0].name] else [];
      assert x[0] == ps[0] && x[1..] == rest + [p];
      assert NamesAt(x, v) == head + NamesAt(rest + [p], v);
      assert NamesAt(ps, v) == head + NamesAt(rest, v);
      NamesAtSnoc(rest, p, v);
      assert NamesAt(rest + [p], v) == NamesAt(rest, v) + extra;
    }
  }

  /** The `chordsByIndex` map holds, at each offset, the names of the chords clamped there, in order. */
  lemma {:induction false} GroupedAt(cs: seq<ChordPos>, len: nat, v: nat)
    ensures Get(Grouped(cs, len), v) == NamesAt(ClampAll(cs, len), v)
  {
    if cs != [] {
      var init := cs[..|cs| - 1];
      GroupedAt(init, len, v);
      assert ClampAll(cs, len) == ClampAll(init, len) + [Clamped(cs[|cs| - 1], len)];
      NamesAtSnoc(ClampAll(init, len), Clamped(cs[|cs| - 1], len), v);
    }
  }
  /** What writing position `n` adds to the places: the markers there, at offset `n`. */
  lemma WrittenPlacesStep(lyr: string, m: map<nat, seq<string>>, n: nat)
    requires n <= |lyr|
    ensures SegPlaces(Written(lyr, m, n + 1), 0) == SegPlaces(Written(lyr, m, n), 0) + PlacesOf(Get(m, n), n)
  {
    var w := Written(lyr, m, n);
    var names := Get(m, n);
    var here := MarkersOf(names);
    var h := Here(lyr, n);
    assert Written(lyr, m, n + 1) == w + here + h;
    WrittenLyrics(lyr, m, n);
    MarkersThenGap(w, names, h, n);
    HereNoPlaces(lyr, n, n);
  }

  /** The places of some segments, then markers for `names`, then a marker-free piece. */
  lemma MarkersThenGap(w: seq<Segment>, names: seq<string>, h: seq<Segment>, n: nat)
    requires |StripMarkers(w)| == n && SegPlaces(h, n) == []
    ensures SegPlaces(w + MarkersOf(names) + h, 0) == SegPlaces(w, 0) + PlacesOf(names, n)
  {
    var here := MarkersOf(names);
    SegPlacesAppend(w, here, 0);
    MarkersOfFacts(names, n);
    StripAppend(w, here);
    assert |StripMarkers(w + here)| == n;
    SegPlacesAppend(w + here, h, 0);
  }

  /** A lyric character holds no marker. */
  lemma HereNoPlaces(lyr: string, i: nat, off: nat)
    ensures SegPlaces(Here(lyr, i), off) == []
  {
    if i < |lyr| {
      assert Here(lyr, i)[1..] == [];
    }
  }

  /**
   * The places written before position `n` are the places below `n`, when the map holds
   * at each offset the names of `ps` there and `ps` is in order of offset.
   */
  lemma {:induction false} WrittenPlaces(lyr: string, m: map<nat, seq<string>>, ps: seq<Place>, n: nat)
    requires n <= |lyr| + 1 && SortedByAt(ps)
    requires forall v :: Get(m, v) == NamesAt(ps, v)
    ensures SegPlaces(Written(lyr, m, n), 0) == Below(ps, n)
    decreases n, 1
  {
    if n == 0 {
      BelowNone(ps, 0);
    } else {
      WrittenPlacesUpTo(lyr, m, ps, n - 1, n);
    }
  }

  lemma {:induction false} WrittenPlacesUpTo(lyr: string, m: map<nat, seq<string>>, ps: seq<Place>, k: nat, n: nat)
    requires n == k + 1 && n <= |lyr| + 1 && SortedByAt(ps)
    requires forall v :: Get(m, v) == NamesAt(ps, v)
    ensures SegPlaces(Written(lyr, m, n), 0) == Below(ps, n)
    decreases n, 0
  {
    WrittenPlaces(lyr, m, ps, k);
    WrittenPlacesNext(lyr, m, ps, k, n);
  }

  lemma WrittenPlacesNext(lyr: string, m: map<nat, seq<string>>, ps: seq<Place>, k: nat, n: nat)
    requires n == k + 1 && k <= |lyr| && SortedByAt(ps) && Get(m, k) == NamesAt(ps, k)
    requires SegPlaces(Written(lyr, m, k), 0) == Below(ps, k)
    ensures SegPlaces(Written(lyr, m, n), 0) == Below(ps, n)
  {
    WrittenPlacesStep(lyr, m, k);
    BelowSplit(ps, k);
  }

  /** No place is below `n` when all are at `n` or later. */
  lemma {:induction false} BelowNone(ps: seq<Place>, n: nat)
    requires forall i :: 0 <= i < |ps| ==> n <= ps[i].at
    ensures Below(ps, n) == []
  {
    if ps != [] {
      BelowNone(ps[1..], n);
    }
  }

  /** All places are below `n` when all are before `n`. */
  lemma {:induction false} BelowAll(ps: seq<Place>, n: nat)
    requires forall i :: 0 <= i < |ps| ==> ps[i].at < n
    ensures Below(ps, n) == ps
  {
    if ps != [] {
      BelowAll(ps[1..], n);
      assert ps == [ps[0]] + ps[1..];
    }
  }

  /** No names are at `v` when all places are after `v`. */
  lemma {:induction false} NamesAtNone(ps: seq<Place>, v: nat)
    requires forall i :: 0 <= i < |ps| ==> v < ps[i].at
    ensures NamesAt(ps, v) == []
  {
    if ps != [] {
      NamesAtNone(ps[1..], v);
    }
  }

  /** In ordered places, those below `n + 1` are those below `n`, then those at `n`. */
  lemma {:induction false} BelowSplit(ps: seq<Place>, n: nat)
    requires SortedByAt(ps)
    ensures Below(ps, n + 1) == Below(ps, n) + PlacesOf(NamesAt(ps, n), n)
  {
    if ps != [] {
      var rest := ps[1..];
      SortedTail(ps, rest);
      BelowSplit(rest, n);
      BelowSplitCons(ps, rest, n);
    }
  }

  lemma BelowSplitCons(ps: seq<Place>, rest: seq<Place>, n: nat)
    requires ps != [] && rest == ps[1..] && forall i :: 0 <= i < |rest| ==> ps[0].at <= rest[i].at
    requires Below(rest, n + 1) == Below(rest, n) + PlacesOf(NamesAt(rest, n), n)
    ensures Below(ps, n + 1) == Below(ps, n) + PlacesOf(NamesAt(ps, n), n)
  {
    var p := ps[0];
    var names := NamesAt(rest, n);
    assert ps == [p] + rest;
    if p.at == n {
      BelowNone(rest, n);
      BelowSplitAt(p, rest, n, names);
    } else {
      BelowSplitOff(p, rest, n, names);
    }
  }

  /** A place at an offset other than `n` keeps the split of the places after it. */
  lemma BelowSplitOff(p: Place, rest: seq<Place>, n: nat, names: seq<string>)
    requires p.at != n && names == NamesAt(rest, n)
    requires Below(rest, n + 1) == Below(rest, n) + PlacesOf(names, n)
    ensures Below([p] + rest, n + 1) == Below([p] + rest, n) + PlacesOf(NamesAt([p] + rest, n), n)
  {
    var ps := [p] + rest;
    assert ps[0] == p && ps[1..] == rest;
    assert NamesAt(ps, n) == names;
    if p.at < n {
      BelowSplitBefore(p, rest, n, names);
    } else {
      assert Below(ps, n + 1) == Below(rest, n + 1);
      assert Below(ps, n) == Below(rest, n);
    }
  }

  lemma BelowSplitBefore(p: Place, rest: seq<Place>, n: nat, names: seq<string>)
    requires p.at < n
    requires Below(rest, n + 1) == Below(rest, n) + PlacesOf(names, n)
    ensures Below([p] + rest, n + 1) == Below([p] + rest, n) + PlacesOf(names, n)
  {
    var ps := [p] + rest;
    assert ps[0] == p && ps[1..] == rest;
    var lo := Below(rest, n);
    var hi := Below(rest, n + 1);
    assert Below(ps, n + 1) == [p] + hi;
    assert Below(ps, n) == [p] + lo;
    assert [p] + (lo + PlacesOf(names, n)) == [p] + lo + PlacesOf(names, n);
  }

  lemma SortedTail(ps: seq<Place>, rest: seq<Place>)
    requires SortedByAt(ps) && ps != [] && rest == ps[1..]
    ensures SortedByAt(rest) && forall i :: 0 <= i < |rest| ==> ps[0].at <= rest[i].at
  {
  }

  lemma BelowSplitAt(p: Place, rest: seq<Place>, n: nat, names: seq<string>)
    requires p.at == n && Below(rest, n) == [] && names == NamesAt(rest, n)
    requires Below(rest, n + 1) == Below(rest, n) + PlacesOf(names, n)
    ensures Below([p] + rest, n + 1) == Below([p] + rest, n) + PlacesOf(NamesAt([p] + rest, n), n)
  {
    var ps := [p] + rest;
    assert ps[1..] == rest;
    assert Below(ps, n + 1) == [p] + PlacesOf(names, n);
    assert Below(ps, n) == [];
    assert NamesAt(ps, n) == [p.name] + names;
    assert PlacesOf([p.name] + names, n) == [p] + PlacesOf(names, n);
  }
  // ---------------------------------------------------------------------------
  // Where the chords are written

  /** Clamping keeps chords that are in order of offset in order. */
  lemma ClampSorted(cs: seq<ChordPos>, len: nat)
    requires SortedByIndex(cs)
    ensures SortedByAt(ClampAll(cs, len))
  {
  }

  /**
   * The markers of the written line are the chords, sorted by offset, each with its name
   * at its offset clamped to the length of the lyrics.
   */
  lemma RebuildPlaces(lyr: string, cs: seq<ChordPos>)
    ensures SegPlaces(Rebuild(lyr, cs), 0) == ClampAll(SortByIndex(cs), |lyr|)
  {
    var sorted := SortByIndex(cs);
    var ps := ClampAll(sorted, |lyr|);
    var m := Grouped(sorted, |lyr|);
    SortSorted(cs);
    ClampSorted(sorted, |lyr|);
    forall v ensures Get(m, v) == NamesAt(ps, v) {
      GroupedAt(sorted, |lyr|, v);
    }
    WrittenPlaces(lyr, m, ps, |lyr| + 1);
    BelowAll(ps, |lyr| + 1);
  }

  lemma {:induction false} ClampInsert(c: ChordPos, s: seq<ChordPos>, len: nat)
    ensures multiset(ClampAll(Insert(c, s), len)) == multiset{Clamped(c, len)} + multiset(ClampAll(s, len))
  {
    if s != [] && s[0].index < c.index {
      ClampInsert(c, s[1..], len);
      assert ClampAll(Insert(c, s), len) == [Clamped(s[0], len)] + ClampAll(Insert(c, s[1..]), len);
      assert ClampAll(s, len) == [Clamped(s[0], len)] + ClampAll(s[1..], len);
    } else {
      assert ClampAll(Insert(c, s), len) == [Clamped(c, len)] + ClampAll(s, len);
    }
  }

  lemma {:induction false} ClampSortPermutes(cs: seq<ChordPos>, len: nat)
    ensures multiset(ClampAll(SortByIndex(cs), len)) == multiset(ClampAll(cs, len))
  {
    if cs != [] {
      ClampSortPermutes(cs[1..], len);
      ClampInsert(cs[0], SortByIndex(cs[1..]), len);
      assert ClampAll(cs, len) == [Clamped(cs[0], len)] + ClampAll(cs[1..], len);
    }
  }

  /** The written line holds one marker per chord: the chords, clamped, and nothing else. */
  lemma RebuildPermutes(lyr: string, cs: seq<ChordPos>)
    ensures multiset(SegPlaces(Rebuild(lyr, cs), 0)) == multiset(ClampAll(cs, |lyr|))
  {
    RebuildPlaces(lyr, cs);
    ClampSortPermutes(cs, |lyr|);
  }

  lemma {:induction false} ClampNamesAt(cs: seq<ChordPos>, len: nat, v: nat)
    requires v < len
    ensures NamesAt(ClampAll(cs, len), v) == Names(WithIndex(cs, v))
  {
    if cs != [] {
      ClampNamesAt(cs[1..], len, v);
      assert ClampAll(cs, len)[1..] == ClampAll(cs[1..], len);
      var head := if cs[0].index == v then [cs[0]] else [];
      assert Names(head + WithIndex(cs[1..], v)) == Names(head) + Names(WithIndex(cs[1..], v));
    }
  }

  /**
   * Chords at the same offset inside the lyrics are written in the order they were
   * given: the names written at offset `v` are those of the chords at `v`, in order.
   */
  lemma RebuildStable(lyr: string, cs: seq<ChordPos>, v: nat)
    requires v < |lyr|
    ensures NamesAt(SegPlaces(Rebuild(lyr, cs), 0), v) == Names(WithIndex(cs, v))
  {
    RebuildPlaces(lyr, cs);
    ClampNamesAt(SortByIndex(cs), |lyr|, v);
    SortStable(cs, v);
  }
  // ---------------------------------------------------------------------------
  // The written line, character by character

  /**
   * The lyrics `text` with a `[name]` marker put in for each place, before the character
   * at its offset (counted from `off`), places at the same offset in the order given.
   */
  function WriteIn(text: string, ps: seq<Place>, off: nat): string
    decreases |text| + |ps|
  {
    if ps != [] && ps[0].at == off then "[" + ps[0].name + "]" + WriteIn(text, ps[1..], off)
    else if text != [] then [text[0]] + WriteIn(text[1..], ps, off + 1)
    else ""
  }

  /** Every place of a segment list read from `off` is at `off` or later. */
  lemma {:induction false} SegPlacesFrom(segs: seq<Segment>, off: nat)
    ensures forall i :: 0 <= i < |SegPlaces(segs, off)| ==> off <= SegPlaces(segs, off)[i].at
    decreases |segs|
  {
    if segs != [] {
      match segs[0]
      case Gap(t) => SegPlacesFrom(segs[1..], off + |t|);
      case Marker(c) => SegPlacesFrom(segs[1..], off);
    }
  }

  /** Lyric text before the next marker is written as it is. */
  lemma {:induction false} WriteInSkip(t: string, rest: string, ps: seq<Place>, off: nat)
    requires forall i :: 0 <= i < |ps| ==> off + |t| <= ps[i].at
    ensures WriteIn(t + rest, ps, off) == t + WriteIn(rest, ps, off + |t|)
    decreases |t|
  {
    if t == [] {
      assert t + rest == rest;
    } else {
      assert (t + rest)[1..] == t[1..] + rest;
      WriteInSkip(t[1..], rest, ps, off + 1);
    }
  }

  /**
   * A segment list reads as its lyrics with its markers put in where they stand: the
   * text of a line is fixed by its lyrics and its markers' places.
   */
  lemma {:induction false} FlattenWriteIn(segs: seq<Segment>, off: nat)
    ensures Flatten(segs) == WriteIn(StripMarkers(segs), SegPlaces(segs, off), off)
    decreases |segs|, 1
  {
    if segs != [] {
      if segs[0].Gap? {
        FlattenWriteInGap(segs, off, off + |segs[0].text|);
      } else {
        FlattenWriteInMarker(segs, off);
      }
    }
  }

  lemma {:induction false} FlattenWriteInGap(segs: seq<Segment>, off: nat, off': nat)
    requires segs != [] && segs[0].Gap? && off' == off + |segs[0].text|
    ensures Flatten(segs) == WriteIn(StripMarkers(segs), SegPlaces(segs, off), off)
    decreases |segs|, 0
  {
    var t := segs[0].text;
    var rest := segs[1..];
    var ps := SegPlaces(rest, off');
    FlattenWriteIn(rest, off');
    SegPlacesFrom(rest, off');
    WriteInSkip(t, StripMarkers(rest), ps, off);
    assert SegPlaces(segs, off) == ps;
    assert StripMarkers(segs) == t + StripMarkers(rest);
    assert Flatten(segs) == t + Flatten(rest);
  }

  lemma {:induction false} FlattenWriteInMarker(segs: seq<Segment>, off: nat)
    requires segs != [] && segs[0].Marker?
    ensures Flatten(segs) == WriteIn(StripMarkers(segs), SegPlaces(segs, off), off)
    decreases |segs|, 0
  {
    var c := segs[0].content;
    var rest := segs[1..];
    FlattenWriteIn(rest, off);
    var ps := SegPlaces(segs, off);
    assert ps == [Place(c, off)] + SegPlaces(rest, off);
    assert ps[1..] == SegPlaces(rest, off);
    assert StripMarkers(segs) == StripMarkers(rest);
    assert Flatten(segs) == "[" + c + "]" + Flatten(rest);
  }

  /**
   * `reconstructLine(lyr, cs)` writes the lyrics with a `[name]` marker for every chord,
   * before the character at its offset (chords past the end at the end), chords at the
   * same offset in the order given.
   */
  lemma RebuildWriteIn(lyr: string, cs: seq<ChordPos>)
    ensures Flatten(Rebuild(lyr, cs)) == WriteIn(lyr, ClampAll(SortByIndex(cs), |lyr|), 0)
  {
    FlattenWriteIn(Rebuild(lyr, cs), 0);
    RebuildLyrics(lyr, cs);
    RebuildPlaces(lyr, cs);
  }

  lemma {:induction false} WriteInPlain(text: string, off: nat)
    ensures WriteIn(text, [], off) == text
    decreases |text|
  {
    if text != [] {
      WriteInPlain(text[1..], off + 1);
      assert text == [text[0]] + text[1..];
    }
  }

  /** Clearing the chords (`reconstructLine(lyrics, [])`) writes the lyrics alone. */
  lemma ClearChords(lyr: string)
    ensures Flatten(Rebuild(lyr, [])) == lyr
  {
    RebuildWriteIn(lyr, []);
    WriteInPlain(lyr, 0);
  }
  // ---------------------------------------------------------------------------
  // Editing a line and writing it back

  /** What the editor keeps of one segment: a gap; a marker trimmed, unless it is blank. */
  function TidyOne(g: Segment): seq<Segment> {
    match g
    case Gap(t) => [Gap(t)]
    case Marker(c) => if Trim(c) == "" then [] else [Marker(Trim(c))]
  }

  /** A line's segments with each marker's content trimmed and blank markers dropped. */
  function Tidy(segs: seq<Segment>): seq<Segment> {
    if segs == [] then [] else TidyOne(segs[0]) + Tidy(segs[1..])
  }

  /** The places of chords: each chord's name at its offset. */
  function Places(cs: seq<ChordPos>): (r: seq<Place>)
    ensures |r| == |cs|
  {
    seq(|cs|, i requires 0 <= i < |cs| => Place(cs[i].name, cs[i].index))
  }

  /** Every marker holds a chord with no whitespace around it. */
  predicate GoodMarkers(segs: seq<Segment>) {
    forall i :: 0 <= i < |segs| && segs[i].Marker? ==> segs[i].content != "" && Trimmed(segs[i].content)
  }

  lemma TidyGap(t: string, rest: seq<Segment>, off: nat, off': nat)
    requires off' == off + |t|
    ensures SegPlaces(Tidy([Gap(t)] + rest), off) == SegPlaces(Tidy(rest), off')
  {
    assert ([Gap(t)] + rest)[1..] == rest;
    assert Tidy([Gap(t)] + rest) == [Gap(t)] + Tidy(rest);
    assert ([Gap(t)] + Tidy(rest))[1..] == Tidy(rest);
  }

  lemma TidyMarker(c: string, rest: seq<Segment>, off: nat)
    ensures SegPlaces(Tidy([Marker(c)] + rest), off) == MarkerPlace(c, off) + SegPlaces(Tidy(rest), off)
  {
    assert ([Marker(c)] + rest)[1..] == rest;
    if Trim(c) == "" {
      assert Tidy([Marker(c)] + rest) == Tidy(rest);
    } else {
      assert Tidy([Marker(c)] + rest) == [Marker(Trim(c))] + Tidy(rest);
      assert ([Marker(Trim(c))] + Tidy(rest))[1..] == Tidy(rest);
    }
  }

  lemma TidyGapOf(u: string, tail: seq<Segment>, off: nat, off': nat)
    requires off' == off + |u|
    ensures SegPlaces(Tidy(GapOf(u) + tail), off) == SegPlaces(Tidy(tail), off')
  {
    if u == "" {
      assert GapOf(u) + tail == tail;
    } else {
      TidyGap(u, tail, off, off');
    }
  }

  lemma PlacesHead(t: Token, rest: seq<Token>, off: nat, first: nat, off': nat, first': nat)
    requires off' == off + |t.lyric| && first' == first + 1
    ensures Places(ChordsFrom([t] + rest, off, first))
         == (if HasChord(t) then [Place(t.chord.value, off)] else []) + Places(ChordsFrom(rest, off', first'))
  {
    assert ([t] + rest)[1..] == rest;
    var head := if HasChord(t) then [ChordPos(t.chord.value, off, first)] else [];
    var tail := ChordsFrom(rest, off', first');
    assert ChordsFrom([t] + rest, off, first) == head + tail;
    assert Places(head + tail) == Places(head) + Places(tail);
  }

  /** The place a marker's chord takes at `off`, unless the chord is blank. */
  function MarkerPlace(c: string, off: nat): (r: seq<Place>)
    ensures r == [] <==> Trim(c) == ""
  {
    if Trim(c) == "" then [] else [Place(Trim(c), off)]
  }

  /** A leading gap that is not the last, all-blank segment becomes a chordless token. */
  lemma GapStep(segs: seq<Segment>, g: string, off: nat, first: nat, off': nat, first': nat)
    requires segs != [] && segs[0] == Gap(g) && !(|segs| == 1 && AllSpace(g))
    requires off' == off + |g| && first' == first + 1
    ensures Places(ChordsFrom(ChordPro.Absorb(segs), off, first))
         == Places(ChordsFrom(ChordPro.Absorb(segs[1..]), off', first'))
    ensures SegPlaces(Tidy(segs), off) == SegPlaces(Tidy(segs[1..]), off')
  {
    var rest := segs[1..];
    assert ChordPro.Absorb(segs) == [Token(None, g)] + ChordPro.Absorb(rest);
    PlacesHead(Token(None, g), ChordPro.Absorb(rest), off, first, off', first');
    assert segs == [Gap(g)] + rest;
    TidyGap(g, rest, off, off');
  }

  /** A last gap that is all blank gives no token, and no place. */
  lemma LastGapStep(segs: seq<Segment>, g: string, off: nat, first: nat)
    requires |segs| == 1 && segs[0] == Gap(g) && AllSpace(g)
    ensures Places(ChordsFrom(ChordPro.Absorb(segs), off, first)) == []
    ensures SegPlaces(Tidy(segs), off) == []
  {
    assert ChordPro.Absorb(segs) == [];
    assert Tidy(segs) == [Gap(g)] + Tidy([]);
  }

  /** A marker that no gap follows becomes a token with an empty lyric. */
  lemma MarkerAloneStep(segs: seq<Segment>, c: string, off: nat, first: nat, first': nat)
    requires segs != [] && segs[0] == Marker(c) && (|segs| == 1 || segs[1].Marker?) && first' == first + 1
    ensures Places(ChordsFrom(ChordPro.Absorb(segs), off, first))
         == MarkerPlace(c, off) + Places(ChordsFrom(ChordPro.Absorb(segs[1..]), off, first'))
    ensures SegPlaces(Tidy(segs), off) == MarkerPlace(c, off) + SegPlaces(Tidy(segs[1..]), off)
  {
    var rest := segs[1..];
    var t := Token(Some(Trim(c)), "");
    assert ChordPro.Absorb(segs) == [t] + ChordPro.Absorb(rest);
    PlacesHead(t, ChordPro.Absorb(rest), off, first, off, first');
    assert segs == [Marker(c)] + rest;
    TidyMarker(c, rest, off);
  }

  /**
   * A marker that a gap follows becomes a token whose lyric is the gap up to its first
   * `[`; the rest of the gap, `next`, goes on to the next token.
   */
  lemma MarkerGapTokens(segs: seq<Segment>, c: string, g: string, k: nat, next: seq<Segment>, off: nat, first: nat, off': nat, first': nat)
    requires |segs| >= 2 && segs[0] == Marker(c) && segs[1] == Gap(g)
    requires k == IndexOf(g, '[') && next == GapOf(g[k..]) + segs[2..]
    requires off' == off + k && first' == first + 1
    ensures Places(ChordsFrom(ChordPro.Absorb(segs), off, first))
         == MarkerPlace(c, off) + Places(ChordsFrom(ChordPro.Absorb(next), off', first'))
  {
    var t := Token(Some(Trim(c)), g[..k]);
    assert ChordPro.Absorb(segs) == [t] + ChordPro.Absorb(next);
    PlacesHead(t, ChordPro.Absorb(next), off, first, off', first');
  }

  /**
   * A marker that a gap follows: its place, then those of the rest of the gap from its
   * first `[` on and the segments after it, `next`.
   */
  lemma MarkerGapTidy(segs: seq<Segment>, c: string, g: string, k: nat, next: seq<Segment>, off: nat, off': nat)
    requires |segs| >= 2 && segs[0] == Marker(c) && segs[1] == Gap(g)
    requires k == IndexOf(g, '[') && next == GapOf(g[k..]) + segs[2..] && off' == off + k
    ensures SegPlaces(Tidy(segs), off) == MarkerPlace(c, off) + SegPlaces(Tidy(next), off')
  {
    var tail := segs[2..];
    var u := g[k..];
    var mid := off + |g|;
    assert segs == [Marker(c)] + ([Gap(g)] + tail);
    TidyMarker(c, [Gap(g)] + tail, off);
    TidyGap(g, tail, off, mid);
    assert off' + |u| == mid;
    TidyGapOf(u, tail, off', mid);
  }

  /**
   * The chords the editor extracts from the tokens of a segment list stand where the
   * list's tidied markers stand.
   */
  lemma {:induction false} AbsorbPlaces(segs: seq<Segment>, off: nat, first: nat)
    ensures Places(ChordsFrom(ChordPro.Absorb(segs), off, first)) == SegPlaces(Tidy(segs), off)
    decreases |segs|, 1
  {
    if segs == [] {
    } else if segs[0].Gap? {
      AbsorbGapPlaces(segs, off, first);
    } else if |segs| >= 2 && segs[1].Gap? {
      AbsorbMarkerGapPlaces(segs, off, first);
    } else {
      AbsorbMarkerPlaces(segs, off, first);
    }
  }

  lemma {:induction false} AbsorbGapPlaces(segs: seq<Segment>, off: nat, first: nat)
    requires segs != [] && segs[0].Gap?
    ensures Places(ChordsFrom(ChordPro.Absorb(segs), off, first)) == SegPlaces(Tidy(segs), off)
    decreases |segs|, 0
  {
    var g := segs[0].text;
    if |segs| == 1 && AllSpace(g) {
      LastGapStep(segs, g, off, first);
    } else {
      var off' := off + |g|;
      var first' := first + 1;
      AbsorbPlaces(segs[1..], off', first');
      GapStep(segs, g, off, first, off', first');
    }
  }

  lemma {:induction false} AbsorbMarkerGapPlaces(segs: seq<Segment>, off: nat, first: nat)
    requires |segs| >= 2 && segs[0].Marker? && segs[1].Gap?
    ensures Places(ChordsFrom(ChordPro.Absorb(segs), off, first)) == SegPlaces(Tidy(segs), off)
    decreases |segs|, 0
  {
    var c := segs[0].content;
    var g := segs[1].text;
    var k := IndexOf(g, '[');
    var next := GapOf(g[k..]) + segs[2..];
    var off' := off + k;
    var first' := first + 1;
    AbsorbPlaces(next, off', first');
    MarkerGapTokens(segs, c, g, k, next, off, first, off', first');
    MarkerGapTidy(segs, c, g, k, next, off, off');
  }

  lemma {:induction false} AbsorbMarkerPlaces(segs: seq<Segment>, off: nat, first: nat)
    requires segs != [] && segs[0].Marker? && (|segs| == 1 || segs[1].Marker?)
    ensures Places(ChordsFrom(ChordPro.Absorb(segs), off, first)) == SegPlaces(Tidy(segs), off)
    decreases |segs|, 0
  {
    var c := segs[0].content;
    var first' := first + 1;
    AbsorbPlaces(segs[1..], off, first');
    MarkerAloneStep(segs, c, off, first, first');
  }

  lemma {:induction false} TidyLyrics(segs: seq<Segment>)
    ensures StripMarkers(Tidy(segs)) == StripMarkers(segs)
  {
    if segs != [] {
      TidyLyrics(segs[1..]);
      StripAppend(TidyOne(segs[0]), Tidy(segs[1..]));
      ChordPro.StripCons(segs[0], segs[1..]);
      assert segs == [segs[0]] + segs[1..];
      match segs[0]
      case Gap(t) => ChordPro.StripCons(Gap(t), []);
      case Marker(c) =>
        if Trim(c) != "" {
          ChordPro.StripCons(Marker(Trim(c)), []);
        }
    }
  }

  /** Chords whose offsets lie within the lyrics are not moved by clamping. */
  lemma ClampNoop(cs: seq<ChordPos>, len: nat)
    requires forall i :: 0 <= i < |cs| ==> cs[i].index <= len
    ensures ClampAll(cs, len) == Places(cs)
  {
  }

  /**
   * Extracting the lyrics and chords of a line that is not blank and writing them back
   * gives the line with every chord's content trimmed and blank chords dropped.
   */
  lemma ExtractReconstruct(line: string)
    requires !AllSpace(line)
    ensures Flatten(Rebuild(Lyrics(ChordPro.TokensOf(line)), ChordsOfLine(ChordPro.TokensOf(line))))
         == Flatten(Tidy(Scan(line, false)))
  {
    var segs := Scan(line, false);
    var ts := ChordPro.TokensOf(line);
    ChordPro.BlankTokens(line);
    ChordPro.TokensLyrics(line);
    var lyr := Lyrics(ts);
    var cs := ChordsOfLine(ts);
    ChordsFromOrdered(ts, 0, 0);
    SortOfSorted(cs);
    ClampNoop(cs, |lyr|);
    AbsorbPlaces(segs, 0, 0);
    TidyLyrics(segs);
    RebuildWriteIn(lyr, cs);
    FlattenWriteIn(Tidy(segs), 0);
  }

  lemma {:induction false} TidyKeeps(segs: seq<Segment>)
    requires GoodMarkers(segs)
    ensures Tidy(segs) == segs
  {
    if segs != [] {
      assert GoodMarkers(segs[1..]) by {
        assert forall i :: 0 <= i < |segs[1..]| ==> segs[1..][i] == segs[i + 1];
      }
      TidyKeeps(segs[1..]);
      assert segs == [segs[0]] + segs[1..];
      if segs[0].Marker? {
        TrimOfTrimmed(segs[0].content);
      }
    }
  }

  /**
   * A line that is not blank and whose chords have no whitespace around them is written
   * back exactly as it was when it is only read into the editor.
   */
  lemma ExtractReconstructExact(line: string)
    requires !AllSpace(line) && GoodMarkers(Scan(line, false))
    ensures Flatten(Rebuild(Lyrics(ChordPro.TokensOf(line)), ChordsOfLine(ChordPro.TokensOf(line)))) == line
  {
    ExtractReconstruct(line);
    TidyKeeps(Scan(line, false));
    ScanCovers(line, false);
  }
  // ---------------------------------------------------------------------------
  // The line editor's actions

  /** `Math.max(0, Math.min(column, lyrics.length))`: a column on the lyrics. */
  function Column(column: int, len: nat): (at: nat)
    ensures at <= len
    ensures 0 <= column <= len ==> at == column
    ensures column < 0 ==> at == 0
    ensures column > len ==> at == len
  {
    if column < 0 then 0 else if column < len then column else len
  }

  /**
   * `handleChordClick`: the user's answer to the prompt for chord `index` (`None` when
   * cancelled) deletes the chord when blank, renames it (untrimmed) otherwise.
   */
  method EditChord(lyrics: string, chords: seq<ChordPos>, index: nat, answer: Option<string>)
    returns (line: Option<string>)
    requires index < |chords|
    ensures line.None? <==> answer.None?
    ensures answer.Some? && Trim(answer.value) == ""
         ==> line == Some(Flatten(Rebuild(lyrics, chords[..index] + chords[index + 1..])))
    ensures answer.Some? && Trim(answer.value) != ""
         ==> line == Some(Flatten(Rebuild(lyrics, chords[index := chords[index].(name := answer.value)])))
  {
    if answer.None? {
      return None;
    }
    var newName := answer.value;
    var newChords: seq<ChordPos>;
    if Trim(newName) == "" {
      newChords := chords[..index] + chords[index + 1..];
    } else {
      newChords := chords[index := chords[index].(name := newName)];
    }
    var result := ReconstructLine(lyrics, newChords);
    line := Some(result);
  }

  /** `handleDrop`: chord `index` dropped at `column` moves to that column, clamped to the lyrics. */
  method MoveChord(lyrics: string, chords: seq<ChordPos>, index: nat, column: int) returns (line: string)
    requires index < |chords|
    ensures line == Flatten(Rebuild(lyrics, chords[index := chords[index].(index := Column(column, |lyrics|))]))
  {
    var newCharIndex := if column < 0 then 0 else if column < |lyrics| then column else |lyrics|;
    var newChords := chords[index := chords[index].(index := newCharIndex)];
    line := ReconstructLine(lyrics, newChords);
  }

  /**
   * `handleLayerClick`: a click at `column` asks for a chord name (`None` when cancelled);
   * a non-empty name is added there, with no token behind it.
   */
  method AddChord(lyrics: string, chords: seq<ChordPos>, column: int, name: Option<string>)
    returns (line: Option<string>)
    ensures line.Some? <==> name.Some? && name.value != ""
    ensures line.Some? ==> line.value == Flatten(Rebuild(lyrics, chords + [ChordPos(name.value, Column(column, |lyrics|), -1)]))
  {
    var charIndex := if column < 0 then 0 else if column < |lyrics| then column else |lyrics|;
    if name.Some? && name.value != "" {
      var newChords := chords + [ChordPos(name.value, charIndex, -1)];
      var result := ReconstructLine(lyrics, newChords);
      line := Some(result);
    } else {
      line := None;
    }
  }

  lemma ClampAllSplit(cs: seq<ChordPos>, k: nat, len: nat)
    requires k < |cs|
    ensures ClampAll(cs, len) == ClampAll(cs[..k], len) + [Clamped(cs[k], len)] + ClampAll(cs[k + 1..], len)
  {
  }

  /** Deleting chord `k` takes its place, and only its place, off the written line. */
  lemma DeletePlaces(lyr: string, cs: seq<ChordPos>, k: nat)
    requires k < |cs|
    ensures Clamped(cs[k], |lyr|) in multiset(SegPlaces(Rebuild(lyr, cs), 0))
    ensures multiset(SegPlaces(Rebuild(lyr, cs[..k] + cs[k + 1..]), 0))
         == multiset(SegPlaces(Rebuild(lyr, cs), 0)) - multiset{Clamped(cs[k], |lyr|)}
  {
    var len := |lyr|;
    var a := ClampAll(cs[..k], len);
    var b := ClampAll(cs[k + 1..], len);
    ClampAllSplit(cs, k, len);
    assert ClampAll(cs[..k] + cs[k + 1..], len) == a + b;
    RebuildPermutes(lyr, cs);
    RebuildPermutes(lyr, cs[..k] + cs[k + 1..]);
    assert multiset(ClampAll(cs, len)) == multiset(a) + multiset{Clamped(cs[k], len)} + multiset(b);
  }

  /** Replacing chord `k` by `c` swaps its place for that of `c`, and changes no other. */
  lemma ReplacePlaces(lyr: string, cs: seq<ChordPos>, k: nat, c: ChordPos)
    requires k < |cs|
    ensures multiset(SegPlaces(Rebuild(lyr, cs[k := c]), 0)) + multiset{Clamped(cs[k], |lyr|)}
         == multiset(SegPlaces(Rebuild(lyr, cs), 0)) + multiset{Clamped(c, |lyr|)}
  {
    var len := |lyr|;
    var a := ClampAll(cs[..k], len);
    var b := ClampAll(cs[k + 1..], len);
    ClampAllSplit(cs, k, len);
    ClampAllSplit(cs[k := c], k, len);
    assert cs[k := c][..k] == cs[..k] && cs[k := c][k + 1..] == cs[k + 1..];
    RebuildPermutes(lyr, cs);
    RebuildPermutes(lyr, cs[k := c]);
    assert multiset(ClampAll(cs, len)) == multiset(a) + multiset{Clamped(cs[k], len)} + multiset(b);
    assert multiset(ClampAll(cs[k := c], len)) == multiset(a) + multiset{Clamped(c, len)} + multiset(b);
  }

  /** Adding a chord puts its place on the written line, next to all the others. */
  lemma AddPlaces(lyr: string, cs: seq<ChordPos>, c: ChordPos)
    ensures multiset(SegPlaces(Rebuild(lyr, cs + [c]), 0))
         == multiset(SegPlaces(Rebuild(lyr, cs), 0)) + multiset{Clamped(c, |lyr|)}
  {
    assert ClampAll(cs + [c], |lyr|) == ClampAll(cs, |lyr|) + [Clamped(c, |lyr|)];
    RebuildPermutes(lyr, cs);
    RebuildPermutes(lyr, cs + [c]);
  }

  /** A renamed chord keeps its offset: the new name stands where the old one stood. */
  lemma RenamePlaces(lyr: string, cs: seq<ChordPos>, k: nat, name: string)
    requires k < |cs|
    ensures multiset(SegPlaces(Rebuild(lyr, cs[k := cs[k].(name := name)]), 0)) + multiset{Clamped(cs[k], |lyr|)}
         == multiset(SegPlaces(Rebuild(lyr, cs), 0)) + multiset{Place(name, Clamped(cs[k], |lyr|).at)}
  {
    ReplacePlaces(lyr, cs, k, cs[k].(name := name));
  }

  /** A moved chord keeps its name and lands exactly on the column it was dropped at. */
  lemma MovePlaces(lyr: string, cs: seq<ChordPos>, k: nat, column: int)
    requires k < |cs|
    ensures multiset(SegPlaces(Rebuild(lyr, cs[k := cs[k].(index := Column(column, |lyr|))]), 0)) + multiset{Clamped(cs[k], |lyr|)}
         == multiset(SegPlaces(Rebuild(lyr, cs), 0)) + multiset{Place(cs[k].name, Column(column, |lyr|))}
  {
    ReplacePlaces(lyr, cs, k, cs[k].(index := Column(column, |lyr|)));
  }

  // ---------------------------------------------------------------------------
  // Writing an edited line back into the song

  /** `handleLineChange`: line `index` of the source replaced by `newLine`. */
  function ChangeLine(source: string, index: nat, newLine: string): (r: string)
    requires index < |SplitLines(source)|
    ensures '\n' !in newLine && (newLine == "" || newLine[|newLine| - 1] != '\r') ==>
              |SplitLines(r)| == |SplitLines(source)| && SplitLines(r)[index] == newLine
  {
    ReplacedReadsBack(SplitLines(source), index, newLine);
    JoinLines(SplitLines(source)[index := newLine])
  }

  /** A line replaced in lines free of `\n` reads back after joining and splitting. */
  lemma ReplacedReadsBack(lines: seq<string>, index: nat, newLine: string)
    requires index < |lines| && forall i :: 0 <= i < |lines| ==> '\n' !in lines[i]
    ensures var r := JoinLines(lines[index := newLine]);
            '\n' !in newLine && (newLine == "" || newLine[|newLine| - 1] != '\r') ==>
              |SplitLines(r)| == |lines| && SplitLines(r)[index] == newLine
  {
    if '\n' !in newLine && (newLine == "" || newLine[|newLine| - 1] != '\r') {
      NoBreakReplaced(lines, index, newLine);
      JoinedLineReadsBack(lines[index := newLine], index);
    }
  }

  /** In lines without a break, a line not ending in `\r` is read back in its place. */
  lemma JoinedLineReadsBack(ls: seq<string>, index: nat)
    requires index < |ls| && forall i :: 0 <= i < |ls| ==> '\n' !in ls[i]
    requires ls[index] == "" || ls[index][|ls[index]| - 1] != '\r'
    ensures |SplitLines(JoinLines(ls))| == |ls| && SplitLines(JoinLines(ls))[index] == ls[index]
  {
    SplitJoin(ls);
    ReadBackKept(ls, index);
  }

  lemma NoBreakReplaced(lines: seq<string>, index: nat, newLine: string)
    requires index < |lines| && forall i :: 0 <= i < |lines| ==> '\n' !in lines[i]
    requires '\n' !in newLine
    ensures var ls := lines[index := newLine]; forall i :: 0 <= i < |ls| ==> '\n' !in ls[i]
  {
  }

  /** A line not ending in `\r` reads back as itself. */
  lemma ReadBackKept(ls: seq<string>, index: nat)
    requires index < |ls| && (ls[index] == "" || ls[index][|ls[index]| - 1] != '\r')
    ensures |ReadBack(ls)| == |ls| && ReadBack(ls)[index] == ls[index]
  {
  }

  /**
   * Splitting the changed source gives the new line at `index` and the other lines as
   * they were, except that a line ending in `\r` before a break loses the `\r`.
   */
  lemma ChangeLineLines(source: string, index: nat, newLine: string)
    requires index < |SplitLines(source)| && '\n' !in newLine
    ensures SplitLines(ChangeLine(source, index, newLine)) == ReadBack(SplitLines(source)[index := newLine])
  {
    var ls := SplitLines(source)[index := newLine];
    assert forall i :: 0 <= i < |ls| ==> '\n' !in ls[i];
    SplitJoin(ls);
  }
}
