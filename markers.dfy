/**
 * Hand-written scanners for the two bracket patterns of the library:
 *
 *   - `\[([^\]]+)\]`, used by both tokenizers (`chordOnly == false`);
 *   - `\[([A-G](?:#|b)?[^\]]*)\]`, used to transpose source text (`chordOnly == true`).
 *
 * A scan cuts a text into gaps of plain text and markers exactly where a global
 * `exec` loop or a global `replace` with that pattern finds its matches: the leftmost
 * match, which ends at the first `]` after its `[`, and then the leftmost match after it.
 */
module Markers {
  import opened Text
  import opened SongTypes

  /** A gap of text between matches, or a matched marker with the text between its brackets. */
  datatype Segment = Gap(text: string) | Marker(content: string)

  /** Index of the first `]` after position 0 of `s`, or `|s|` if there is none. */
  function Close(s: string): (q: nat)
    requires s != []
    ensures 0 < q <= |s|
  {
    1 + IndexOf(s[1..], ']')
  }

  /** `Close` finds the first `]` after position 0. */
  lemma CloseFirst(s: string)
    requires s != []
    ensures var q := Close(s);
            (forall i :: 0 < i < q ==> s[i] != ']') && (q < |s| ==> s[q] == ']')
  {
    var k := IndexOf(s[1..], ']');
    IndexOfFirst(s[1..], ']');
    assert forall i :: 0 < i < 1 + k ==> s[i] == s[1..][i - 1];
  }

  /**
   * A match starts at the beginning of `s`: a `[`, a first content character (any but
   * `]`, or a note letter `A`-`G` for the transposition pattern) and a later `]`.
   */
  predicate Opens(s: string, chordOnly: bool) {
    |s| >= 2 && s[0] == '[' &&
    (if chordOnly then 'A' <= s[1] <= 'G' else s[1] != ']') &&
    Close(s) < |s|
  }

  /** Puts `c` in front of the leading gap of `segs`, or in a gap of its own before a marker. */
  function AddChar(c: char, segs: seq<Segment>): (r: seq<Segment>)
    ensures r != [] && r[0].Gap? && r[0].text != [] && r[0].text[0] == c
  {
    if segs != [] && segs[0].Gap? then [Gap([c] + segs[0].text)] + segs[1..]
    else [Gap([c])] + segs
  }

  /** The segments of `s`, as the global pattern cuts it. */
  function Scan(s: string, chordOnly: bool): (r: seq<Segment>)
    ensures r == [] <==> s == []
    decreases |s|
  {
    if s == [] then []
    else if Opens(s, chordOnly) then
      var q := Close(s);
      [Marker(s[1..q])] + Scan(s[q + 1..], chordOnly)
    else AddChar(s[0], Scan(s[1..], chordOnly))
  }

  /** `AddChar` for every character of `t`, last one first: `t` joins the leading gap of `segs`. */
  function Prepend(t: string, segs: seq<Segment>): seq<Segment> {
    if t == [] then segs else AddChar(t[0], Prepend(t[1..], segs))
  }

  /** The gap holding `t`, left out when `t` is empty. */
  function GapOf(t: string): (r: seq<Segment>)
    ensures |r| <= 1 && (r == [] <==> t == "")
    ensures forall i :: 0 <= i < |r| ==> r[i] == Gap(t)
  {
    if t == "" then [] else [Gap(t)]
  }

  /** A match starts at position `i` of `line`. */
  predicate OpensAt(line: string, i: nat, chordOnly: bool) {
    i < |line| && Opens(line[i..], chordOnly)
  }

  /** No match starts at a position from `from` up to (not including) `to`. */
  predicate OpensNone(line: string, from: nat, to: nat, chordOnly: bool) {
    from <= to <= |line| && forall i :: from <= i < to ==> !OpensAt(line, i, chordOnly)
  }

  /** The leftmost match at or after `from` starts at `p`. */
  predicate FirstOpen(line: string, from: nat, p: nat, chordOnly: bool) {
    OpensAt(line, p, chordOnly) && OpensNone(line, from, p, chordOnly)
  }

  /** What `exec` reports from `from`: the leftmost match at or after `from`, or that there is none. */
  predicate ExecResult(line: string, from: nat, m: Option<nat>, chordOnly: bool) {
    match m
    case Some(p) => from <= p && FirstOpen(line, from, p, chordOnly)
    case None => OpensNone(line, from, |line|, chordOnly)
  }

  /** `regex.exec(line)` with `lastIndex == from`: tries each position from `from` on in turn. */
  method Exec(line: string, from: nat, chordOnly: bool) returns (m: Option<nat>)
    requires from <= |line|
    ensures ExecResult(line, from, m, chordOnly)
  {
    var i := from;
    while i < |line|
      invariant from <= i <= |line| && OpensNone(line, from, i, chordOnly)
    {
      if OpensAt(line, i, chordOnly) {
        return Some(i);
      }
      i := i + 1;
    }
    return None;
  }

  /** Where the match starting at `p` ends: the index of its `]`. */
  function CloseOf(line: string, p: nat): (q: nat)
    requires p < |line|
    ensures p < q <= |line|
  {
    p + Close(line[p..])
  }

  /** A match at `p` closes inside the line. */
  lemma CloseInLine(line: string, p: nat, chordOnly: bool)
    requires OpensAt(line, p, chordOnly)
    ensures CloseOf(line, p) < |line|
  {
  }

  function SegText(g: Segment): string {
    match g
    case Gap(t) => t
    case Marker(c) => "[" + c + "]"
  }

  /** The text a segment list stands for. */
  function Flatten(segs: seq<Segment>): string {
    if segs == [] then "" else SegText(segs[0]) + Flatten(segs[1..])
  }

  /** Replaces the content of every marker by `f` of it, as a `replace` callback does. */
  function Relabel(segs: seq<Segment>, f: string -> string): (r: seq<Segment>)
    ensures |r| == |segs|
  {
    if segs == [] then []
    else (match segs[0] case Gap(t) => [Gap(t)] case Marker(c) => [Marker(f(c))]) + Relabel(segs[1..], f)
  }

  /** The text with every marker deleted. */
  function StripMarkers(segs: seq<Segment>): string {
    if segs == [] then ""
    else (match segs[0] case Gap(t) => t case Marker(_) => "") + StripMarkers(segs[1..])
  }

  /** The marker contents, in order. */
  function MarkerContents(segs: seq<Segment>): seq<string> {
    if segs == [] then []
    else (match segs[0] case Gap(_) => [] case Marker(c) => [c]) + MarkerContents(segs[1..])
  }

  /** No marker content holds a `[`: no marker encloses the start of another would-be marker. */
  predicate NoNestedOpen(segs: seq<Segment>) {
    forall i :: 0 <= i < |segs| && segs[i].Marker? ==> '[' !in segs[i].content
  }

  predicate StartsWithNoteLetter(c: string) {
    c != "" && 'A' <= c[0] <= 'G'
  }

  /** What the tokenizers' pattern can capture: a non-empty text without `]`. */
  predicate GoodContent(c: string) {
    c != "" && ']' !in c
  }
}
