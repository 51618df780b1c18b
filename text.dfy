/**
 * The few JavaScript string built-ins the song library relies on: `trim`,
 * `toLowerCase` (on ASCII letters only), `indexOf` on one character,
 * `split(/\r?\n/)` and `join('\n')`.
 */
module Text {

  /**
   * Whitespace as `String.prototype.trim` and the regex class `\s` see it: the white
   * space characters and line terminators of ECMAScript (sections 12.2 and 12.3 of
   * ECMA-262), the space separators of Unicode 15 included.
   */
  predicate IsSpace(c: char) {
    c == ' ' || c == '\t' || c == '\U{B}' || c == '\U{C}' || c == '\U{A0}' || c == '\U{FEFF}' ||
    c == '\U{1680}' || '\U{2000}' <= c <= '\U{200A}' || c == '\U{202F}' || c == '\U{205F}' ||
    c == '\U{3000}' || IsLineTerminator(c)
  }

  /** The characters the regex `.` refuses to match. */
  predicate IsLineTerminator(c: char) {
    c == '\n' || c == '\r' || c == '\U{2028}' || c == '\U{2029}'
  }

  predicate AllSpace(s: string) {
    forall i :: 0 <= i < |s| ==> IsSpace(s[i])
  }

  predicate NoLineTerminator(s: string) {
    forall i :: 0 <= i < |s| ==> !IsLineTerminator(s[i])
  }

  /** `s` begins and ends with a non-space character, or is empty: `trim` leaves it alone. */
  predicate Trimmed(s: string) {
    s == [] || (!IsSpace(s[0]) && !IsSpace(s[|s| - 1]))
  }

  /** `trimStart`: drops the leading whitespace. */
  function TrimStart(s: string): string {
    if s != [] && IsSpace(s[0]) then TrimStart(s[1..]) else s
  }

  /** `trimStart` keeps a suffix of `s` that starts with a non-space, after a run of spaces. */
  lemma {:induction false} TrimStartShape(s: string)
    ensures var r := TrimStart(s);
            |r| <= |s| && r == s[|s| - |r|..] && (r == [] || !IsSpace(r[0])) && AllSpace(s[..|s| - |r|])
  {
    if s != [] && IsSpace(s[0]) {
      TrimStartShape(s[1..]);
      var r := TrimStart(s);
      assert s[1..][|s| - 1 - |r|..] == s[|s| - |r|..];
      var h := s[..|s| - |r|];
      forall i | 0 <= i < |h| ensures IsSpace(h[i]) {
        if i > 0 { assert h[i] == s[1..][..|s| - 1 - |r|][i - 1]; }
      }
    }
  }

  /** `trimEnd`: drops the trailing whitespace. */
  function TrimEnd(s: string): string {
    if s != [] && IsSpace(s[|s| - 1]) then TrimEnd(s[..|s| - 1]) else s
  }

  /** `trimEnd` keeps a prefix of `s` that ends with a non-space, before a run of spaces. */
  lemma {:induction false} TrimEndShape(s: string)
    ensures var r := TrimEnd(s);
            |r| <= |s| && r == s[..|r|] && (r == [] || !IsSpace(r[|r| - 1])) && AllSpace(s[|r|..])
  {
    if s != [] && IsSpace(s[|s| - 1]) {
      var t := s[..|s| - 1];
      TrimEndShape(t);
      var r := TrimEnd(s);
      assert t[..|r|] == s[..|r|];
      forall i | 0 <= i < |s| - |r| ensures IsSpace(s[|r|..][i]) {
        if i < |s| - 1 - |r| { assert s[|r|..][i] == t[|r|..][i]; }
      }
    }
  }

  /** `String.prototype.trim`. */
  function Trim(s: string): (r: string)
    ensures Trimmed(r)
    ensures r == [] <==> AllSpace(s)
    ensures |r| <= |s|
  {
    var t := TrimStart(s);
    TrimStartShape(s);
    var r := TrimEnd(t);
    TrimEndShape(t);
    assert r != [] ==> !IsSpace(r[0]) by {
      if r != [] { assert r[0] == t[0]; }
    }
    assert r == [] ==> AllSpace(s) by {
      if r == [] {
        assert t == [];
        forall i | 0 <= i < |s| ensures IsSpace(s[i]) {
          assert s[i] == s[..|s| - |t|][i];
        }
      }
    }
    r
  }

  lemma {:induction false} TrimOfTrimmed(s: string)
    requires Trimmed(s)
    ensures Trim(s) == s
  {
  }

  /** ASCII `toLowerCase` on one character. */
  function LowerChar(c: char): (r: char)
    ensures 'A' <= c <= 'Z' ==> 'a' <= r <= 'z'
    ensures !('A' <= c <= 'Z') ==> r == c
  {
    if 'A' <= c <= 'Z' then (c as int + 32) as char else c
  }

  /** `String.prototype.toLowerCase`, ASCII letters only. */
  function ToLower(s: string): (r: string)
    ensures |r| == |s|
    ensures forall i :: 0 <= i < |s| ==> r[i] == LowerChar(s[i])
  {
    if s == [] then [] else [LowerChar(s[0])] + ToLower(s[1..])
  }

  /** `s.indexOf(c)`, with `|s|` standing for -1. */
  function IndexOf(s: string, c: char): (k: nat)
    ensures k <= |s|
  {
    if s == [] then 0 else if s[0] == c then 0 else 1 + IndexOf(s[1..], c)
  }

  /** `IndexOf` finds the first `c`, or gives `|s|` when there is none. */
  lemma {:induction false} IndexOfFirst(s: string, c: char)
    ensures var k := IndexOf(s, c);
            (forall i :: 0 <= i < k ==> s[i] != c) && (k < |s| ==> s[k] == c)
  {
    if s != [] && s[0] != c {
      IndexOfFirst(s[1..], c);
      assert forall i :: 1 <= i < IndexOf(s, c) ==> s[i] == s[1..][i - 1];
    }
  }

  /** `s` is the part before the first `c`, which holds no `c`, and the rest. */
  lemma IndexOfSplit(s: string, c: char)
    ensures var k := IndexOf(s, c);
            c !in s[..k] && s[..k] + s[k..] == s
  {
    IndexOfFirst(s, c);
    PrefixWithout(s, c, IndexOf(s, c));
  }

  lemma PrefixWithout(s: string, c: char, k: nat)
    requires k <= |s| && forall i :: 0 <= i < k ==> s[i] != c
    ensures c !in s[..k] && s[..k] + s[k..] == s
  {
    var h := s[..k];
    forall i | 0 <= i < |h| ensures h[i] != c {
      assert h[i] == s[i];
    }
    assert h + s[k..] == s;
  }

  /** `IndexOf` gives the position of the first `x`. */
  lemma {:induction false} IndexOfIs(s: string, x: char, k: nat)
    requires k < |s| && s[k] == x
    requires forall i :: 0 <= i < k ==> s[i] != x
    ensures IndexOf(s, x) == k
  {
    if k > 0 {
      assert forall i :: 0 <= i < k - 1 ==> s[1..][i] == s[i + 1];
      IndexOfIs(s[1..], x, k - 1);
    }
  }

  /** With no `c` in `s`, `IndexOf` gives `|s|`. */
  lemma IndexNone(s: string, c: char)
    requires c !in s
    ensures IndexOf(s, c) == |s|
  {
    IndexOfFirst(s, c);
  }

  /** Drops the `\r` that `/\r?\n/` swallows together with the following line break. */
  function DropCR(p: string): string {
    if p != [] && p[|p| - 1] == '\r' then p[..|p| - 1] else p
  }

  /** `s.split(/\r?\n/)`. */
  function SplitLines(s: string): (r: seq<string>)
    ensures |r| >= 1
    ensures forall i :: 0 <= i < |r| ==> '\n' !in r[i]
    decreases |s|
  {
    var k := IndexOf(s, '\n');
    IndexOfFirst(s, '\n');
    if k == |s| then [s] else [DropCR(s[..k])] + SplitLines(s[k + 1..])
  }

  /** `lines.join('\n')`. */
  function JoinLines(ls: seq<string>): (r: string)
    ensures ls != [] ==> ls[0] <= r
    ensures ls != [] ==> |ls[|ls| - 1]| <= |r| && r[|r| - |ls[|ls| - 1]|..] == ls[|ls| - 1]
  {
    if ls == [] then "" else if |ls| == 1 then ls[0] else ls[0] + "\n" + JoinLines(ls[1..])
  }

  /**
   * What splitting gives back for joined lines: each line, except that a `\r` ending a
   * line other than the last is read as part of the line break.
   */
  function ReadBack(ls: seq<string>): (r: seq<string>)
    requires |ls| >= 1
    ensures |r| == |ls| && r[|ls| - 1] == ls[|ls| - 1]
    ensures forall i :: 0 <= i < |ls| - 1 ==> r[i] == DropCR(ls[i])
  {
    if |ls| == 1 then ls
    else
      var r := [DropCR(ls[0])] + ReadBack(ls[1..]);
      assert forall i :: 0 < i < |ls| ==> r[i] == ReadBack(ls[1..])[i - 1] && ls[i] == ls[1..][i - 1];
      r
  }

  /** Splitting what was joined gives the lines back, as `ReadBack` says. */
  lemma {:induction false} SplitJoin(ls: seq<string>)
    requires |ls| >= 1
    requires forall i :: 0 <= i < |ls| ==> '\n' !in ls[i]
    ensures SplitLines(JoinLines(ls)) == ReadBack(ls)
  {
    if |ls| == 1 {
      IndexNone(ls[0], '\n');
    } else {
      var rest := ls[1..];
      assert forall i :: 0 <= i < |rest| ==> rest[i] == ls[i + 1];
      SplitFirst(ls[0], JoinLines(rest));
      SplitJoin(rest);
    }
  }

  /** A line without a line break, a line break, and then the rest: the line comes first. */
  lemma SplitFirst(a: string, rest: string)
    requires '\n' !in a
    ensures SplitLines(a + "\n" + rest) == [DropCR(a)] + SplitLines(rest)
  {
    var s := a + "\n" + rest;
    forall i | 0 <= i < |a| ensures s[i] != '\n' {
      assert s[i] == a[i];
    }
    IndexOfIs(s, '\n', |a|);
    assert s[..|a|] == a;
    assert s[|a| + 1..] == rest;
  }
}
