/**
 * The song id: `slugify` trims the title, lower-cases it, turns every run of
 * characters other than `a`-`z` and `0`-`9` into one `-`, and strips the dashes
 * left at either end. The library (src/lib/parseChordPro.ts) and the build script
 * (scripts/build-songs.ts) carry the same text of it.
 */
module Slug {
  import opened Text
  import opened Seqs

  predicate IsSlugChar(c: char) {
    'a' <= c <= 'z' || '0' <= c <= '9'
  }

  predicate SlugOrDash(s: string) {
    forall i :: 0 <= i < |s| ==> IsSlugChar(s[i]) || s[i] == '-'
  }

  predicate NoDoubleDash(s: string) {
    forall i :: 0 <= i < |s| - 1 ==> !(s[i] == '-' && s[i + 1] == '-')
  }

  /** What a slug looks like: letters, digits and single dashes, no dash at either end. */
  predicate IsSlug(s: string) {
    SlugOrDash(s) && NoDoubleDash(s) && (s == [] || (s[0] != '-' && s[|s| - 1] != '-'))
  }

  /** The letters and digits of `s`, in order. */
  function Alnums(s: string): string {
    if s == [] then [] else (if IsSlugChar(s[0]) then [s[0]] else []) + Alnums(s[1..])
  }

  /**
   * `replace(/[^a-z0-9]+/g, '-')`: every maximal run of other characters becomes one `-`.
   * `inRun` says that the character before `s` already belonged to such a run.
   */
  function CollapseRuns(s: string, inRun: bool): (r: string)
    ensures SlugOrDash(r) && NoDoubleDash(r)
    ensures inRun ==> r == [] || r[0] != '-'
    ensures Alnums(r) == Alnums(s)
  {
    if s == [] then []
    else
      var rest := CollapseRuns(s[1..], !IsSlugChar(s[0]));
      if IsSlugChar(s[0]) then
        AlnumsCons(s[0], rest);
        [s[0]] + rest
      else if inRun then rest
      else
        AlnumsCons('-', rest);
        "-" + rest
  }

  lemma AlnumsCons(c: char, s: string)
    ensures Alnums([c] + s) == (if IsSlugChar(c) then [c] else []) + Alnums(s)
  {
    assert ([c] + s)[1..] == s;
  }

  /** `replace(/^-+/, '')`. */
  function DropLeadingDashes(s: string): (r: string)
    ensures |r| <= |s| && r == s[|s| - |r|..]
    ensures r == [] || r[0] != '-'
    ensures Alnums(r) == Alnums(s)
  {
    if s != [] && s[0] == '-' then
      var r := DropLeadingDashes(s[1..]);
      LeadingDashStep(s, r);
      r
    else s
  }

  /** A suffix of the tail is a suffix; a leading dash adds no letter or digit. */
  lemma LeadingDashStep(s: string, r: string)
    requires s != [] && s[0] == '-' && |r| <= |s| - 1 && r == s[1..][|s| - 1 - |r|..]
    ensures r == s[|s| - |r|..] && Alnums(s) == Alnums(s[1..])
  {
    assert s[1..][|s| - 1 - |r|..] == s[|s| - |r|..];
  }

  /** `replace(/-+$/, '')`. */
  function DropTrailingDashes(s: string): (r: string)
    ensures |r| <= |s| && r == s[..|r|]
    ensures r == [] || r[|r| - 1] != '-'
    ensures Alnums(r) == Alnums(s)
  {
    if s != [] && s[|s| - 1] == '-' then
      var r := DropTrailingDashes(s[..|s| - 1]);
      AlnumsSnoc(s[..|s| - 1], '-');
      assert s[..|s| - 1] + ['-'] == s;
      r
    else s
  }

  lemma {:induction false} AlnumsSnoc(s: string, c: char)
    ensures Alnums(s + [c]) == Alnums(s) + (if IsSlugChar(c) then [c] else [])
  {
    if s != [] {
      assert (s + [c])[1..] == s[1..] + [c];
      AlnumsSnoc(s[1..], c);
    } else {
      assert [c][1..] == [];
    }
  }

  /** `replace(/^-+|-+$/g, '')`: the dashes at both ends go. */
  function StripDashes(s: string): (r: string)
    ensures SlugOrDash(s) ==> SlugOrDash(r)
    ensures NoDoubleDash(s) ==> NoDoubleDash(r)
    ensures r == [] || (r[0] != '-' && r[|r| - 1] != '-')
    ensures Alnums(r) == Alnums(s)
  {
    StripFacts(s);
    DropTrailingDashes(DropLeadingDashes(s))
  }

  lemma StripFacts(s: string)
    ensures var r := DropTrailingDashes(DropLeadingDashes(s));
            (SlugOrDash(s) ==> SlugOrDash(r)) && (NoDoubleDash(s) ==> NoDoubleDash(r)) &&
            (r == [] || (r[0] != '-' && r[|r| - 1] != '-')) && Alnums(r) == Alnums(s)
  {
    var t := DropLeadingDashes(s);
    StripKeeps(s, t, DropTrailingDashes(t));
  }

  /** A prefix `r` of a suffix `t` of `s` is a slice of `s`: it keeps the alphabet and the single dashes of `s`. */
  lemma StripKeeps(s: string, t: string, r: string)
    requires |t| <= |s| && t == s[|s| - |t|..] && |r| <= |t| && r == t[..|r|]
    ensures SlugOrDash(s) ==> SlugOrDash(r)
    ensures NoDoubleDash(s) ==> NoDoubleDash(r)
    ensures r != [] ==> r[0] == t[0]
  {
    var a := |s| - |t|;
    PrefixOfSuffix(s, t, r, a);
    SliceKeeps(s, a, a + |r|);
  }

  /** A prefix of a suffix is a slice. */
  lemma PrefixOfSuffix(s: string, t: string, r: string, a: nat)
    requires a <= |s| && t == s[a..] && |r| <= |t| && r == t[..|r|]
    ensures a + |r| <= |s| && r == s[a..a + |r|]
    ensures r != [] ==> r[0] == t[0]
  {
  }

  lemma SliceKeeps(s: string, a: nat, b: nat)
    requires a <= b <= |s|
    ensures SlugOrDash(s) ==> SlugOrDash(s[a..b])
    ensures NoDoubleDash(s) ==> NoDoubleDash(s[a..b])
  {
    var t := s[a..b];
    assert forall i :: 0 <= i < |t| ==> t[i] == s[a + i];
  }

  /** `slugify`: the id made from a title. */
  function Slugify(input: string): (r: string)
    ensures IsSlug(r)
    ensures Alnums(r) == Alnums(ToLower(Trim(input)))
  {
    StripDashes(CollapseRuns(ToLower(Trim(input)), false))
  }

  // ---------------------------------------------------------------------------
  // A reference reading of slugify: the words of the title joined by dashes.
  // ---------------------------------------------------------------------------

  /** A word: a non-empty run of letters and digits. */
  predicate IsWord(w: string) {
    w != [] && forall j :: 0 <= j < |w| ==> IsSlugChar(w[j])
  }

  /** The longest prefix of `s` made of letters and digits. */
  function SlugPrefix(s: string): (r: string)
    ensures |r| <= |s| && r == s[..|r|]
    ensures forall j :: 0 <= j < |r| ==> IsSlugChar(r[j])
    ensures |r| < |s| ==> !IsSlugChar(s[|r|])
  {
    if s != [] && IsSlugChar(s[0]) then
      var r := SlugPrefix(s[1..]);
      assert [s[0]] + s[1..][..|r|] == s[..|r| + 1];
      [s[0]] + r
    else []
  }

  /** The maximal runs of letters and digits in `s`, in order. */
  function Words(s: string): (ws: seq<string>)
    ensures forall i :: 0 <= i < |ws| ==> IsWord(ws[i])
    decreases |s|
  {
    if s == [] then []
    else if !IsSlugChar(s[0]) then Words(s[1..])
    else
      var w := SlugPrefix(s);
      [w] + Words(s[|w|..])
  }

  /** The words, with one `-` between neighbours. */
  function JoinDash(ws: seq<string>): (r: string)
    ensures ws == [] ==> r == []
  {
    if ws == [] then []
    else if |ws| == 1 then ws[0]
    else ws[0] + "-" + JoinDash(ws[1..])
  }

  function Dash(b: bool): string {
    if b then "-" else ""
  }

  /**
   * Slugify is the words of the lower-cased, trimmed title joined by single
   * dashes: each run of other characters between two words becomes exactly one `-`,
   * and the runs at either end vanish.
   */
  lemma SlugifyWords(input: string)
    ensures Slugify(input) == JoinDash(Words(ToLower(Trim(input))))
  {
    var t := ToLower(Trim(input));
    var lead, trail := CollapseShape(t, false);
    JoinDashEnds(Words(t));
    StripAround(JoinDash(Words(t)), lead, trail);
  }

  /** Collapsing the runs gives the joined words, with at most one dash at either end. */
  lemma {:induction false} CollapseShape(s: string, inRun: bool) returns (lead: bool, trail: bool)
    ensures CollapseRuns(s, inRun) == Dash(lead) + JoinDash(Words(s)) + Dash(trail)
    ensures inRun ==> !lead
    ensures Words(s) == [] ==> !trail
    ensures s != [] && !IsSlugChar(s[0]) ==> lead == !inRun
    decreases |s|, 1
  {
    if s == [] {
      lead, trail := false, false;
    } else if !IsSlugChar(s[0]) {
      var t := s[1..];
      assert s == [s[0]] + t;
      var l2, t2 := CollapseShape(t, true);
      ShapeGap(s[0], t, inRun, t2);
      lead, trail := !inRun, t2;
    } else {
      lead := false;
      trail := ShapeWord(s, inRun);
    }
  }

  /** A run of other characters in front: one dash, unless the run started earlier. */
  lemma ShapeGap(c: char, t: string, inRun: bool, t2: bool)
    requires !IsSlugChar(c)
    requires CollapseRuns(t, true) == Dash(false) + JoinDash(Words(t)) + Dash(t2)
    ensures CollapseRuns([c] + t, inRun) == Dash(!inRun) + JoinDash(Words([c] + t)) + Dash(t2)
  {
    CollapseCons(c, t, inRun);
    WordsCons(c, t);
    DashAssoc(Dash(!inRun), JoinDash(Words(t)), Dash(t2));
  }

  /** A word in front: the word, then the rest collapsed after a dash. */
  lemma {:induction false} ShapeWord(s: string, inRun: bool) returns (trail: bool)
    requires s != [] && IsSlugChar(s[0])
    ensures CollapseRuns(s, inRun) == Dash(false) + JoinDash(Words(s)) + Dash(trail)
    decreases |s|, 0
  {
    var w := SlugPrefix(s);
    var rest := s[|w|..];
    PrefixCons(s[0], s[1..]);
    assert s == [s[0]] + s[1..];
    CollapsePrefix(s, inRun);
    assert Words(s) == [w] + Words(rest);
    var l, t := CollapseShape(rest, false);
    JoinDashCons(w, Words(rest));
    trail := if Words(rest) == [] then l else t;
    WordAlgebra(w, CollapseRuns(rest, false), JoinDash(Words(rest)), Words(rest) != [], l, t);
  }

  lemma WordsCons(c: char, t: string)
    requires !IsSlugChar(c)
    ensures Words([c] + t) == Words(t)
  {
    assert ([c] + t)[1..] == t;
  }

  lemma DashAssoc(a: string, j: string, b: string)
    ensures a + (Dash(false) + j + b) == a + j + b
  {
  }

  lemma WordAlgebra(w: string, x: string, j: string, e: bool, l: bool, t: bool)
    requires x == Dash(l) + j + Dash(t)
    requires !e ==> j == [] && !t
    requires e ==> l
    ensures w + x == Dash(false) + (w + Dash(e) + j) + Dash(if e then t else l)
  {
  }

  /** A leading word runs through unchanged, and the character after it starts no run. */
  lemma {:induction false} CollapsePrefix(s: string, inRun: bool)
    requires SlugPrefix(s) != []
    ensures CollapseRuns(s, inRun) == SlugPrefix(s) + CollapseRuns(s[|SlugPrefix(s)|..], false)
    decreases |s|
  {
    var c, t := s[0], s[1..];
    assert s == [c] + t;
    CollapseCons(c, t, inRun);
    PrefixCons(c, t);
    var w, v := SlugPrefix(s), SlugPrefix(t);
    assert w == [c] + v;
    if v != [] {
      CollapsePrefix(t, false);
      assert t[|v|..] == s[|w|..];
      Assoc([c], v, CollapseRuns(s[|w|..], false));
    } else {
      assert s[|w|..] == t;
    }
  }

  lemma CollapseCons(c: char, t: string, inRun: bool)
    ensures CollapseRuns([c] + t, inRun)
            == (if IsSlugChar(c) then [c] else Dash(!inRun)) + CollapseRuns(t, !IsSlugChar(c))
  {
    assert ([c] + t)[1..] == t;
  }

  lemma PrefixCons(c: char, t: string)
    ensures SlugPrefix([c] + t) == if IsSlugChar(c) then [c] + SlugPrefix(t) else []
  {
    assert ([c] + t)[1..] == t;
  }

  lemma JoinDashCons(w: string, ws: seq<string>)
    ensures JoinDash([w] + ws) == w + Dash(ws != []) + JoinDash(ws)
  {
    if ws != [] {
      assert ([w] + ws)[1..] == ws;
    }
  }

  /** Joined words start and end with a letter or digit. */
  lemma {:induction false} JoinDashEnds(ws: seq<string>)
    requires forall i :: 0 <= i < |ws| ==> IsWord(ws[i])
    ensures var r := JoinDash(ws); (r == []) == (ws == []) && (r == [] || (IsSlugChar(r[0]) && IsSlugChar(r[|r| - 1])))
  {
    if |ws| > 1 {
      JoinDashEnds(ws[1..]);
      assert IsWord(ws[0]);
    } else if ws != [] {
      assert IsWord(ws[0]);
    }
  }

  /** Stripping removes exactly the dashes put around a text that neither starts nor ends with one. */
  lemma StripAround(j: string, lead: bool, trail: bool)
    requires j == [] || (j[0] != '-' && j[|j| - 1] != '-')
    ensures StripDashes(Dash(lead) + j + Dash(trail)) == j
  {
    StripUnfold(Dash(lead) + j + Dash(trail));
    DropBoth(j, lead, trail);
  }

  lemma DropBoth(j: string, lead: bool, trail: bool)
    requires j == [] || (j[0] != '-' && j[|j| - 1] != '-')
    ensures DropTrailingDashes(DropLeadingDashes(Dash(lead) + j + Dash(trail))) == j
  {
    var t := j + Dash(trail);
    Assoc(Dash(lead), j, Dash(trail));
    DropLeadDash(lead, t);
    if j == [] {
      EmptyFront(Dash(trail));
      DropLeadDash(trail, []);
    } else {
      LeadKept(t);
      DropTrailDash(j, trail);
    }
  }

  lemma StripUnfold(x: string)
    ensures StripDashes(x) == DropTrailingDashes(DropLeadingDashes(x))
  {
  }

  lemma DropLeadDash(lead: bool, t: string)
    ensures DropLeadingDashes(Dash(lead) + t) == DropLeadingDashes(t)
  {
    if lead {
      var x := "-" + t;
      assert Dash(lead) + t == x && x != [] && x[0] == '-' && x[1..] == t;
    } else {
      assert Dash(lead) + t == t;
    }
  }

  lemma LeadKept(t: string)
    requires t == [] || t[0] != '-'
    ensures DropLeadingDashes(t) == t
  {
  }

  lemma DropTrailDash(j: string, trail: bool)
    requires j == [] || j[|j| - 1] != '-'
    ensures DropTrailingDashes(j + Dash(trail)) == j
  {
    if trail {
      var x := j + "-";
      assert j + Dash(trail) == x && x != [] && x[|x| - 1] == '-' && x[..|x| - 1] == j;
    } else {
      assert j + Dash(trail) == j;
    }
    TrailKept(j);
  }

  lemma TrailKept(j: string)
    requires j == [] || j[|j| - 1] != '-'
    ensures DropTrailingDashes(j) == j
  {
  }

  lemma {:induction false} CollapseSlug(s: string, inRun: bool)
    requires SlugOrDash(s) && NoDoubleDash(s)
    requires inRun ==> s == [] || s[0] != '-'
    ensures CollapseRuns(s, inRun) == s
    decreases |s|
  {
    if s != [] {
      assert NoDoubleDash(s[1..]) by {
        forall i | 0 <= i < |s[1..]| - 1 ensures !(s[1..][i] == '-' && s[1..][i + 1] == '-') {
          assert s[1..][i] == s[i + 1] && s[1..][i + 1] == s[i + 2];
        }
      }
      assert s[0] == '-' && |s| > 1 ==> s[1] != '-';
      CollapseSlug(s[1..], !IsSlugChar(s[0]));
    }
  }

  /** A slug is its own slug: slugify is idempotent. */
  lemma SlugifyIdempotent(input: string)
    ensures Slugify(Slugify(input)) == Slugify(input)
  {
    SlugFixed(Slugify(input));
  }

  /** Slugifying a slug changes nothing. */
  lemma SlugFixed(s: string)
    requires IsSlug(s)
    ensures Slugify(s) == s
  {
    TrimOfTrimmed(s);
    LowerSlug(s);
    CollapseSlug(s, false);
    StripSlug(s);
  }

  lemma LowerSlug(s: string)
    requires SlugOrDash(s)
    ensures ToLower(s) == s
  {
    var l := ToLower(s);
    forall i | 0 <= i < |s| ensures l[i] == s[i] {
      assert IsSlugChar(s[i]) || s[i] == '-';
    }
  }

  lemma StripSlug(s: string)
    requires s == [] || (s[0] != '-' && s[|s| - 1] != '-')
    ensures StripDashes(s) == s
  {
    assert DropLeadingDashes(s) == s;
  }
}
