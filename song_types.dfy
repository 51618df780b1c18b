/**
 * The value types of the song library (src/types.ts): a parsed line is a list of
 * tokens, each an optional chord and the lyric sung under it.
 */
module SongTypes {

  datatype Option<+T> = None | Some(value: T)

  /** `{ chord: string | null, lyric: string }`. */
  datatype Token = Token(chord: Option<string>, lyric: string)

  datatype Line = Line(tokens: seq<Token>, raw: string)

  datatype Section = Section(name: string, lines: seq<Line>)

  /** `key?: string` is `None` when no `{key: ...}` directive was seen. */
  datatype SongData = SongData(id: string, title: string, key: Option<string>,
                               sections: seq<Section>, sourcePath: string)

  /** The search index record: `sections` holds the non-blank source lines. */
  datatype SongIndexEntry = SongIndexEntry(id: string, title: string, key: Option<string>,
                                           sections: seq<string>)

  /** The blank token `{ chord: null, lyric: '' }`. */
  const BlankToken := Token(None, "")

  /** `token.chord` is truthy in JavaScript: present and not the empty string. */
  predicate HasChord(t: Token) {
    t.chord.Some? && t.chord.value != ""
  }

  /** The lyric text of a token list, in order. */
  function Lyrics(ts: seq<Token>): string {
    if ts == [] then "" else Lyrics(ts[..|ts| - 1]) + ts[|ts| - 1].lyric
  }

  lemma {:induction false} LyricsAppend(a: seq<Token>, b: seq<Token>)
    ensures Lyrics(a + b) == Lyrics(a) + Lyrics(b)
    decreases |b|
  {
    if b == [] {
      assert a + b == a;
    } else {
      assert (a + b)[..|a + b| - 1] == a + b[..|b| - 1];
      LyricsAppend(a, b[..|b| - 1]);
    }
  }

  lemma LyricsCons(t: Token, b: seq<Token>)
    ensures Lyrics([t] + b) == t.lyric + Lyrics(b)
  {
    LyricsAppend([t], b);
    assert [t][..0] == [];
  }

  /** The chords of the chord-carrying tokens, in order. */
  function ChordsOf(ts: seq<Token>): seq<string> {
    if ts == [] then []
    else ChordsOf(ts[..|ts| - 1]) + (if HasChord(ts[|ts| - 1]) then [ts[|ts| - 1].chord.value] else [])
  }

  lemma {:induction false} ChordsOfAppend(a: seq<Token>, b: seq<Token>)
    ensures ChordsOf(a + b) == ChordsOf(a) + ChordsOf(b)
    decreases |b|
  {
    if b == [] {
      assert a + b == a;
    } else {
      assert (a + b)[..|a + b| - 1] == a + b[..|b| - 1];
      ChordsOfAppend(a, b[..|b| - 1]);
    }
  }

  lemma ChordsOfCons(t: Token, b: seq<Token>)
    ensures ChordsOf([t] + b) == (if HasChord(t) then [t.chord.value] else []) + ChordsOf(b)
  {
    ChordsOfAppend([t], b);
    assert [t][..0] == [];
  }

  /** The chord fields that are present, empty ones included, in order. */
  function ChordSlots(ts: seq<Token>): seq<string> {
    if ts == [] then []
    else ChordSlots(ts[..|ts| - 1]) + (if ts[|ts| - 1].chord.Some? then [ts[|ts| - 1].chord.value] else [])
  }

  lemma {:induction false} ChordSlotsAppend(a: seq<Token>, b: seq<Token>)
    ensures ChordSlots(a + b) == ChordSlots(a) + ChordSlots(b)
    decreases |b|
  {
    if b == [] {
      assert a + b == a;
    } else {
      assert (a + b)[..|a + b| - 1] == a + b[..|b| - 1];
      ChordSlotsAppend(a, b[..|b| - 1]);
    }
  }

  lemma ChordSlotsCons(t: Token, b: seq<Token>)
    ensures ChordSlots([t] + b) == (if t.chord.Some? then [t.chord.value] else []) + ChordSlots(b)
  {
    ChordSlotsAppend([t], b);
    assert [t][..0] == [];
  }
}
