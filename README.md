# holy-songs ChordPro core, modelled in Dafny

This project models the song-notation core of holy-songs and proves properties of the model. Songs are plain text:

- `{title: …}`, `{key: …}` and `{section: …}` directive lines;
- lyric lines with inline `[Chord]` markers;
- blank lines.

The model covers:

- the **transposition engine** (`src/lib/chords.ts`): flat-to-sharp normalisation, root transposition over the twelve sharp-spelled notes, chords, token lists, key distances, and whole ChordPro sources including the `{key: X}` line;
- the **parser** (`src/lib/parseChordPro.ts`): `slugify`; the tokenizer in which a chord token absorbs the lyric that follows it; and the line fold that carries a current section and commits only non-empty sections;
- the **build-time parser** (`scripts/build-songs.ts`): its own tokenizer, whose chord tokens have an empty lyric; `parseSong`; and the index entry built from a song;
- the **line editor** of `src/components/SongEditor.tsx`:
  - the extraction of lyrics and chord positions from a line's tokens;
  - `reconstructLine`;
  - the chord delete, rename, move and add handlers;
  - `handleLineChange`;
- the **chord line** of the song view (`padChordLine` in `src/App.tsx`).

## Modules

| file | module | models |
|---|---|---|
| `text.dfy` | `Text` | `trim` and `\s` with ECMAScript's white space, `toLowerCase` on ASCII, `indexOf`, `split(/\r?\n/)` and `join('\n')` |
| `song_types.dfy` | `SongTypes` | the records of `src/types.ts`; the lyrics and chords of a token list |
| `markers.dfy` | `Markers` | a hand-written scanner for the marker patterns; a line as a list of gaps and markers; `regex.exec` as the method `Exec` |
| `scan_facts.dfy` | `ScanFacts` | what the scanner covers; agreement of `Exec` with the scan; rescanning after markers are rewritten |
| `slug.dfy` | `Slug` | `slugify`, which is the same text in both parsers |
| `chords.dfy` | `Chords` | `chords.ts` |
| `directives.dfy` | `Directives` | the directive pattern; the specification of the line fold, shared by both parsers |
| `chordpro.dfy` | `ChordPro` | `parseTokens` and `parseChordPro` of `parseChordPro.ts` |
| `build_songs.dfy` | `BuildSongs` | `parseTokens`, `parseSong` and the index entry of `build-songs.ts` |
| `song_editor.dfy` | `SongEditor` | the line editor |
| `chord_display.dfy` | `ChordDisplay` | `padChordLine` |
| `seqs.dfy` | `Seqs` | small sequence facts |

## How each layer is specified

**Loops become methods.** Every loop in the source is a method with a loop. The method is proved equal to a declarative function:

- `ChordPro.ParseTokens` and `BuildSongs.ParseTokens` (the `regex.exec` loops) equal `TokensOf`. Each `TokensOf` is a function of the line's scan into gaps and markers.
- `ChordPro.ParseChordPro` and `BuildSongs.ParseSong` (the line folds) equal `Directives.SongOf`. `SongOf` groups the classified lines into sections and takes the last `title` and `key` values.
- `SongEditor.ExtractChords` equals `Lyrics` and `ChordsOfLine`.
- `SongEditor.ReconstructLine` equals `Flatten(Rebuild(…))`.
- `ChordDisplay.PadChordLine` equals `ChordLine` and `Lyrics`.

The source's promises are then proved as lemmas about those functions.

**Regular expressions become scanners.** `Markers.Scan(s, false)` reads `\[([^\]]+)\]` and `Markers.Scan(s, true)` reads `\[([A-G](?:#|b)?[^\]]*)\]`. Each splits a line into `Gap` and `Marker` segments.

**JavaScript remainder is written out.** `%` keeps the sign of the dividend, as `Chords.JsRem12` shows. `undefined` is `None`, and the template literal renders it as `"undefined"` (`Chords.Render`).

## Model

| member | source | states |
|---|---|---|
| Text.Trim | src/lib/parseChordPro.ts:81 | the trimmed text has no space at either end, and is empty exactly when the input is all white space |
| Text.ToLower | src/lib/parseChordPro.ts:68 | lower-casing keeps the length and maps each character with `LowerChar` (ASCII upper case to lower case, all else kept) |
| Text.IndexOf | src/lib/parseChordPro.ts:29 | the position of the first `[`, or the length when there is none, lies within the text |
| Text.IndexOfFirst | src/lib/parseChordPro.ts:29-32 | no `[` comes before the found position, and the character there is `[` |
| Text.SplitLines | src/lib/parseChordPro.ts:52 | splitting on `\r?\n` gives at least one line, none holding a `\n` |
| Text.SplitJoin | src/components/SongEditor.tsx:15-20 | splitting lines joined with `\n` gives them back, except that a `\r` ending any line but the last is consumed as part of the break |
| Text.JoinLines | src/components/SongEditor.tsx:20 | `join('\n')` begins with the first line and ends with the last |
| Markers.Exec | src/lib/parseChordPro.ts:13-17 | `regex.exec` from `lastIndex`: the first position at or after it where a marker opens, or none when no marker opens in the rest of the line |
| Markers.CloseOf | src/lib/parseChordPro.ts:13 | the `]` closing a marker lies after its `[` |
| Markers.Scan | src/lib/parseChordPro.ts:13-17 | the scan is empty exactly when the text is; ScanCovers, ExecFound and ExecNone state that it cuts the line where the `exec` loop finds its matches |
| ScanFacts.ScanCovers | src/lib/parseChordPro.ts:13 | the scan of a line into gaps and markers, written back out, is the line |
| ScanFacts.ScanNoBracket | src/lib/chords.ts:59 | a text holding no `[` scans as one gap, so no match is found in it |
| ScanFacts.PlainKept | src/lib/chords.ts:59-61 | `replace` with a callback leaves a text holding no `[` unchanged |
| ScanFacts.ExecFound | src/lib/parseChordPro.ts:17-19 | a marker found by `exec` from `from` splits the rest of the line into the text before it, the marker and the scan after it |
| ScanFacts.ExecNone | src/lib/parseChordPro.ts:17 | when `exec` finds nothing, the rest of the line is one gap |
| ScanFacts.ScanMarker | src/lib/parseChordPro.ts:13 | `[c]` with non-empty `c` free of `]` scans as the marker `c` |
| ScanFacts.ScanRelabel | src/lib/chords.ts:59-61 | rewriting marker contents into contents that are still non-empty and free of `]` leaves a line that scans to the rewritten markers |
| ScanFacts.ChordScanAgrees | src/lib/chords.ts:59 | rewriting through the chord-only pattern gives the same text as through the general pattern, when the rewrite keeps non-chord contents and no marker holds `[` |
| Slug.CollapseRuns | src/lib/parseChordPro.ts:7 | the result has only slug characters and dashes, no `--`, no leading `-` inside a run already open, and the same letters and digits; that each run becomes exactly one `-` is `Slug.CollapseShape` |
| Slug.DropLeadingDashes | src/lib/parseChordPro.ts:8 | `^-+` removed: a suffix of the input not starting with `-`, with the same letters and digits |
| Slug.DropTrailingDashes | src/lib/parseChordPro.ts:8 | `-+$` removed: a prefix of the input not ending with `-`, with the same letters and digits |
| Slug.StripDashes | src/lib/parseChordPro.ts:8 | no `-` at either end, no new `--`, the same letters and digits |
| Slug.Slugify | src/lib/parseChordPro.ts:3-9 | the result contains only `[a-z0-9-]`, has no leading, trailing or double `-`, and keeps the letters and digits of the lower-cased, trimmed input |
| Slug.SlugifyWords | src/lib/parseChordPro.ts:3-9 | the id is exactly the words of the lower-cased, trimmed title joined by single `-`: a run of other characters between two words becomes one `-`, and runs at either end vanish |
| Slug.SlugPrefix | src/lib/parseChordPro.ts:7 | the longest prefix of letters and digits: a prefix, all slug characters, followed by a character outside `[a-z0-9]` or by nothing |
| Slug.Words | src/lib/parseChordPro.ts:7 | the maximal runs of `[a-z0-9]`, each a non-empty word |
| Slug.JoinDashEnds | src/lib/parseChordPro.ts:7-8 | words joined by dashes are empty only for no words, and start and end with a letter or digit |
| Slug.CollapseShape | src/lib/parseChordPro.ts:7 | collapsing the runs gives the joined words with at most one `-` in front and one behind; none in front inside an open run, none behind when there is no word |
| Slug.ShapeGap | src/lib/parseChordPro.ts:7 | a run in front adds one `-`, unless a run was already open |
| Slug.ShapeWord | src/lib/parseChordPro.ts:7 | a word in front is kept and followed by one `-` for the run after it |
| Slug.CollapsePrefix | src/lib/parseChordPro.ts:7 | a leading word is copied through, and the character after it opens a new run |
| Slug.StripAround | src/lib/parseChordPro.ts:8 | stripping removes exactly one `-` put at either end of a text that neither starts nor ends with one |
| Slug.SlugifyIdempotent | scripts/build-songs.ts:38-44 | slugifying a slug changes nothing |
| Slug.SlugFixed | src/lib/parseChordPro.ts:3-9 | every well-formed slug is its own slug |
| Slug.CollapseSlug | src/lib/parseChordPro.ts:7 | collapsing runs leaves a text of slug characters and single dashes unchanged |
| Slug.LowerSlug | src/lib/parseChordPro.ts:6 | lower-casing leaves slug characters unchanged |
| Slug.StripSlug | src/lib/parseChordPro.ts:8 | stripping dashes leaves a text with no dash at either end unchanged |
| Chords.LetterIndex | src/lib/chords.ts:1 | the position of a natural note in `NOTE_SEQUENCE`, or -1 exactly for letters outside A–G |
| Chords.NoteIndex | src/lib/chords.ts:16 | `NOTE_SEQUENCE.indexOf` lies in -1..11 |
| Chords.NoteIndexSpec | src/lib/chords.ts:16 | `indexOf` finds the note's position, and gives -1 exactly when the note is not in `NOTE_SEQUENCE` |
| Chords.NoteIndexOf | src/lib/chords.ts:1 | each note of `NOTE_SEQUENCE` is found at its own position |
| Chords.NoteShape | src/lib/chords.ts:1 | every note of `NOTE_SEQUENCE` is a letter A–G, optionally followed by `#` |
| Chords.NormalizeRoot | src/lib/chords.ts:2-12 | `Db Eb Gb Ab Bb` become the sharp one semitone below the letter; any other root is returned as it is |
| Chords.FlatToSharp | src/lib/chords.ts:2-8 | `FLAT_MAP` has an entry for each of `Db Eb Gb Ab Bb`, and only for two-character flat spellings; each entry is a two-character sharp on another letter, which NormalizeRoot puts a semitone below the flat's letter |
| Chords.JsRem12 | src/lib/chords.ts:18 | JavaScript `% 12`: Euclidean for non-negative operands; for negative ones, non-positive and 12 below the Euclidean remainder unless zero |
| Chords.Render | src/lib/chords.ts:28 | the template literal writes `undefined` for a missing root and the root otherwise |
| Chords.TransposeRoot | src/lib/chords.ts:14-20 | a root outside `NOTE_SEQUENCE` after normalising comes back unchanged; `undefined` (`None`) arises only when `index + steps + 12` is negative, so only below an octave; RootMoves and TransposeUndefined state the moved index and the exact `undefined` condition |
| Chords.SplitChord | src/lib/chords.ts:24-26 | `/^([A-G](?:#\|b)?)(.*)$/` matches exactly chords that start with A–G and have no line terminator after it; the root (one letter plus an optional accidental) and the suffix concatenate to the chord |
| Chords.TransposeChord | src/lib/chords.ts:22-29 | with zero steps, or a chord the pattern rejects, the chord is returned unchanged |
| Chords.RootKnown | src/lib/chords.ts:14-17 | a matched root is outside `NOTE_SEQUENCE` after normalising exactly when it is `Cb`, `Fb`, `E#` or `B#` |
| Chords.RootMoves | src/lib/chords.ts:14-19 | for steps of at least -12, a known root moves to the note `(index + steps) mod 12` |
| Chords.TransposeMovesRoot | src/lib/chords.ts:22-28 | a chord with a known root becomes the moved sharp-spelled root followed by the suffix verbatim (so a slash bass is never transposed) |
| Chords.UnknownRootUnchanged | src/lib/chords.ts:15-17 | a chord whose root is `Cb`, `Fb`, `E#` or `B#` is returned unchanged |
| Chords.TransposeUndefined | src/lib/chords.ts:18-19 | the lookup is `undefined` exactly when `index + steps + 12` is negative and not a multiple of 12 |
| Chords.TransposePeriodic | src/lib/chords.ts:18 | for steps of at least -12, other than 0 and -12, transposing by `s` and by `s + 12` agree |
| Chords.PeriodicFailsAtZero | src/lib/chords.ts:23 | the zero-step fast path breaks periodicity: `Bb` by 0 is `Bb` but by 12 is `A#`, and by -12 is `A#` |
| Chords.TransposeRoundTrip | src/lib/chords.ts:14-28 | for non-zero steps in -12..12 (at 0 the fast path keeps a flat root, `Chords.PeriodicFailsAtZero`), transposing up and back down gives the chord with its root flat-normalised |
| Chords.RoundTripMergesSuffix | src/lib/chords.ts:24 | the round trip fails when the suffix starts with an accidental: `C#b` by +1 and back is `C` |
| Chords.TransposeNoteName | src/lib/chords.ts:22-28 | a sharp-spelled note with a plain suffix moves to the note `(j + steps) mod 12`, suffix kept |
| Chords.TransposeChordChars | src/lib/chords.ts:22-28 | transposition brings in no character that is not in the chord, a note letter, `#` or a letter of `undefined` |
| Chords.TransposeKeepsGoodContent | src/lib/chords.ts:59-61 | a non-empty marker content free of `]` stays non-empty and free of `]` |
| Chords.TransposeChordNonEmpty | src/lib/chords.ts:22-28 | a non-empty chord stays non-empty |
| Chords.TransposeTokens | src/lib/chords.ts:31-35 | the list keeps its length and every lyric; a token whose chord is null or `""` is kept untouched; any other token changes only its chord, to the transposed chord |
| Chords.TransposeTokensLyrics | src/lib/chords.ts:31-35 | every lyric is kept |
| Chords.TransposeTokensChords | src/lib/chords.ts:31-35 | the chords of the result are the chords of the input, each transposed, in order |
| Chords.TransposeTokensZero | src/lib/chords.ts:23 | zero steps leave a token list unchanged |
| Chords.TransposeToken | src/lib/chords.ts:32-34 | the lyric is kept; a token with a truthy chord keeps a truthy chord; a token whose chord is null or `""` is returned as it is |
| Chords.TransposeDelta | src/lib/chords.ts:37-43 | the distance lies in -11..11 and is 0 when either key is missing or empty |
| Chords.DeltaLands | src/lib/chords.ts:37-43 | for two known keys, transposing the first by the distance gives the normalised second |
| Chords.DeltaUnknown | src/lib/chords.ts:39-41 | a key outside `NOTE_SEQUENCE` (such as `Am` or `Cb`) gives distance 0 |
| Chords.TransposeMarkersRescan | src/lib/chords.ts:59-61 | when no marker holds `[`, the rewritten line scans to the original markers, each transposed |
| Chords.TransposeMarkers | src/lib/chords.ts:59-61 | a line holding no `[` is returned unchanged; TransposeMarkersRescan states what happens to the markers of any other line |
| Chords.RelabelKeepsOut | src/lib/chords.ts:59-61 | rewriting marker contents brings in no character that the rewrite itself does not bring in |
| Chords.SkipSpaces | src/lib/chords.ts:51 | `\s*`: the end of the run of white space from `i` |
| Chords.KeyLine | src/lib/chords.ts:51 | a matched `{key: X}` line is prefix + key + suffix; the key is a note letter with an optional accidental, in either case; the line runs from `{` to `}` |
| Chords.KeyLineOf | src/lib/chords.ts:51 | every line built as `{`, spaces, `key` in any case, `:`, spaces, a key, spaces and `}` matches, with these three parts |
| Chords.KeyLineAt | src/lib/chords.ts:51 | a line with that shape at given positions matches with the parts cut there |
| Chords.KeyLineTransposed | src/lib/chords.ts:51-56 | on a key line whose key is known, only the key changes, to the moved sharp-spelled note; prefix and suffix are kept |
| Chords.KeyLineUnknownKept | src/lib/chords.ts:51-56 | a key line whose key is unknown (such as `{key: g}`) is kept unchanged |
| Chords.TransposeLineNoBreak | src/lib/chords.ts:49-62 | transposing a line brings in no line break |
| Chords.TransposeSourceLine | src/lib/chords.ts:49-62 | a key line keeps its prefix and its suffix around the key; a line that is neither a key line nor holds a `[` is returned unchanged |
| Chords.TransposeLines | src/lib/chords.ts:49 | the number of lines is kept |
| Chords.TransposeChordProSource | src/lib/chords.ts:45-46 | zero steps return the source unchanged |
| Chords.TransposeSourceLines | src/lib/chords.ts:45-65 | the result has as many lines as the source; line `i` is line `i` transposed (a key line rewritten, markers rewritten otherwise); `\r\n` becomes `\n` |
| Chords.TransposeRootWrapped | src/lib/chords.ts:18 | corrected lookup: a known root always lands in `NOTE_SEQUENCE`, an unknown one is kept |
| Chords.TransposeChordWrapped | src/lib/chords.ts:22-29 | corrected `transposeChord`: the suffix is kept, and for non-zero steps a known root always becomes a name in `NOTE_SEQUENCE`, never `undefined` |
| Chords.WrappedAgrees | src/lib/chords.ts:18 | for steps of at least -12, the corrected transposition agrees with the one as written |
| Chords.WrappedPeriodic | src/lib/chords.ts:18 | the corrected transposition is periodic for all steps other than 0 and -12 |
| Chords.WrappedRootPeriodic | src/lib/chords.ts:18 | the corrected root lookup is periodic for all steps |
| Chords.UndefinedBelowOctave | src/lib/chords.ts:18 | as written, `C` by -13 becomes `undefined`; corrected, it becomes `B` |
| Directives.PartsShape | src/lib/parseChordPro.ts:65 | a matched directive line is exactly `{` tag `:` value `}` with a non-empty tag free of `:` |
| Directives.DirectiveParts | src/lib/parseChordPro.ts:65 | a match spans the line from `{` to `}`: the captured tag is non-empty, the value is one the `\s*(.+)\s*` part accepts, and with `{`, `:` and `}` the two fill the line; PartsShape states their exact placement |
| Directives.DirectiveMatch | src/lib/parseChordPro.ts:65-69 | a line is a directive exactly when the pattern matches it; the value is trimmed, and the tag is no longer than its capture |
| Directives.DirectiveTag | src/lib/parseChordPro.ts:65-68 | a directive spans the whole line from `{` to `}`; its tag is lower case and free of `:` |
| Directives.DirectiveValue | src/lib/parseChordPro.ts:65-69 | the value is trimmed and holds no line terminator |
| Directives.DirectiveOf | src/lib/parseChordPro.ts:65-69 | every line `{tag:value}` whose parts meet the pattern matches, with tag lower-cased and trimmed and value trimmed |
| Directives.SpacesValue | src/lib/parseChordPro.ts:65-69 | `{title: }` matches with an empty value |
| Directives.TagCaseInsensitive | src/lib/parseChordPro.ts:68 | a directive's tag matches whatever its case |
| Directives.LowerTrim | src/lib/parseChordPro.ts:68 | trimming and lower-casing commute |
| Directives.Kinds | src/lib/parseChordPro.ts:64-86 | each line is classified on its own: directive, blank line or content line |
| Directives.ContentLine | src/lib/parseChordPro.ts:81-86 | a non-directive line is a blank line (one empty token, raw `""`) when all white space, and otherwise its tokens with raw equal to the untrimmed line |
| Directives.Chunks | src/lib/parseChordPro.ts:56 | the sections being built start with `Verse` |
| Directives.Step | src/lib/parseChordPro.ts:64-86 | one line of the fold keeps the first section's name |
| Directives.Extend | src/lib/parseChordPro.ts:82-86 | a content line adds to the current section only |
| Directives.Committed | src/lib/parseChordPro.ts:58-62 | committed sections are never empty |
| Directives.ChunksLast | src/lib/parseChordPro.ts:64-87 | the sections after one more line are one more step of the fold |
| Directives.LastValueLast | src/lib/parseChordPro.ts:70-73 | after one more line, a tag's last value is that line's value when the line is a directive with the tag, and the earlier last value otherwise |
| Directives.FoldStateStep | src/lib/parseChordPro.ts:64-87 | one more line keeps the fold state: `{title: v}` and `{key: v}` set their value; `{section: v}` commits a non-empty current section and opens `v`; other directives change nothing; a content line joins the current section |
| Directives.StepCommit | src/lib/parseChordPro.ts:74-76 | a content line goes into the current section; `{section: v}` commits the current section when it is non-empty and opens `v`; other directives change nothing |
| Directives.ParseKinds | src/lib/parseChordPro.ts:89 | no section of a parsed song is empty |
| Directives.FoldDone | src/lib/parseChordPro.ts:89-100 | at the end of the loop, committing the current section gives the song, with `id == slugify(title)` |
| Directives.CommittedLines | src/lib/parseChordPro.ts:58-62 | dropping empty sections drops no line |
| Directives.ChunksLines | src/lib/parseChordPro.ts:64-87 | the sections hold every non-directive line, in order |
| Directives.SectionsCoverLines | src/lib/parseChordPro.ts:56-89 | a parsed song's sections hold, in order, exactly the non-directive lines of the input |
| Directives.ChunkNames | src/lib/parseChordPro.ts:74-76 | the sections being built are `Verse` and then one per `{section: v}`, in order |
| Directives.FirstChunkFilled | src/lib/parseChordPro.ts:56-86 | when a line that is not a directive comes before any `{section:}` directive, the first section (`Verse`) holds a line |
| Directives.OneChunk | src/lib/parseChordPro.ts:74-77 | only a `{section:}` directive opens a section: lines without one leave the first section the only one |
| Directives.FirstSectionVerse | src/lib/parseChordPro.ts:56-89 | when a line that is not a directive comes before any `{section:}` directive (title, key and unknown directives may precede it), the first committed section is `Verse` |
| Directives.EmptySource | src/lib/parseChordPro.ts:52 | empty input gives one `Verse` section holding one blank line, title `Untitled`, no key |
| Directives.ParseBlank | src/lib/parseChordPro.ts:82 | a single content line gives one `Verse` section holding it |
| Directives.BlankKinds | src/lib/parseChordPro.ts:52 | the empty source is one blank line |
| Directives.BlankChunk | src/lib/parseChordPro.ts:56 | one content line makes one `Verse` section |
| Directives.LastValueWins | src/lib/parseChordPro.ts:70-73 | `title` and `key` take the value of the last such directive |
| Directives.LastValueAbsent | src/lib/parseChordPro.ts:53-54 | with no such directive, the value is absent (the defaults then apply) |
| Directives.LastValueSkips | src/lib/parseChordPro.ts:70-78 | a directive with another tag, anywhere in the lines, does not change the last value of a tag |
| Directives.ChunksSkip | src/lib/parseChordPro.ts:66-78 | a directive other than `section`, anywhere in the lines, does not change the sections |
| Directives.UnknownDirectiveIgnored | src/lib/parseChordPro.ts:66-78 | a directive with a tag other than `title`, `key` and `section` has no effect wherever it stands: the song with it equals the song without it |
| ChordPro.AbsorbGap | src/lib/parseChordPro.ts:19-23 | a gap before a marker becomes a lyric-only token; a final all-white-space gap is dropped |
| ChordPro.AbsorbMarkerGap | src/lib/parseChordPro.ts:27-35 | a chord token takes the following text up to the next `[`; the rest stays for later |
| ChordPro.AbsorbMarkerAlone | src/lib/parseChordPro.ts:27-35 | a marker followed by a marker or the end of the line gets an empty lyric |
| ChordPro.Absorb | src/lib/parseChordPro.ts:17-41 | each token takes one or two segments (a marker with the gap after it), and only a lone final blank gap gives no token: there are at most as many tokens as segments, and the segments number at most twice the tokens plus one |
| ChordPro.TokensOf | src/lib/parseChordPro.ts:44-46 | the token list is never empty |
| ChordPro.ParseTokens | src/lib/parseChordPro.ts:11-49 | the `while (regex.exec)` loop computes `TokensOf(line)` |
| ChordPro.Turn | src/lib/parseChordPro.ts:17-36 | one turn of the loop moves `lastIndex` past the marker and its lyric and keeps the loop invariant |
| ChordPro.LoopStep | src/lib/parseChordPro.ts:19-35 | the tokens pushed in one turn are the tokens of the scanned text between the two positions |
| ChordPro.LoopEnd | src/lib/parseChordPro.ts:38-42 | after the last marker, trailing text is pushed only when it is not all white space |
| ChordPro.ExecStep | src/lib/parseChordPro.ts:17-35 | one marker found by `exec` gives the lyric before it, the chord token with its lyric, and the tokens of the rest |
| ChordPro.ScanWellFormed | src/lib/parseChordPro.ts:13 | a scan has no empty gap and no two gaps in a row |
| ChordPro.AbsorbEmpty | src/lib/parseChordPro.ts:39-46 | no tokens come from a scan exactly when it is empty or one all-white-space gap |
| ChordPro.BlankTokens | src/lib/parseChordPro.ts:39-46 | a line gives the single fallback token `{null, ""}` exactly when it is all white space |
| ChordPro.AbsorbHeadNotBlank | src/lib/parseChordPro.ts:21-23 | a non-empty token list whose first gap is non-empty is not the fallback |
| ChordPro.AbsorbLyrics | src/lib/parseChordPro.ts:17-41 | the token lyrics concatenate to the text with every marker removed, except that a lone all-white-space gap gives nothing |
| ChordPro.TokensLyrics | src/lib/parseChordPro.ts:17-41 | the token lyrics of a line are the line with every matched marker removed, or `""` for an all-white-space line |
| ChordPro.AbsorbShape | src/lib/parseChordPro.ts:18-35 | every chord is trimmed and its lyric holds no `[`; every lyric-only token is non-empty |
| ChordPro.TokensShape | src/lib/parseChordPro.ts:18-35 | on a line that is not all white space, chords are trimmed, chord lyrics hold no `[`, and lyric-only tokens are non-empty |
| ChordPro.AbsorbSlots | src/lib/parseChordPro.ts:27-35 | there is one chord token per marker, in order, holding the marker's trimmed text |
| ChordPro.TokensSlots | src/lib/parseChordPro.ts:18-34 | a line's chord tokens are its markers' trimmed contents, one each, in order |
| ChordPro.TokensTranspose | src/lib/parseChordPro.ts:13-18 | for lines whose markers hold no `[` and no leading white space, tokenizing the transposed line equals transposing the tokens |
| ChordPro.AbsorbRelabel | src/lib/parseChordPro.ts:18-34 | rewriting markers so that their trimmed text is the transposed trimmed text makes the tokens the transposed tokens |
| ChordPro.TrimTranspose | src/lib/parseChordPro.ts:18 | on a chord with no leading white space, trimming and transposing commute |
| ChordPro.RenderShape | src/lib/chords.ts:28 | a transposed root, `undefined` included, is non-empty with no white space at its ends |
| ChordPro.ParseChordPro | src/lib/parseChordPro.ts:51-100 | the `for` loop computes `SongOf(raw)`, and `source` is `raw` |
| ChordPro.FoldLine | src/lib/parseChordPro.ts:64-87 | one turn of the fold keeps the fold invariant |
| BuildSongs.TokensOf | scripts/build-songs.ts:67-69 | the token list is never empty |
| BuildSongs.ParseTokens | scripts/build-songs.ts:46-72 | the `while (regex.exec)` loop computes `TokensOf(line)` |
| BuildSongs.Turn | scripts/build-songs.ts:52-60 | one turn of the loop moves `lastIndex` past the marker and keeps the loop invariant |
| BuildSongs.TurnTokens | scripts/build-songs.ts:53-59 | one marker found by `exec` gives the text before it, the chord token with an empty lyric, and the tokens of the rest |
| BuildSongs.LoopEnd | scripts/build-songs.ts:62-65 | after the last marker, any non-empty trailing text is pushed, white space included |
| BuildSongs.EmittedPointwise | scripts/build-songs.ts:52-65 | one token per segment of a well-formed scan |
| BuildSongs.TokensBySegment | scripts/build-songs.ts:46-72 | the token count is the number of markers plus the number of non-empty gaps; token `i` is segment `i` as a token |
| BuildSongs.TokensShape | scripts/build-songs.ts:53-69 | chord tokens have lyric `""` and trimmed chords; on a non-empty line lyric-only tokens are non-empty; lyric-only tokens are never adjacent |
| BuildSongs.EmittedLyrics | scripts/build-songs.ts:52-65 | the token lyrics concatenate to the text with every marker removed |
| BuildSongs.TokensLyrics | scripts/build-songs.ts:52-65 | the token lyrics of a line are the line with every matched marker removed, always |
| BuildSongs.EmittedSlots | scripts/build-songs.ts:53-58 | one chord token per marker, in order, holding the marker's trimmed text |
| BuildSongs.SlotsStep | scripts/build-songs.ts:53-58 | a segment in front puts its chord, if it is a marker, before the others |
| BuildSongs.EmitSlots | scripts/build-songs.ts:53-58 | a marker pushes one token holding its trimmed text as chord; a gap pushes no chord |
| BuildSongs.TokensSlots | scripts/build-songs.ts:53-58 | a line's chord tokens are its markers' trimmed contents, one each, in order |
| BuildSongs.ParseSong | scripts/build-songs.ts:74-123 | the `for` loop computes `SongOf(raw)` with this file's tokenizer; there is no `source` field |
| BuildSongs.FoldLine | scripts/build-songs.ts:87-110 | one turn of the fold keeps the fold invariant |
| BuildSongs.IndexOfSong | scripts/build-songs.ts:149-156 | an index entry copies id, title and key; its lines are every non-directive, non-blank input line, in order |
| BuildSongs.IndexEntry | scripts/build-songs.ts:149-156 | the entry copies id, title and key, and none of its lines is whitespace only |
| BuildSongs.IndexLinesFilled | scripts/build-songs.ts:153-155 | `filter((line) => line.trim() !== '')` over every section leaves no whitespace-only line |
| BuildSongs.IndexAllLines | scripts/build-songs.ts:153-155 | the entry's lines are the non-blank raw lines of all sections, in order |
| BuildSongs.BodyText | scripts/build-songs.ts:153-155 | the non-blank raws of the body lines are the input's content lines |
| SongEditor.ExtractChords | src/components/SongEditor.tsx:229-242 | the `forEach` builds the lyrics and the chord positions of the token list |
| SongEditor.ChordsFromStep | src/components/SongEditor.tsx:236-241 | one turn of the `forEach` pushes the chord of token `i` at the current length |
| SongEditor.ChordsFromTokens | src/components/SongEditor.tsx:236-241 | each extracted chord names a token that has a chord, carries that chord, and sits at the total lyric length of the earlier tokens |
| SongEditor.ChordsFromOrdered | src/components/SongEditor.tsx:236-241 | offsets never decrease and lie within the lyrics; token numbers strictly increase |
| SongEditor.ChordsFromNames | src/components/SongEditor.tsx:237-238 | the extracted names are the line's chords, in order |
| SongEditor.InsertSplit | src/components/SongEditor.tsx:251 | one insertion step puts the chord after the chords of smaller offset and before the rest |
| SongEditor.InsertSorted | src/components/SongEditor.tsx:251 | insertion keeps a list sorted by offset |
| SongEditor.SortSorted | src/components/SongEditor.tsx:251 | the sorted chords are in non-decreasing order of offset |
| SongEditor.InsertPermutes | src/components/SongEditor.tsx:251 | insertion adds exactly the inserted chord |
| SongEditor.SortPermutes | src/components/SongEditor.tsx:251 | the sort keeps every chord, each as often as it was there |
| SongEditor.InsertWithIndex | src/components/SongEditor.tsx:251 | insertion keeps the order among chords of equal offset |
| SongEditor.SortStable | src/components/SongEditor.tsx:251 | the sort is stable: chords at each offset stay in input order |
| SongEditor.SortOfSorted | src/components/SongEditor.tsx:251 | sorting sorted chords changes nothing |
| SongEditor.ClampAll | src/components/SongEditor.tsx:256 | clamping every chord to the lyric length keeps the count |
| SongEditor.ReconstructLine | src/components/SongEditor.tsx:249-274 | `reconstructLine` writes the text of `Rebuild(newLyrics, chords)` |
| SongEditor.GroupChords | src/components/SongEditor.tsx:254-260 | the `Map` filled by the `forEach` is `Grouped`: clamped offset to names, in order |
| SongEditor.WriteLine | src/components/SongEditor.tsx:262-271 | the `for` loop writes each offset's markers and then the character there |
| SongEditor.WriteAt | src/components/SongEditor.tsx:264-270 | one turn of the loop appends the markers of the chords at `i`, in order, then the lyric character at `i` when there is one |
| SongEditor.AppendMarkers | src/components/SongEditor.tsx:266 | the inner `forEach` appends `[c]` for each name, in order |
| SongEditor.WrittenStep | src/components/SongEditor.tsx:263-271 | the text written up to position `i + 1` is the text up to `i`, then the markers at `i`, then the character at `i` |
| SongEditor.WrittenLyrics | src/components/SongEditor.tsx:262-271 | removing the markers from the text written up to `n` gives the first `n` lyric characters |
| SongEditor.RebuildLyrics | src/components/SongEditor.tsx:262-271 | deleting the inserted markers from the rebuilt line gives exactly the new lyrics |
| SongEditor.GroupedAt | src/components/SongEditor.tsx:254-260 | the names grouped at an offset are the names of the clamped chords there, in order |
| SongEditor.WrittenPlaces | src/components/SongEditor.tsx:262-271 | the markers written up to `n` are the sorted clamped chords below `n` |
| SongEditor.ClampSorted | src/components/SongEditor.tsx:256 | clamping keeps sorted chords sorted |
| SongEditor.RebuildPlaces | src/components/SongEditor.tsx:251-271 | the markers of the rebuilt line are the chords, sorted by offset, each at `min(index, length)` |
| SongEditor.ClampSortPermutes | src/components/SongEditor.tsx:251-256 | sorting and then clamping gives the clamped chords, reordered |
| SongEditor.RebuildPermutes | src/components/SongEditor.tsx:255-267 | every chord is written exactly once, at `min(index, length)` |
| SongEditor.ClampNamesAt | src/components/SongEditor.tsx:255-259 | below the lyric length, the names at an offset are those of the chords with that offset, in order |
| SongEditor.RebuildStable | src/components/SongEditor.tsx:251-259 | chords at the same offset are written in input order |
| SongEditor.FlattenWriteIn | src/components/SongEditor.tsx:262-271 | a segment list's text is its lyrics with its markers written in at their places |
| SongEditor.RebuildWriteIn | src/components/SongEditor.tsx:249-271 | the rebuilt line is the lyrics with the sorted, clamped chords written in |
| SongEditor.WriteInPlain | src/components/SongEditor.tsx:263-270 | with no markers, the lyrics are written as they are |
| SongEditor.ClearChords | src/components/SongEditor.tsx:406 | rebuilding with no chords gives the bare lyrics |
| SongEditor.TidyLyrics | src/components/SongEditor.tsx:240 | trimming the markers keeps the lyrics |
| SongEditor.AbsorbPlaces | src/components/SongEditor.tsx:236-241 | the extracted chord positions are the markers' trimmed names at their lyric offsets, blank markers dropped |
| SongEditor.ClampNoop | src/components/SongEditor.tsx:256 | chords within the lyrics are not moved by clamping |
| SongEditor.ExtractReconstruct | src/components/SongEditor.tsx:229-274 | extracting and then rebuilding a content line gives the line with each marker trimmed and blank markers removed |
| SongEditor.TidyKeeps | src/components/SongEditor.tsx:229-242 | markers that are already trimmed and non-empty are kept as they are |
| SongEditor.ExtractReconstructExact | src/components/SongEditor.tsx:229-274 | an unedited line whose chord names are trimmed and non-empty is reproduced exactly |
| SongEditor.Column | src/components/SongEditor.tsx:313 | `Math.max(0, Math.min(column, lyrics.length))` lies in 0..length and is the column itself when in range |
| SongEditor.EditChord | src/components/SongEditor.tsx:322-336 | a cancelled prompt changes nothing; a blank answer deletes chord `index`; any other answer renames it, other chords kept |
| SongEditor.MoveChord | src/components/SongEditor.tsx:298-320 | the dropped chord moves to the clamped drop column; the line is rebuilt |
| SongEditor.AddChord | src/components/SongEditor.tsx:338-349 | a non-empty name adds a chord at the clamped column, with token number -1; anything else changes nothing |
| SongEditor.DeletePlaces | src/components/SongEditor.tsx:328-331 | deleting a chord removes exactly its marker from the rebuilt line; the others keep their positions |
| SongEditor.ReplacePlaces | src/components/SongEditor.tsx:332-333 | replacing one chord swaps exactly its marker and keeps the others |
| SongEditor.RenamePlaces | src/components/SongEditor.tsx:333 | renaming a chord changes only its name; it stays at its position |
| SongEditor.MovePlaces | src/components/SongEditor.tsx:316-317 | moving a chord changes only its position, to the clamped column |
| SongEditor.AddPlaces | src/components/SongEditor.tsx:346 | adding a chord adds exactly one marker and keeps the others |
| SongEditor.ChangeLineLines | src/components/SongEditor.tsx:15-21 | only line `index` changes; the lines are re-joined with `\n`, so a `\r` before a break is dropped |
| SongEditor.ChangeLine | src/components/SongEditor.tsx:17-21 | for a new line without a line break or a final `\r`, the source keeps its number of lines and line `index` reads back as the new line |
| SongEditor.ReplacedReadsBack | src/components/SongEditor.tsx:17-21 | lines without a break, one replaced by a line with no break or final `\r`, re-joined and split again, give back the same number of lines with the new one at `index` |
| ChordDisplay.Spaces | src/App.tsx:16 | `' '.repeat(n)` is `n` spaces |
| ChordDisplay.Padding | src/App.tsx:13 | the padding is at least one, and chord plus padding spans the wider of chord and lyric, plus one |
| ChordDisplay.PadChordLine | src/App.tsx:6-21 | the loop builds `ChordLine(tokens)`, and `lyrics` is the concatenated token lyrics |
| ChordDisplay.ChordLineSnoc | src/App.tsx:9-17 | one more token appends its cell |
| ChordDisplay.ChordLineAppend | src/App.tsx:9-17 | the chord line of two token lists is their chord lines, one after the other |
| ChordDisplay.ChordLineBound | src/App.tsx:9-19 | the chord line is at least as long as the lyrics plus one column per chord token |
| ChordDisplay.ChordLineExact | src/App.tsx:9-19 | it is exactly that long if and only if no chord is longer than its lyric |
| ChordDisplay.CellAt | src/App.tsx:9-17 | token `k`'s cell sits where the earlier tokens' chord line ends |
| ChordDisplay.ChordCell | src/App.tsx:10-14 | a chord token's cell is the chord followed by spaces, `max(lyric, chord) + 1` wide |
| ChordDisplay.ChordAt | src/App.tsx:10-14 | a chord is written at the end of the earlier tokens' chord line, which `ChordLineBound` puts at or after its lyric's column, followed by spaces to its width |
| ChordDisplay.BlankAt | src/App.tsx:15-16 | a token with no chord, or the chord `""`, gives `lyric.length` spaces |
| ChordDisplay.ChordsInOrder | src/App.tsx:11-14 | chords appear in token order, each followed by at least one space |

## Left out

- The React components, hooks, CSS, `prompt()` and all rendering are left out. The prompt's answer and the drop or click column are parameters of `EditChord`, `AddChord` and `MoveChord`. The pixel maths that yields the column (`Math.round(offsetX / charWidth)`) is floating point and DOM measurement.
- Drag and drop, the drop indicator, and `DirectiveEditor` are left out.
- Fuse.js search and `fetch` loading in `src/App.tsx` are a foreign library and network I/O.
- `build()` and `ensureDir` in `scripts/build-songs.ts` are filesystem I/O and JSON serialisation. The index entry they build is modelled as the function `BuildSongs.IndexEntry`.
- `backend/main.py` is HTTP, filesystem and subprocess plumbing, and `vite.config.ts` is configuration. Neither is part of this model.
- The regular-expression engine is replaced by hand-written scanners for the marker patterns, the directive pattern and the key-line pattern.
- ChordDisplay.PadChordLine, SongEditor.ExtractChords, SongEditor.ReconstructLine, SongEditor.Column, SongEditor.MoveChord and SongEditor.AddChord: lengths and offsets count Unicode scalar values, while JavaScript's `.length`, `str[i]` and `repeat` count UTF-16 code units. Text outside the Basic Multilingual Plane (an emoji, say) is therefore padded and marked differently: the source pads one such character with two spaces and can even write a marker between the two halves of a surrogate pair, which the model cannot express.
- `toLowerCase` is modelled on ASCII letters only: case mapping beyond ASCII is not modelled. `trim` and `\s` use ECMAScript's full white space set (`Text.IsSpace`), with the space separators as of Unicode 15.
- `sourcePath` is carried through as given. Its default `'inline'` is the caller's business.
- `serializeTokens`, imported by `SongEditor.tsx`, is not defined in the library source and is not part of this model.
- SongEditor.EditChord: requires `index < |chords|`. The source reads `chords[index]` for a chord pill that exists; an index outside the list makes `chord.name` throw, and that error is not modelled.
- SongEditor.MoveChord: requires `index < |chords|`. The drag payload is the pill index on the line where the drag began (`src/components/SongEditor.tsx:276-277`), but every line's drop handler looks it up in its own `chords` (`src/components/SongEditor.tsx:298-305`). A drop on another line with fewer chords reads `undefined` and writes a chord named `undefined` (`[undefined]`) at the drop column; a drop on another line with an index in range moves that line's own chord at that index. The model covers only the in-range case; the out-of-range drop is not modelled.
- SongEditor.ExtractReconstruct: covers only lines the editor shows in `LineEditor`, which are neither blank nor directives (`src/components/SongEditor.tsx:37-59`). Re-parsing the rebuilt line after an edit is not proved.
- ChordPro.TokensTranspose: also requires every marker's text to be free of line terminators, besides having no leading white space and no `[`. The pattern's `.` does not match a line terminator.
- Chords.TransposeRoundTrip: holds for non-zero steps in -12..12 only: at 0 the fast path returns a flat root unnormalised (`Chords.PeriodicFailsAtZero`). It also requires the suffix not to start with `#` or `b`. `Chords.RoundTripMergesSuffix` shows that the round trip loses such a suffix (`C#b`).
- Chords.TransposePeriodic: excludes steps 0 and -12, where the zero-step fast path returns the chord unnormalised (`Chords.PeriodicFailsAtZero`). It also excludes steps below -12, where the lookup can be `undefined` (see Findings).
- Empty input gives one `Verse` section holding one blank line, because splitting `""` gives one empty line; the model follows the code (`Directives.EmptySource`).
- A whitespace-only line with no marker becomes the single token `{null, ""}`, because `parseTokens` drops all-white-space trailing text (`src/lib/parseChordPro.ts:40`). It does not become one token holding the whole line. The model follows the code (`ChordPro.BlankTokens`).

## Findings

| source | as written | input that shows it | evidently intended | confidence | as-written member | corrected member |
|---|---|---|---|---|---|---|
| src/lib/chords.ts:18 | `(index + steps + 12) % 12` uses JavaScript's sign-keeping remainder, so for `steps < -12` the index can be negative and `NOTE_SEQUENCE[shifted]` is `undefined`; the chord becomes the text `undefined…` | `transposeChord("C", -13)` gives `"undefined"`; the view's `-` button (`src/App.tsx:122`) lowers the step count without bound | a modular index in 0..11, giving `B` | not executed | Chords.TransposeUndefined, Chords.UndefinedBelowOctave | Chords.TransposeChordWrapped, Chords.WrappedPeriodic, Chords.WrappedAgrees |
