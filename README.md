# Sartori core, modelled in Dafny

Sartori is a live-coding music system. Music is written as **patterns**: functions of
cycle time that answer a query over a window `[from, to)` with a list of **haps**
(a span and a value). Patterns are built from a small algebra:

- `cat` rotates one value per cycle;
- `seq` squeezes that rotation into one cycle;
- `fast` and `slow` rescale time;
- `choose` draws a random value per cycle.

A **stream** is a musical layer. It holds one pattern per parameter, and its trigger
pattern `e` decides when events fire. Each event carries a snapshot of every parameter.
A **mini-notation** grammar turns text such as `a b | c`, `x*3`, `Cma7`, `Cma%6..?` or
`C#4` into a syntax tree of sequences, alternations, random picks and chords.

This project models those parts:

- `patterns.dfy` (module `Patterns`): the pattern datatype, the query as a function,
  and the query loop of `cycle` as methods proved equal to it. It also holds the
  properties of `cycle`, `fast`/`slow`, `cat`/`seq`/`choose`, and the methods the
  constructor binds: each is the entry of `methods` of the same name, called with the
  pattern appended to its arguments.
- `stream_table.dfy` (module `StreamTable`): what both versions of the stream share.
  That is the conversion of a value on `set`, the assignment of a parameter table, and
  the filter that keeps the truthy trigger haps.
- `core_stream.dfy` (module `CoreStream`): the stream of `src/core/Stream.ts`. It is a
  class whose `set` and `__reset` update its field table in place. Its `query` reads
  the hap that contains the trigger time.
- `draft_stream.dfy` (module `DraftStream`): the earlier stream of
  `src/classes/Stream/Stream.ts`. It reserves fewer keys and reads the first hap of
  each parameter.
- `mini.dfy` (module `MiniNotation`): the note and extension tables, `buildStack`,
  `noteToMidi`, the `%n` repeat (a loop), and the actions of the grammar's rules.
- `mini_parser.dfy` (module `MiniParser`): the grammar as a recursive-descent parser
  with PEG semantics. The parser is written once, with the order of the two note rules
  as a parameter, so the grammar as written and the corrected order share one
  definition.
- `memo.dfy` (module `Memo`): `memoize`, a cache updated in place.
- `param_key.dfy` (module `ParamKeys`): `formatParamKey`.

## Model

| member | source | states |
|---|---|---|
| Patterns.JsRem | src/classes/Pattern.ts:40 | JavaScript `%`: the remainder for a non-negative cycle is the Euclidean one; for a negative cycle it lies in (-len, 0]; in both cases it differs from the cycle by a multiple of len |
| Patterns.Index | src/classes/Pattern.ts:39-48 | `cat` reads an index in (-len, len) congruent to the cycle modulo len; `choose` reads a non-negative index |
| Patterns.Query | src/classes/Pattern.ts:7-36 | with positive `fast` factors at every depth, every hap of the answer has from < to |
| Patterns.Cycles | src/classes/Pattern.ts:11-24 | the haps of a run of whole cycles have from < to when the pattern's factors are positive |
| Patterns.CycleHaps | src/classes/Pattern.ts:12-21 | the haps of one callback (a nested query, or the whole-cycle hap) have from < to when the pattern's factors are positive |
| Patterns.Slow | src/classes/Pattern.ts:37 | `slow(f, p)` is a `fast` of p whose factor times f is 1; it has positive factors exactly when f > 0 and p has |
| Patterns.Seq | src/classes/Pattern.ts:44 | `seq(...values)` has positive factors exactly when the list is non-empty and its nested patterns have; the empty `seq` is `fast(0)` of the empty `cat` |
| Patterns.SeqSlot | src/classes/Pattern.ts:44 | the plain value k of `seq(...values)` occupies exactly [k/len, (k+1)/len) of cycle 0 |
| Patterns.Rescale | src/classes/Pattern.ts:31-35 | same number of haps; hap i has its start and end divided by the factor and its value unchanged |
| Patterns.RunQuery | src/classes/Pattern.ts:7-36 | the query the source runs, including re-entering nested patterns, equals `Query` |
| Patterns.RunCycles | src/classes/Pattern.ts:7-26 | the `while` loop over whole cycles from floor(from) to ceil(to), growing the bag, yields exactly `Cycles(floor(from), ceil(to))` |
| Patterns.ZeroWindow | src/classes/Pattern.ts:30-31 | a query over [0, 0) is empty at every depth, so `fast(0, p)` yields nothing |
| Patterns.EmptyWindow | src/classes/Pattern.ts:8-11 | when ceil(to) <= floor(from), `cycle` yields the empty list |
| Patterns.CyclesSplit | src/classes/Pattern.ts:11-24 | the haps of cycles lo..hi are those of lo..mid followed by those of mid..hi (one callback per cycle, increasing order) |
| Patterns.SingleCycle | src/classes/Pattern.ts:12-21 | one whole cycle calls back once: a nested pattern is replaced by its query over that cycle, a plain value gives the whole-cycle hap |
| Patterns.LiteralCycles | src/classes/Pattern.ts:8-24 | with plain values, cycles lo..hi-1 give exactly hi-lo haps; hap k spans [lo+k, lo+k+1) and carries that cycle's value |
| Patterns.NotClipped | src/classes/Pattern.ts:8-12 | haps are not clipped: `cat(a)` over [0, 0.5) answers with the hap [0, 1) |
| Patterns.SplitWindowDuplicates | src/classes/Pattern.ts:8-9 | querying [0, 0.5) and [0.5, 1) separately gives the cycle-0 hap twice, the whole window once |
| Patterns.FastQuery | src/classes/Pattern.ts:30-36 | `fast(f, p)` queries p over the dilated window; same count and order, spans divided by f, values unchanged |
| Patterns.RescaleInverse | src/classes/Pattern.ts:31-35 | dividing spans by f and then by g with f*g = 1 gives back the original haps |
| Patterns.FastSlowRoundTrip | src/classes/Pattern.ts:37 | for f > 0, `fast(f, slow(f, p))` answers every query exactly as p |
| Patterns.SlowFastRoundTrip | src/classes/Pattern.ts:37 | for f > 0, `slow(f, fast(f, p))` answers every query exactly as p |
| Patterns.CatAtCycle | src/classes/Pattern.ts:39-42 | at a non-negative cycle n, `cat` reads values[n mod len] |
| Patterns.CatAtNegativeCycle | src/classes/Pattern.ts:40 | at a negative cycle, `cat` reads values[0] when the cycle is a multiple of len (-0), otherwise undefined |
| Patterns.CatRepeats | src/classes/Pattern.ts:39-42 | `cat(a, b, c)` over [0, 6) gives a, b, c, a, b, c, one whole cycle each |
| Patterns.SeqThree | src/classes/Pattern.ts:44 | `seq(a, b, c)` over [0, 1) gives [0,1/3) a, [1/3,2/3) b, [2/3,1) c |
| Patterns.NestedSeq | src/classes/Pattern.ts:14-21 | a nested `seq` subdivides the hap it replaces: `seq(a, seq(b, c))` gives halves and quarters |
| Patterns.ChooseIndexInRange | src/classes/Pattern.ts:47 | the index drawn by `choose` lies inside a non-empty list |
| Patterns.NestedChooseDrawsApart | src/classes/Pattern.ts:46-49 | every `choose` draws for itself: `choose(choose(a, b), choose(c, d))` can pick the second inner pattern while that one draws c |
| Patterns.ChooseCycle | src/classes/Pattern.ts:46-49 | per cycle, `choose` gives exactly one whole-cycle hap whose value is one of the list |
| Patterns.Pattern.FastBy | src/classes/Pattern.ts:66-72 | `p.fast(k)` is what the constructor binds under `fast`: `fast(k, p)`, the pattern appended as last argument |
| Patterns.Pattern.SlowBy | src/classes/Pattern.ts:66-69 | `p.slow(k)` is what the constructor binds under `slow`: `slow(k, p)` |
| Patterns.Pattern.CatWith | src/classes/Pattern.ts:66-69 | `p.cat(...args)` is what the constructor binds under `cat`: `cat(...args, p)` |
| Patterns.Pattern.SeqWith | src/classes/Pattern.ts:66-69 | `p.seq(...args)` is what the constructor binds under `seq`: `seq(...args, p)` |
| Patterns.Pattern.ChooseWith | src/classes/Pattern.ts:66-69 | `p.choose(...args)` is what the constructor binds under `choose`: `choose(...args, p)` |
| Patterns.CatWithSelfLast | src/classes/Pattern.ts:68 | the pattern a bound `cat` is called on is the last value of the rotation: at cycle len(args) it answers as itself |
| Patterns.SeqWithSelfLast | src/classes/Pattern.ts:68 | a bound `seq` squeezes its pattern into the last 1/(len(args)+1) of cycle 0, where it answers with the pattern's cycle len(args), compressed |
| Patterns.ChooseWithSelf | src/classes/Pattern.ts:68 | a bound `choose` answers a cycle as its pattern when that cycle's draw falls in the last 1/(len(args)+1) of [0, 1) |
| StreamTable.Stored | src/core/Stream.ts:35-37 | a pattern is stored by reference; any other value is stored as the pattern the wrapping function makes of it |
| StreamTable.Assign | src/core/Stream.ts:31-38 | the new table has the old keys plus the non-reserved keys of params; reserved and unmentioned keys keep their slot; assigned keys hold the stored value |
| StreamTable.AssignExtend | src/core/Stream.ts:33-37 | assigning one more parameter: a reserved key leaves the table as it was, any other key is stored over the earlier assignment |
| StreamTable.Triggers | src/core/Stream.ts:52 | the kept haps are exactly the truthy haps, never more of them |
| StreamTable.TriggersAppend | src/core/Stream.ts:52 | filtering keeps order: the triggers of a + b are the triggers of a followed by those of b |
| CoreStream.FindContaining | src/core/Stream.ts:63 | `find`: the index of the first hap whose span contains t, or none when no hap does |
| CoreStream.ValueAt | src/core/Stream.ts:60-65 | the value of the first hap with from <= t < to; undefined when no hap contains t |
| CoreStream.Snapshot | src/core/Stream.ts:56-67 | one key per pattern-valued field; each holds the value at the trigger's start of that pattern's query over the trigger's span |
| CoreStream.Stream.constructor | src/core/Stream.ts:18-20 | a new stream holds only its id |
| CoreStream.Stream.Set | src/core/Stream.ts:31-38 | the table becomes `Assign(old, params)` with the four reserved keys skipped; `id` survives |
| CoreStream.Stream.Query | src/core/Stream.ts:47-69 | no `e` gives no records; otherwise one record per truthy trigger, in order, timed at its start, with the parameter snapshot, which includes `e` and never `id` |
| CoreStream.Stream.Reset | src/core/Stream.ts:75-80 | every non-reserved field is deleted, so only `id` remains, unchanged |
| CoreStream.OneZeroOneTriggers | src/core/Stream.ts:49-52 | the trigger haps of `seq(1, 0, 1)` over [0, 1) are the first and the last |
| CoreStream.OneZeroOne | src/core/Stream.ts:47-55 | with `e = seq(1, 0, 1)`, `query(0, 1)` gives two records, at times 0 and 2/3 |
| CoreStream.OneZeroOneAfterSet | src/core/Stream.ts:31-55 | from the table `set({e: seq(1, 0, 1)})` leaves on a new stream, `query(0, 1)` gives two records, at times 0 and 2/3 |
| CoreStream.SetSkipsReserved | src/core/Stream.ts:33 | `set` never adds `__reset` and never changes `id` |
| DraftStream.FirstValue | src/classes/Stream/Stream.ts:46 | the value of the first hap, undefined for no haps |
| DraftStream.Snapshot | src/classes/Stream/Stream.ts:42-47 | one key per pattern-valued field; each holds the first hap's value of its query over the trigger's span |
| DraftStream.Stream.constructor | src/classes/Stream/Stream.ts:20-22 | a new stream holds only its id |
| DraftStream.Stream.Set | src/classes/Stream/Stream.ts:24-31 | the table becomes `Assign(old, params)` with only `id`, `set`, `query` skipped; `id` survives |
| DraftStream.Stream.Query | src/classes/Stream/Stream.ts:33-49 | no `e` gives no records; otherwise one record per truthy trigger, in order, timed at its start, with the first-hap snapshot |
| DraftStream.StoresResetKey | src/classes/Stream/Stream.ts:26 | the draft stores a key `__reset`, which the core stream's `set` leaves out |
| DraftStream.FirstHapWithoutContainment | src/classes/Stream/Stream.ts:46 | for `cat(seq(a, b))` read over [0.6, 0.7), the draft gives a (first hap), the core stream b (hap containing 0.6) |
| MiniNotation.Intervals | src/core/mini2.ts:38-45 | the triad intervals (else the mode intervals) come first; a known extension's intervals are appended after them; any other extension adds nothing |
| MiniNotation.BuildStack | src/core/mini2.ts:34-48 | unknown root fails with InvalidRoot; unknown type fails with UnknownType; success exactly when both are known; note i is root + interval i |
| MiniNotation.TriadsPrecedence | src/core/mini2.ts:38-41 | a type found among the triads takes the triad intervals, whatever the modes say |
| MiniNotation.ModesFallback | src/core/mini2.ts:38-41 | a type that is only a mode takes the mode intervals |
| MiniNotation.ExtensionAppends | src/core/mini2.ts:43-45 | a known extension appends its intervals, transposed to the root, after the chord's notes |
| MiniNotation.UnknownExtensionIgnored | src/core/mini2.ts:43-45 | an extension missing from the table changes nothing |
| MiniNotation.RootTransposes | src/core/mini2.ts:47 | the same chord on another root is the first chord transposed by the distance between the roots |
| MiniNotation.NoteToMidi | src/core/mini2.ts:56-59 | succeeds exactly for known names, else InvalidNote; the result mod 12 is the pitch class and the result div 12 is octave + 1 |
| MiniNotation.NoteTablesAgree | src/core/mini2.ts:19-23 | both note tables name the same notes, and `noteToMidi(n, 4)` is `noteMap[n]` |
| MiniNotation.OctaveUp | src/core/mini2.ts:58 | one octave up adds 12 |
| MiniNotation.Enharmonics | src/core/mini2.ts:50-54 | C# and Db (A# and Bb) give the same number; E# and Cb are refused |
| MiniNotation.Cyclic | src/core/mini2.ts:124-129 | the `%n` notes: exactly n of them, each a note of the chord |
| MiniNotation.Resized | src/core/mini2.ts:124-129 | no `%n` keeps the notes; `%n` on a chord with no notes and n > 0 diverges, and only that fails; otherwise exactly n notes, each a note of the chord |
| MiniNotation.CyclicTruncates | src/core/mini2.ts:124-129 | `%n` with n up to the chord size keeps the first n notes |
| MiniNotation.CyclicExtends | src/core/mini2.ts:127 | asking for one more round puts a whole copy of the notes in front |
| MiniNotation.RepeatNotes | src/core/mini2.ts:124-129 | the push-then-slice loop yields exactly n notes, note i being notes[i mod size] |
| MiniNotation.ChoiceAction | src/core/mini2.ts:67-71 | one alternative is returned unwrapped; several make a `cat` of first then rest |
| MiniNotation.SequenceAction | src/core/mini2.ts:73-77 | one step is returned unwrapped; several make a `seq` of first then rest |
| MiniNotation.FastAction | src/core/mini2.ts:84-87 | `t*c` is a `seq` of exactly c copies of t |
| MiniNotation.ChooseAction | src/core/mini2.ts:89-92 | a `choose` of first then the rest |
| MiniNotation.StackMusicAction | src/core/mini2.ts:119-143 | buildStack errors propagate; random gives `choose` and takes precedence, else spread gives `seq`, else a `stack` named root + type + extension, over the resized notes |
| MiniNotation.ResizedTotal | src/core/mini2.ts:124-129 | `%n` on a non-empty chord (or n = 0) succeeds with exactly n notes |
| MiniParser.NumberRule | src/core/mini2.ts:176-177 | a match consumes at least one character; never throws |
| MiniParser.NumberNode | src/core/mini2.ts:100 | the `Number` alternative: a match consumes at least one character; never throws |
| MiniParser.StringToken | src/core/mini2.ts:173-174 | a match consumes at least one character; never throws |
| MiniParser.SpreadRule | src/core/mini2.ts:106-107 | a match consumes input |
| MiniParser.NumberTail | src/core/mini2.ts:114-117 | the repetition always matches, possibly with no numbers, and never moves backwards |
| MiniParser.StackArray | src/core/mini2.ts:109-117 | a match consumes input; never throws |
| MiniParser.StackMusic | src/core/mini2.ts:119-143 | a match consumes input |
| MiniParser.MidiNote | src/core/mini2.ts:157-168 | a match consumes input |
| MiniParser.Group | src/core/mini2.ts:103-104 | a match consumes input |
| MiniParser.Primary | src/core/mini2.ts:94-101 | a match consumes input |
| MiniParser.Fast | src/core/mini2.ts:84-87 | a match consumes input |
| MiniParser.FastSuffix | src/core/mini2.ts:84-87 | after a primary that did not match (or threw), `Fast` does not match (or rethrows); a match consumes input |
| MiniParser.ChooseTail | src/core/mini2.ts:90 | the repetition never fails to match (an action error still propagates); a match never moves backwards |
| MiniParser.ChooseRule | src/core/mini2.ts:89-92 | a match consumes input |
| MiniParser.Term | src/core/mini2.ts:79-82 | a match consumes input |
| MiniParser.SequenceTail | src/core/mini2.ts:74 | the repetition never fails to match (an action error still propagates); a match never moves backwards |
| MiniParser.Sequence | src/core/mini2.ts:73-77 | a match consumes input |
| MiniParser.ChoiceTail | src/core/mini2.ts:68 | the repetition never fails to match (an action error still propagates); a match never moves backwards |
| MiniParser.Choice | src/core/mini2.ts:67-71 | a match consumes input |
| MiniParser.SpreadNeverMatches | src/core/mini2.ts:106-107 | `Spread` never matches: `Identifier` also takes dots, so `..` cannot follow it |
| MiniParser.NothingStartsAt | src/core/mini2.ts:94-101 | at an operator character (not `[`, `(` or a token character) no primary and no term matches |
| MiniParser.EndOfInput | src/core/mini2.ts:94-101 | at the end of the input no primary, term or expression matches |
| MiniParser.Run | src/core/mini2.ts:62-63 | succeeds exactly when an expression matches after leading white space and only white space follows it, with that expression's value; text left after the expression, or blank input, is a SyntaxError; an error thrown by an action ends the parse with that error |
| MiniParser.Parse | src/core/mini2.ts:62-63 | the grammar as written: blank input is a syntax error; a success is an expression parsed after leading white space |
| MiniParser.ParseNotesFirst | src/core/mini2.ts:62-63 | the note rules swapped: blank input is a syntax error; a success is an expression parsed after leading white space |
| MiniParser.WholePrimary | src/core/mini2.ts:62-63 | a primary spanning the whole input is the parse result |
| MiniParser.DigitStartsWord | src/core/mini2.ts:94-101 | a digit starts a `StringToken`, never a `Number` (which comes later in `Primary`) |
| MiniParser.NumeralIsWord | src/core/mini2.ts:173-177 | a numeral on its own parses as the word it spells, under either note order |
| MiniParser.NoteNameShape | src/core/mini2.ts:162-165 | every note name is a letter A-G with at most one `#` or `b` |
| MiniParser.MidiNoteMatches | src/core/mini2.ts:157-168 | a note name and an octave digit give `noteToMidi` of them |
| MiniParser.FlatNoteIsChord | src/core/mini2.ts:94-101 | as written, `Db4` (any flat with an octave digit) fails with UnknownType("b") although the note is known |
| MiniParser.NotesFirstParsesNotes | src/core/mini2.ts:94-101 | with `MidiNote` before `StackMusic`, every note name with an octave digit parses to its MIDI number |
| MiniParser.NaturalAndSharpNotesParse | src/core/mini2.ts:157-168 | as written, natural and sharp notes with an octave digit parse to their MIDI number |
| MiniParser.WordPrimary | src/core/mini2.ts:173-174 | a lower-case letter starts a word that runs to the end of the token characters |
| MiniParser.PlainTerm | src/core/mini2.ts:79-82 | a primary followed by neither `*` nor `?` is a term by itself |
| MiniParser.ChordDemo | src/core/mini2.ts:185 | with major triad 0,4,7, `Cma%6..?` parses to `choose` of 60,64,67,60,64,67 |
| MiniParser.ExtendedChord | src/core/mini2.ts:119-143 | with major triad 0,4,7, `Cma7` parses to the stack `Cma7` of 60,64,67,70 |
| MiniParser.RepeatDemo | src/core/mini2.ts:84-87 | `a*3` parses to a `seq` of three `a` |
| MiniParser.ChoiceOfSequences | src/core/mini2.ts:67-77 | `a b|c` parses to `cat(seq(a, b), c)` |
| Memo.Serialize | src/core/utils.ts:5 | `JSON.stringify` as joined: empty exactly for undefined; an integer as its decimal digits, with a leading `-` exactly when negative; a string between double quotes |
| Memo.Key | src/core/utils.ts:5 | no arguments give the empty key; one gives its serialisation; more give the first serialisation, `-`, then the key of the rest |
| Memo.KeyCollision | src/core/utils.ts:5 | the key of (undefined, 1) and the key of (-1) are both `-1` |
| Memo.Memoized.constructor | src/core/utils.ts:3 | the cache starts empty |
| Memo.Memoized.Call | src/core/utils.ts:4-9 | a hit returns the stored value without running fn; a miss runs fn once and stores its result; entries are never removed or overwritten; the result is fn of the arguments that filled the entry |
| Memo.CollisionDemo | src/core/utils.ts:5-8 | memoised argument count: (undefined, 1) then (-1) answers 2 both times |
| Memo.ExactMemo.constructor | src/core/utils.ts:3 | the cache starts empty |
| Memo.ExactMemo.Call | src/core/utils.ts:4-9 | the result is always fn(args); fn runs only on the first call with these arguments |
| Memo.ExactDemo | src/core/utils.ts:5-8 | with the corrected key the same calls answer 2 then 1 |
| ParamKeys.FormatParamKey | src/oto/utils.ts:1-3 | a leading `_` is removed (length drops by one); other keys are unchanged; the result is a suffix |
| ParamKeys.StripsOneUnderscore | src/oto/utils.ts:3 | `_` + k formats to k |
| ParamKeys.TwiceIsOnce | src/oto/utils.ts:3 | formatting twice equals formatting once exactly when the key does not start with two underscores |
| ParamKeys.DoubleUnderscore | src/oto/utils.ts:3 | `__x` becomes `_x`, and `_x` becomes `x` |

## Left out

- Times are exact reals. The source uses JavaScript floating point, so rounding in `from * factor` and `hap.from / factor` is not modelled. Neither are infinite or NaN windows.
- `Math.random` in `choose` is an oracle indexed by the `choose` pattern and the cycle number. The source draws afresh on every callback. In the model, two queries of the same cycle agree, and two equal `choose` patterns draw the same value at the same cycle: with `e: choose(1, 0)` and `f: choose(1, 0)`, every record has e equal to f. Different `choose` patterns draw independently.
- Patterns.ChooseCycle: stated for plain values only; a nested pattern chosen by `choose` is covered by Patterns.SingleCycle.
- Values are undefined, numbers and strings (`Atom`). Booleans, null, objects and arrays as pattern values are not modelled, nor their truthiness as triggers (`e: cat(true, false)`).
- Patterns.Query: its own contract states only that spans are proper; the answer itself is stated by the Patterns lemmas and is the result of Patterns.RunQuery.
- Patterns.Cycles: its own contract states only that spans are proper; the order and count of its haps are stated by Patterns.CyclesSplit and Patterns.LiteralCycles.
- Patterns.CycleHaps: its own contract states only that spans are proper; the callback's haps are stated by Patterns.SingleCycle.
- Patterns.Index: does not state the upper bound for `choose` in its own contract; Patterns.ChooseIndexInRange does.
- Patterns.Slow: requires a non-zero factor. The source's `1 / 0` is Infinity.
- `methods.set` (core stream) and `new Pattern().set` (draft stream) are not shown. They are the abstract `wrap` parameter, a total function: it is assumed never to throw. In the source a throw partway through the `forEach` of `set` would leave the keys visited before it assigned.
- `src/core/Pattern.ts` and `src/classes/Pattern/Pattern.ts`, which the two streams import, are not part of this model. Both streams use the algebra of `src/classes/Pattern.ts`.
- Stream fields other than `id` always hold patterns, because `set` wraps every value. Plain JavaScript properties such as `__proto__` and the order of `Object.entries` are not modelled; a record's parameters are a map.
- A parameter whose pattern has no hap at the trigger is present in the record with the value undefined.
- The contents of `triads` and `modes` (from `./chords` and `./scales`) are not shown. They are an abstract table parameter. Lookups of inherited object properties (a type named `constructor`) are not modelled.
- The pegjs runtime is replaced by a hand-written parser. It gives a single SyntaxError with no position or message.
- The unused `flat` helper of the grammar is not modelled.
- `parseInt` of very long digit strings loses precision in JavaScript. `Array(c)` throws for c of 2^32 or more. Both are not modelled.
- `%n` on a chord with no notes and n > 0 never terminates in the source. The model reports it as `Diverges`, and MiniNotation.RepeatNotes requires that it does not happen.
- MiniParser.NumberRule: its own contract states only that a match consumes input (which makes the mutual recursion terminate); what it parses is stated by the MiniParser lemmas.
- MiniParser.NumberNode: its own contract states only that a match consumes input (which makes the mutual recursion terminate); what it parses is stated by the MiniParser lemmas.
- MiniParser.StringToken: its own contract states only that a match consumes input (which makes the mutual recursion terminate); what it parses is stated by the MiniParser lemmas.
- MiniParser.SpreadRule: its own contract states only that a match consumes input (which makes the mutual recursion terminate); what it parses is stated by the MiniParser lemmas.
- MiniParser.StackArray: its own contract states only that a match consumes input (which makes the mutual recursion terminate); what it parses is stated by the MiniParser lemmas.
- MiniParser.StackMusic: its own contract states only that a match consumes input (which makes the mutual recursion terminate); what it parses is stated by the MiniParser lemmas.
- MiniParser.MidiNote: its own contract states only that a match consumes input (which makes the mutual recursion terminate); what it parses is stated by the MiniParser lemmas.
- MiniParser.Group: its own contract states only that a match consumes input (which makes the mutual recursion terminate); what it parses is stated by the MiniParser lemmas.
- MiniParser.Primary: its own contract states only that a match consumes input (which makes the mutual recursion terminate); what it parses is stated by the MiniParser lemmas.
- MiniParser.FastSuffix: its own contract states only the no-match and error cases and that a match consumes input; the repeat itself is stated by MiniParser.RepeatDemo and MiniNotation.FastAction.
- MiniParser.Fast: its own contract states only that a match consumes input (which makes the mutual recursion terminate); what it parses is stated by the MiniParser lemmas.
- MiniParser.ChooseRule: its own contract states only that a match consumes input (which makes the mutual recursion terminate); what it parses is stated by the MiniParser lemmas.
- MiniParser.Term: its own contract states only that a match consumes input (which makes the mutual recursion terminate); what it parses is stated by the MiniParser lemmas.
- MiniParser.Sequence: its own contract states only that a match consumes input (which makes the mutual recursion terminate); what it parses is stated by the MiniParser lemmas.
- MiniParser.Choice: its own contract states only that a match consumes input (which makes the mutual recursion terminate); what it parses is stated by the MiniParser lemmas.
- MiniParser.NumberTail: its own contract states only that the repetition never fails to match and never moves backwards; what it collects is stated by the MiniParser lemmas.
- MiniParser.ChooseTail: its own contract states only that the repetition never fails to match and never moves backwards; what it collects is stated by the MiniParser lemmas.
- MiniParser.SequenceTail: its own contract states only that the repetition never fails to match and never moves backwards; what it collects is stated by the MiniParser lemmas.
- MiniParser.ChoiceTail: its own contract states only that the repetition never fails to match and never moves backwards; what it collects is stated by the MiniParser lemmas.
- MiniParser.Parse: its own contract states only the blank-input and success shape; what it parses is stated by the MiniParser lemmas.
- MiniParser.ParseNotesFirst: its own contract states only the blank-input and success shape; what it parses is stated by MiniParser.NotesFirstParsesNotes and MiniParser.NumeralIsWord.
- MiniParser.NotesFirstParsesNotes: stated for a one-digit octave; longer octaves go through the same rules.
- MiniParser.FlatNoteIsChord: stated for a one-digit octave; longer octaves go through the same rules.
- MiniParser.NaturalAndSharpNotesParse: stated for a one-digit octave; longer octaves go through the same rules.
- `JSON.stringify` is modelled for undefined, integers and strings only, without escaping inside strings. Other argument kinds (objects, null, fractions) are not modelled.
- The wrapped function of `memoize` is a pure, total function. Its side effects are not modelled, nor an exception it throws, which in the source propagates out of the call without creating a cache entry.
- The demonstration code is not modelled: the `console.log` of `src/classes/Pattern.ts:75`, the second parse at `src/core/mini2.ts:186`, and the stream demo of `src/classes/Stream/Stream.ts:52-64`, which calls `sine` and `degrade`, absent from the shown pattern module.
- `stack`, `degrade`, Euclidean rhythms, the compiler from syntax tree to pattern and the scheduler do not appear in the shown code and are not modelled.

## Findings

| source | as written | input that shows it | evidently intended | confidence | as-written member | corrected member |
|---|---|---|---|---|---|---|
| src/core/mini2.ts:94-101 | `StackMusic` is tried before `MidiNote`, so a flat note is read as a chord of root D, type `b`, extension `4`, and the parse throws "Unknown chord/scale type: b" | `Db4` (likewise `Eb`, `Gb`, `Ab`, `Bb` with an octave), when no triad or mode is named `b` | flat MIDI notes parse to their MIDI number, as natural and sharp notes do | medium, not executed | MiniParser.FlatNoteIsChord | MiniParser.NotesFirstParsesNotes |
| src/core/utils.ts:5 | the key joins the `JSON.stringify` of each argument with `-`, and `undefined` renders as nothing, so different argument lists share a key | `f(undefined, 1)` then `f(-1)`: both have key `-1`, so the second call returns the first call's result | each distinct argument list has its own entry | medium, not executed | Memo.CollisionDemo | Memo.ExactDemo |
