/**
 * The semantic side of the mini-notation of src/core/mini2.ts: the note and
 * extension tables, `buildStack` (chord or scale to MIDI numbers),
 * `noteToMidi`, the `%n` cyclic repeat, and the actions that build the
 * syntax tree for the `Choice`, `Sequence`, `Fast`, `Choose` and
 * `StackMusic` rules.
 */
module MiniNotation {

  datatype Option<T> = None | Some(value: T)

  /** Why a parse stops.  The first three are the errors the grammar's
      actions throw; `Diverges` stands for the `%n` loop that never ends;
      `SyntaxError` is the parser's own failure. */
  datatype Error =
    | InvalidRoot(root: string)
    | UnknownType(kind: string)
    | InvalidNote(name: string)
    | Diverges(len: nat)
    | SyntaxError

  datatype Result<T> = Success(value: T) | Failure(error: Error)

  /** The chord and scale interval tables, which live outside this file. */
  datatype Tables = Tables(triads: map<string, seq<int>>, modes: map<string, seq<int>>)

  /** Extension intervals.  The numeric keys of the source's object literal
      are the strings "6", "7", "9", "11" and "13". */
  const Extensions: map<string, seq<int>> := map[
    "6" := [9], "7" := [10], "#7" := [11], "b9" := [1], "9" := [2],
    "11" := [5], "#11" := [6], "13" := [9], "#13" := [10]]

  /** MIDI numbers of the chord roots, in the octave of middle C. */
  const NoteMap: map<string, int> := map[
    "C" := 60, "C#" := 61, "Db" := 61, "D" := 62, "D#" := 63, "Eb" := 63,
    "E" := 64, "F" := 65, "F#" := 66, "Gb" := 66, "G" := 67, "G#" := 68, "Ab" := 68,
    "A" := 69, "A#" := 70, "Bb" := 70, "B" := 71]

  /** Pitch classes of the note names. */
  const NoteSimpleMap: map<string, nat> := map[
    "C" := 0, "C#" := 1, "Db" := 1, "D" := 2, "D#" := 3, "Eb" := 3,
    "E" := 4, "F" := 5, "F#" := 6, "Gb" := 6, "G" := 7, "G#" := 8, "Ab" := 8,
    "A" := 9, "A#" := 10, "Bb" := 10, "B" := 11]

  /** Whether a chord or scale type is known: triads first, then modes. */
  predicate KnownType(kind: string, t: Tables) {
    kind in t.triads || kind in t.modes
  }

  /** The intervals of a known type, with the extension's appended when the
      extension is in the table. */
  function Intervals(kind: string, ext: Option<string>, t: Tables): (r: seq<int>)
    requires KnownType(kind, t)
    ensures kind in t.triads ==> t.triads[kind] <= r
    ensures kind !in t.triads ==> t.modes[kind] <= r
    ensures ext.Some? && ext.value in Extensions ==>
      |r| == |if kind in t.triads then t.triads[kind] else t.modes[kind]| + |Extensions[ext.value]| &&
      r[|r| - |Extensions[ext.value]|..] == Extensions[ext.value]
    ensures !(ext.Some? && ext.value in Extensions) ==>
      |r| == |if kind in t.triads then t.triads[kind] else t.modes[kind]|
  {
    var base := if kind in t.triads then t.triads[kind] else t.modes[kind];
    if ext.Some? && ext.value in Extensions then base + Extensions[ext.value] else base
  }

  /** `buildStack`: the MIDI numbers of a chord or scale on a root. */
  function BuildStack(root: string, kind: string, ext: Option<string>, t: Tables): (r: Result<seq<int>>)
    ensures root !in NoteMap ==> r == Failure(InvalidRoot(root))
    ensures root in NoteMap && !KnownType(kind, t) ==> r == Failure(UnknownType(kind))
    ensures r.Success? <==> root in NoteMap && KnownType(kind, t)
    ensures r.Success? ==>
      && |r.value| == |Intervals(kind, ext, t)|
      && forall i :: 0 <= i < |r.value| ==> r.value[i] == NoteMap[root] + Intervals(kind, ext, t)[i]
  {
    if root !in NoteMap then Failure(InvalidRoot(root))
    else if !KnownType(kind, t) then Failure(UnknownType(kind))
    else
      var intervals := Intervals(kind, ext, t);
      Success(seq(|intervals|, i requires 0 <= i < |intervals| => NoteMap[root] + intervals[i]))
  }

  /** A type listed as a triad takes its triad intervals, even when a mode
      of the same name exists. */
  lemma TriadsPrecedence(root: string, kind: string, t: Tables)
    requires root in NoteMap && kind in t.triads
    ensures BuildStack(root, kind, None, t) == Success(Transpose(t.triads[kind], NoteMap[root]))
  {
    assert BuildStack(root, kind, None, t).value == Transpose(t.triads[kind], NoteMap[root]);
  }

  /** A type that is only a mode takes its mode intervals. */
  lemma ModesFallback(root: string, kind: string, t: Tables)
    requires root in NoteMap && kind !in t.triads && kind in t.modes
    ensures BuildStack(root, kind, None, t) == Success(Transpose(t.modes[kind], NoteMap[root]))
  {
    assert BuildStack(root, kind, None, t).value == Transpose(t.modes[kind], NoteMap[root]);
  }

  /** Every interval shifted by the same offset. */
  function Transpose(xs: seq<int>, offset: int): (r: seq<int>)
    ensures |r| == |xs| && forall i :: 0 <= i < |r| ==> r[i] == xs[i] + offset
  {
    seq(|xs|, i requires 0 <= i < |xs| => xs[i] + offset)
  }

  /** A known extension adds its intervals after the chord's own notes. */
  lemma ExtensionAppends(root: string, kind: string, ext: string, t: Tables)
    requires root in NoteMap && KnownType(kind, t) && ext in Extensions
    ensures BuildStack(root, kind, Some(ext), t).Success?
    ensures BuildStack(root, kind, Some(ext), t).value
         == BuildStack(root, kind, None, t).value + Transpose(Extensions[ext], NoteMap[root])
  {
    var with := BuildStack(root, kind, Some(ext), t).value;
    var without := BuildStack(root, kind, None, t).value;
    var shifted := Transpose(Extensions[ext], NoteMap[root]);
    var base := Intervals(kind, None, t);
    assert Intervals(kind, Some(ext), t) == base + Extensions[ext];
    assert |with| == |without + shifted|;
    forall i | 0 <= i < |with|
      ensures with[i] == (without + shifted)[i]
    {
      if i >= |without| {
        assert with[i] == NoteMap[root] + Extensions[ext][i - |base|];
      }
    }
  }

  /** An extension that is not in the table changes nothing. */
  lemma UnknownExtensionIgnored(root: string, kind: string, ext: string, t: Tables)
    requires ext !in Extensions
    ensures BuildStack(root, kind, Some(ext), t) == BuildStack(root, kind, None, t)
  {
  }

  /** The same chord on another root is the first transposed by the
      distance between the roots. */
  lemma RootTransposes(r1: string, r2: string, kind: string, ext: Option<string>, t: Tables)
    requires r1 in NoteMap && r2 in NoteMap && KnownType(kind, t)
    ensures BuildStack(r2, kind, ext, t).value
         == Transpose(BuildStack(r1, kind, ext, t).value, NoteMap[r2] - NoteMap[r1])
  {
  }

  /** `noteToMidi`: octave 0 starts at MIDI 12; the pitch class is the
      remainder and the octave plus one the quotient by 12. */
  function NoteToMidi(name: string, octave: nat): (r: Result<nat>)
    ensures r.Success? <==> name in NoteSimpleMap
    ensures r.Failure? ==> r.error == InvalidNote(name)
    ensures r.Success? ==> r.value % 12 == NoteSimpleMap[name] && r.value / 12 == octave + 1
  {
    if name !in NoteSimpleMap then Failure(InvalidNote(name))
    else Success(12 + octave * 12 + NoteSimpleMap[name])
  }

  /** The two tables name the same notes, and octave 4 of `noteToMidi` is
      the chord-root table. */
  lemma NoteTablesAgree(name: string)
    ensures name in NoteMap <==> name in NoteSimpleMap
    ensures name in NoteMap ==> NoteToMidi(name, 4) == Success(NoteMap[name])
  {
    assert NoteMap.Keys == NoteSimpleMap.Keys;
  }

  /** One octave up is twelve semitones up. */
  lemma OctaveUp(name: string, octave: nat)
    requires name in NoteSimpleMap
    ensures NoteToMidi(name, octave + 1).value == NoteToMidi(name, octave).value + 12
  {
  }

  /** Enharmonic spellings give the same number; spellings outside the
      table, such as E# or Cb, are refused. */
  lemma Enharmonics(octave: nat)
    ensures NoteToMidi("C#", octave) == NoteToMidi("Db", octave)
    ensures NoteToMidi("A#", octave) == NoteToMidi("Bb", octave)
    ensures NoteToMidi("E#", octave) == Failure(InvalidNote("E#"))
    ensures NoteToMidi("Cb", octave) == Failure(InvalidNote("Cb"))
  {
  }

  /** The `%n` modifier: the notes repeated cyclically, cut to n. */
  function Cyclic(notes: seq<int>, len: nat): (r: seq<int>)
    requires |notes| > 0 || len == 0
    ensures |r| == len
    ensures forall i :: 0 <= i < len ==> r[i] in notes
  {
    seq(len, i requires 0 <= i < len => notes[i % |notes|])
  }

  /** A length up to the number of notes keeps a prefix. */
  lemma CyclicTruncates(notes: seq<int>, len: nat)
    requires len <= |notes|
    ensures Cyclic(notes, len) == notes[..len]
  {
  }

  /** Asking for one more round of notes puts a whole copy in front. */
  lemma CyclicExtends(notes: seq<int>, len: nat)
    requires |notes| > 0
    ensures Cyclic(notes, |notes| + len) == notes + Cyclic(notes, len)
  {
    var n := |notes|;
    var long := Cyclic(notes, n + len);
    var short := Cyclic(notes, len);
    var both := notes + short;
    assert |long| == |both|;
    forall i | 0 <= i < n + len
      ensures long[i] == both[i]
    {
      if i < n {
        ModUnique(i, n, 0, i);
      } else {
        ModShift(i - n, n);
      }
    }
  }

  lemma MulAtLeast(k: int, n: int)
    requires k >= 1 && n >= 0
    ensures k * n >= n
  {
  }

  /** Division by a positive number has one quotient and one remainder. */
  lemma ModUnique(x: int, n: int, q: int, r: int)
    requires n > 0 && 0 <= r < n && x == q * n + r
    ensures x % n == r
  {
    var q2 := x / n;
    if q2 > q {
      MulAtLeast(q2 - q, n);
    } else if q2 < q {
      MulAtLeast(q - q2, n);
    }
  }

  lemma ModShift(j: nat, n: nat)
    requires n > 0
    ensures (j + n) % n == j % n
  {
    ModUnique(j, n, j / n, j % n);
    ModUnique(j + n, n, j / n + 1, j % n);
  }

  /** The loop of the `%n` modifier: push the whole list while the result is
      short, then cut it to n.  With no notes and n > 0 the source never
      stops, so that case is excluded here and reported by `StackMusicAction`. */
  method RepeatNotes(notes: seq<int>, len: nat) returns (r: seq<int>)
    requires |notes| > 0 || len == 0
    ensures |r| == len
    ensures forall i :: 0 <= i < len ==> r[i] == notes[i % |notes|]
    ensures r == Cyclic(notes, len)
  {
    var repeated: seq<int> := [];
    ghost var rounds: nat := 0;
    while |repeated| < len
      invariant |repeated| == rounds * |notes|
      invariant |notes| > 0 ==> forall i :: 0 <= i < |repeated| ==> repeated[i] == notes[i % |notes|]
      decreases len - |repeated|
    {
      ghost var prev := repeated;
      repeated := repeated + notes;
      forall i | |prev| <= i < |repeated|
        ensures repeated[i] == notes[i % |notes|]
      {
        ModUnique(i, |notes|, rounds, i - |prev|);
      }
      rounds := rounds + 1;
    }
    r := repeated[..len];
  }

  /** A node of the syntax tree the grammar builds. */
  datatype Node =
    | Number(n: int)                        // a number or a MIDI note
    | Token(text: string)                   // a word
    | Seq(items: seq<Node>)                 // steps of one cycle
    | Cat(items: seq<Node>)                 // one alternative per cycle (`|`)
    | Choose(items: seq<Node>)              // a random pick (`?`)
    | Stack(name: Option<string>, items: seq<Node>) // simultaneous notes
    | Spread(chord: string)                 // a named chord spread out

  /** `a | b | ...`: a single alternative is itself, several make a `cat`
      with the first in front of the rest. */
  function ChoiceAction(first: Node, rest: seq<Node>): (r: Node)
    ensures rest == [] ==> r == first
    ensures rest != [] ==> r.Cat? && r.items == [first] + rest && |r.items| >= 2
  {
    if rest == [] then first else Cat([first] + rest)
  }

  /** `a b ...`: a single step is itself, several make a `seq` in order. */
  function SequenceAction(first: Node, rest: seq<Node>): (r: Node)
    ensures rest == [] ==> r == first
    ensures rest != [] ==> r.Seq? && r.items == [first] + rest && |r.items| >= 2
  {
    if rest == [] then first else Seq([first] + rest)
  }

  /** `t * c`: a `seq` of c copies of t (no collapse, even for c = 1). */
  function FastAction(t: Node, c: nat): (r: Node)
    ensures r.Seq? && |r.items| == c
    ensures forall i :: 0 <= i < c ==> r.items[i] == t
  {
    Seq(seq(c, _ => t))
  }

  /** `a ? b ...`: a `choose` over at least two alternatives, in order. */
  function ChooseAction(first: Node, rest: seq<Node>): (r: Node)
    requires rest != []
    ensures r.Choose? && |r.items| == |rest| + 1 && r.items[0] == first && r.items[1..] == rest
  {
    Choose([first] + rest)
  }

  /** The notes of a chord as number nodes. */
  function Numbers(xs: seq<int>): (r: seq<Node>)
    ensures |r| == |xs| && forall i :: 0 <= i < |r| ==> r[i] == Number(xs[i])
  {
    seq(|xs|, i requires 0 <= i < |xs| => Number(xs[i]))
  }

  /** The notes of a chord after the `%n` modifier, if any. */
  function Resized(notes: seq<int>, mod: Option<nat>): (r: Result<seq<int>>)
    ensures mod.None? ==> r == Success(notes)
    ensures mod.Some? && notes == [] && mod.value > 0 ==> r == Failure(Diverges(mod.value))
    ensures r.Failure? ==> mod.Some? && notes == []
    ensures mod.Some? && r.Success? ==>
      |r.value| == mod.value && forall i :: 0 <= i < |r.value| ==> r.value[i] in notes
  {
    match mod
    case None => Success(notes)
    case Some(len) =>
      if notes == [] && len > 0 then Failure(Diverges(len)) else Success(Cyclic(notes, len))
  }

  /** The `StackMusic` action: the chord's notes, resized by `%n`, as a
      `choose` when randomised, else a `seq` when spread, else a named
      `stack`. */
  function StackMusicAction(root: char, kind: string, ext: Option<string>, mod: Option<nat>,
                            spread: bool, random: bool, t: Tables): (r: Result<Node>)
    ensures BuildStack([root], kind, ext, t).Failure? ==>
      r == Failure(BuildStack([root], kind, ext, t).error)
    ensures r.Success? <==>
      BuildStack([root], kind, ext, t).Success? && Resized(BuildStack([root], kind, ext, t).value, mod).Success?
    ensures r.Success? ==>
      var notes := Numbers(Resized(BuildStack([root], kind, ext, t).value, mod).value);
      && (random ==> r.value == Choose(notes))
      && (!random && spread ==> r.value == Seq(notes))
      && (!random && !spread ==>
            r.value == Stack(Some([root] + kind + (if ext.Some? then ext.value else "")), notes))
  {
    match BuildStack([root], kind, ext, t)
    case Failure(e) => Failure(e)
    case Success(stack) =>
      match Resized(stack, mod)
      case Failure(e) => Failure(e)
      case Success(notes) =>
        if random then Success(Choose(Numbers(notes)))
        else if spread then Success(Seq(Numbers(notes)))
        else Success(Stack(Some([root] + kind + (if ext.Some? then ext.value else "")), Numbers(notes)))
  }

  /** The `%n` modifier only loops forever when the chord has no notes. */
  lemma ResizedTotal(notes: seq<int>, len: nat)
    requires notes != [] || len == 0
    ensures Resized(notes, Some(len)) == Success(Cyclic(notes, len))
    ensures |Resized(notes, Some(len)).value| == len
  {
  }
}
