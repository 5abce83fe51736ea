/**
 * The mini-notation grammar of src/core/mini2.ts as a recursive-descent
 * parser with PEG semantics: ordered choice, greedy repetition without
 * backtracking into it, and actions that run as soon as their rule matches.
 * An action that throws ends the whole parse with its error.
 */
module MiniParser {
  import opened MiniNotation

  /** The outcome of one rule at one position: a match up to `next`, no
      match (the caller tries its next alternative), or an action threw. */
  datatype Outcome<T> = Match(value: T, next: nat) | NoMatch | Thrown(error: Error)

  /** Ordered choice: the second alternative only when the first does not
      match.  Rules have no side effects, so trying the second eagerly
      changes nothing. */
  function Or<T>(a: Outcome<T>, b: Outcome<T>): (r: Outcome<T>)
    ensures a.NoMatch? ==> r == b
    ensures !a.NoMatch? ==> r == a
  {
    if a.NoMatch? then b else a
  }

  /** The character classes the grammar uses. */
  datatype Class = Space | Digit | Lower | Root | ExtChar | IdentChar | TokenChar

  predicate In(cls: Class, c: char) {
    match cls
    case Space => c == ' ' || c == '\t' || c == '\n' || c == '\r'
    case Digit => '0' <= c <= '9'
    case Lower => 'a' <= c <= 'z'
    case Root => 'A' <= c <= 'G'
    case ExtChar => '0' <= c <= '9' || c == '#' || c == 'b'
    case IdentChar => 'a' <= c <= 'z' || 'A' <= c <= 'Z' || c == '_' || c == '.' || c == '/' || c == '-'
    case TokenChar => 'a' <= c <= 'z' || 'A' <= c <= 'Z' || '0' <= c <= '9' || c == '_' || c == '.' || c == '/' || c == '-'
  }

  predicate At(s: string, pos: nat, c: char) {
    pos < |s| && s[pos] == c
  }

  /** Where a greedy run of characters of one class, starting at pos, ends. */
  function RunEnd(s: string, pos: nat, cls: Class): (e: nat)
    requires pos <= |s|
    ensures pos <= e <= |s|
    ensures e == |s| || !In(cls, s[e])
    decreases |s| - pos
  {
    if pos < |s| && In(cls, s[pos]) then RunEnd(s, pos + 1, cls) else pos
  }

  /** Every character of a run belongs to its class. */
  lemma {:induction false} RunEndInClass(s: string, pos: nat, cls: Class, i: nat)
    requires pos <= |s| && pos <= i < RunEnd(s, pos, cls)
    ensures In(cls, s[i])
    decreases |s| - pos
  {
    if i > pos {
      RunEndInClass(s, pos + 1, cls, i);
    }
  }

  /** The rule `_`: optional white space. */
  function Ws(s: string, pos: nat): (e: nat)
    requires pos <= |s|
    ensures pos <= e <= |s|
  {
    RunEnd(s, pos, Space)
  }

  function DigitValue(c: char): nat {
    if '0' <= c <= '9' then c as int - '0' as int else 0
  }

  /** `parseInt(digits, 10)` of a string of decimal digits. */
  function DecimalValue(ds: string): nat {
    if ds == [] then 0 else DecimalValue(ds[..|ds| - 1]) * 10 + DigitValue(ds[|ds| - 1])
  }

  /** Which of the two orders of the note rules in `Primary` is used:
      `StackMusic` first (the grammar as written) or `MidiNote` first. */
  datatype Config = Config(tables: Tables, midiFirst: bool)

  /** `Number`: one or more digits. */
  function NumberRule(s: string, pos: nat): (r: Outcome<nat>)
    requires pos <= |s|
    ensures r.Match? ==> pos < r.next <= |s|
    ensures !r.Thrown?
  {
    var e := RunEnd(s, pos, Digit);
    if e == pos then NoMatch else Match(DecimalValue(s[pos..e]), e)
  }

  /** `Number` as an alternative of `Primary`. */
  function NumberNode(s: string, pos: nat): (r: Outcome<Node>)
    requires pos <= |s|
    ensures r.Match? ==> pos < r.next <= |s|
    ensures !r.Thrown?
  {
    match NumberRule(s, pos)
    case Match(n, e) => Match(Number(n), e)
    case _ => NoMatch
  }

  /** `StringToken`: one or more letters, digits, `_`, `.`, `/` or `-`. */
  function StringToken(s: string, pos: nat): (r: Outcome<Node>)
    requires pos <= |s|
    ensures r.Match? ==> pos < r.next <= |s|
    ensures !r.Thrown?
  {
    var e := RunEnd(s, pos, TokenChar);
    if e == pos then NoMatch else Match(Token(s[pos..e]), e)
  }

  /** `Spread`: an identifier followed by `..`. */
  function SpreadRule(s: string, pos: nat): (r: Outcome<Node>)
    requires pos <= |s|
    ensures r.Match? ==> pos < r.next <= |s|
  {
    var e := RunEnd(s, pos, IdentChar);
    if e == pos then NoMatch
    else if At(s, e, '.') && At(s, e + 1, '.') then Match(Spread(s[pos..e]), e + 2)
    else NoMatch
  }

  /** The `(_ "," _ Number)*` tail of `NumberList`. */
  function NumberTail(s: string, pos: nat): (r: Outcome<seq<nat>>)
    requires pos <= |s|
    ensures r.Match? && pos <= r.next <= |s|
    decreases |s| - pos
  {
    var p1 := Ws(s, pos);
    if !At(s, p1, ',') then Match([], pos)
    else match NumberRule(s, Ws(s, p1 + 1))
      case Match(n, p2) =>
        var rest := NumberTail(s, p2);
        Match([n] + rest.value, rest.next)
      case _ => Match([], pos)
  }

  /** `StackArray`: `[` numbers separated by commas `]`, a nameless stack. */
  function StackArray(s: string, pos: nat): (r: Outcome<Node>)
    requires pos <= |s|
    ensures r.Match? ==> pos < r.next <= |s|
    ensures !r.Thrown?
  {
    if !At(s, pos, '[') then NoMatch
    else match NumberRule(s, Ws(s, pos + 1))
      case Match(head, p1) =>
        var tail := NumberTail(s, p1);
        var p2 := Ws(s, tail.next);
        if At(s, p2, ']') then Match(Stack(None, Numbers([head] + tail.value)), p2 + 1) else NoMatch
      case _ => NoMatch
  }

  /** `StackMusic`: a root letter, a lower-case type, then the optional
      extension, `%n`, `..` and `?`; the action may throw. */
  function StackMusic(s: string, pos: nat, t: Tables): (r: Outcome<Node>)
    requires pos <= |s|
    ensures r.Match? ==> pos < r.next <= |s|
  {
    if !(pos < |s| && In(Root, s[pos])) then NoMatch
    else
      var typeEnd := RunEnd(s, pos + 1, Lower);
      if typeEnd == pos + 1 then NoMatch
      else
        var extEnd := RunEnd(s, typeEnd, ExtChar);
        var ext := if extEnd == typeEnd then None else Some(s[typeEnd..extEnd]);
        var digitsEnd := if At(s, extEnd, '%') then RunEnd(s, extEnd + 1, Digit) else extEnd;
        var modEnd := if digitsEnd > extEnd + 1 then digitsEnd else extEnd;
        var mod := if modEnd == extEnd then None else Some(DecimalValue(s[extEnd + 1..modEnd]));
        var spread := At(s, modEnd, '.') && At(s, modEnd + 1, '.');
        var spreadEnd := if spread then modEnd + 2 else modEnd;
        var random := At(s, spreadEnd, '?');
        var end := if random then spreadEnd + 1 else spreadEnd;
        match StackMusicAction(s[pos], s[pos + 1..typeEnd], ext, mod, spread, random, t)
        case Success(node) => Match(node, end)
        case Failure(e) => Thrown(e)
  }

  /** `MidiNote`: a note name (letter and optional `#` or `b`) and an octave. */
  function MidiNote(s: string, pos: nat): (r: Outcome<Node>)
    requires pos <= |s|
    ensures r.Match? ==> pos < r.next <= |s|
  {
    if !(pos < |s| && In(Root, s[pos])) then NoMatch
    else
      var nameEnd := if At(s, pos + 1, '#') || At(s, pos + 1, 'b') then pos + 2 else pos + 1;
      var octaveEnd := RunEnd(s, nameEnd, Digit);
      if octaveEnd == nameEnd then NoMatch
      else match NoteToMidi(s[pos..nameEnd], DecimalValue(s[nameEnd..octaveEnd]))
        case Success(m) => Match(Number(m), octaveEnd)
        case Failure(e) => Thrown(e)
  }

  /** `Group`: a parenthesised expression. */
  function Group(s: string, pos: nat, cfg: Config): (r: Outcome<Node>)
    requires pos <= |s|
    ensures r.Match? ==> pos < r.next <= |s|
    decreases |s| - pos, 1
  {
    if !At(s, pos, '(') then NoMatch
    else match Choice(s, Ws(s, pos + 1), cfg)
      case Match(e, p1) =>
        var p2 := Ws(s, p1);
        if At(s, p2, ')') then Match(e, p2 + 1) else NoMatch
      case NoMatch => NoMatch
      case Thrown(err) => Thrown(err)
  }

  /** `Primary`: the first alternative that matches, in the grammar's order. */
  function Primary(s: string, pos: nat, cfg: Config): (r: Outcome<Node>)
    requires pos <= |s|
    ensures r.Match? ==> pos < r.next <= |s|
    decreases |s| - pos, 2
  {
    var notes :=
      if cfg.midiFirst then Or(MidiNote(s, pos), StackMusic(s, pos, cfg.tables))
      else Or(StackMusic(s, pos, cfg.tables), MidiNote(s, pos));
    Or(StackArray(s, pos),
    Or(SpreadRule(s, pos),
    Or(notes,
    Or(StringToken(s, pos),
    Or(NumberNode(s, pos),
       Group(s, pos, cfg))))))
  }

  /** `Fast`: `Primary * Number`. */
  function Fast(s: string, pos: nat, cfg: Config): (r: Outcome<Node>)
    requires pos <= |s|
    ensures r.Match? ==> pos < r.next <= |s|
    decreases |s| - pos, 4
  {
    FastSuffix(s, pos, Primary(s, pos, cfg))
  }

  /** The `_ "*" _ Number` part of `Fast`, after the primary's outcome. */
  function FastSuffix(s: string, pos: nat, primary: Outcome<Node>): (r: Outcome<Node>)
    requires primary.Match? ==> pos < primary.next <= |s|
    ensures r.Match? ==> pos < r.next <= |s|
    ensures primary.Thrown? ==> r == primary
    ensures primary.NoMatch? ==> r == NoMatch
  {
    match primary
    case Thrown(e) => Thrown(e)
    case NoMatch => NoMatch
    case Match(t, p1) =>
      var p2 := Ws(s, p1);
      if !At(s, p2, '*') then NoMatch
      else match NumberRule(s, Ws(s, p2 + 1))
        case Match(c, p3) => Match(FastAction(t, c), p3)
        case _ => NoMatch
  }

  /** The `(_ "?" _ Primary)` repetitions of `Choose`. */
  function ChooseTail(s: string, pos: nat, cfg: Config): (r: Outcome<seq<Node>>)
    requires pos <= |s|
    ensures r.Match? ==> pos <= r.next <= |s|
    ensures !r.NoMatch?
    decreases |s| - pos, 3
  {
    var p1 := Ws(s, pos);
    if !At(s, p1, '?') then Match([], pos)
    else match Primary(s, Ws(s, p1 + 1), cfg)
      case Thrown(e) => Thrown(e)
      case NoMatch => Match([], pos)
      case Match(x, p2) =>
        match ChooseTail(s, p2, cfg)
        case Match(xs, p3) => Match([x] + xs, p3)
        case Thrown(e) => Thrown(e)
        case NoMatch => NoMatch
  }

  /** `Choose`: two or more primaries separated by `?`. */
  function ChooseRule(s: string, pos: nat, cfg: Config): (r: Outcome<Node>)
    requires pos <= |s|
    ensures r.Match? ==> pos < r.next <= |s|
    decreases |s| - pos, 4
  {
    match Primary(s, pos, cfg)
    case Thrown(e) => Thrown(e)
    case NoMatch => NoMatch
    case Match(first, p1) =>
      match ChooseTail(s, p1, cfg)
      case Match(rest, p2) => if rest == [] then NoMatch else Match(ChooseAction(first, rest), p2)
      case Thrown(e) => Thrown(e)
      case NoMatch => NoMatch
  }

  /** `Term`: `Fast`, else `Choose`, else `Primary`. */
  function Term(s: string, pos: nat, cfg: Config): (r: Outcome<Node>)
    requires pos <= |s|
    ensures r.Match? ==> pos < r.next <= |s|
    decreases |s| - pos, 5
  {
    Or(Fast(s, pos, cfg), Or(ChooseRule(s, pos, cfg), Primary(s, pos, cfg)))
  }

  /** The `(_ Term)*` repetitions of `Sequence`. */
  function SequenceTail(s: string, pos: nat, cfg: Config): (r: Outcome<seq<Node>>)
    requires pos <= |s|
    ensures r.Match? ==> pos <= r.next <= |s|
    ensures !r.NoMatch?
    decreases |s| - pos, 6
  {
    match Term(s, Ws(s, pos), cfg)
    case Thrown(e) => Thrown(e)
    case NoMatch => Match([], pos)
    case Match(x, p1) =>
      match SequenceTail(s, p1, cfg)
      case Match(xs, p2) => Match([x] + xs, p2)
      case Thrown(e) => Thrown(e)
      case NoMatch => NoMatch
  }

  /** `Sequence`: terms separated by white space. */
  function Sequence(s: string, pos: nat, cfg: Config): (r: Outcome<Node>)
    requires pos <= |s|
    ensures r.Match? ==> pos < r.next <= |s|
    decreases |s| - pos, 7
  {
    match Term(s, pos, cfg)
    case Thrown(e) => Thrown(e)
    case NoMatch => NoMatch
    case Match(first, p1) =>
      match SequenceTail(s, p1, cfg)
      case Match(rest, p2) => Match(SequenceAction(first, rest), p2)
      case Thrown(e) => Thrown(e)
      case NoMatch => NoMatch
  }

  /** The `(_ "|" _ Sequence)*` repetitions of `Choice`. */
  function ChoiceTail(s: string, pos: nat, cfg: Config): (r: Outcome<seq<Node>>)
    requires pos <= |s|
    ensures r.Match? ==> pos <= r.next <= |s|
    ensures !r.NoMatch?
    decreases |s| - pos, 8
  {
    var p1 := Ws(s, pos);
    if !At(s, p1, '|') then Match([], pos)
    else match Sequence(s, Ws(s, p1 + 1), cfg)
      case Thrown(e) => Thrown(e)
      case NoMatch => Match([], pos)
      case Match(x, p2) =>
        match ChoiceTail(s, p2, cfg)
        case Match(xs, p3) => Match([x] + xs, p3)
        case Thrown(e) => Thrown(e)
        case NoMatch => NoMatch
  }

  /** `Choice` (the grammar's `Expression`): sequences separated by `|`. */
  function Choice(s: string, pos: nat, cfg: Config): (r: Outcome<Node>)
    requires pos <= |s|
    ensures r.Match? ==> pos < r.next <= |s|
    decreases |s| - pos, 9
  {
    match Sequence(s, pos, cfg)
    case Thrown(e) => Thrown(e)
    case NoMatch => NoMatch
    case Match(first, p1) =>
      match ChoiceTail(s, p1, cfg)
      case Match(rest, p2) => Match(ChoiceAction(first, rest), p2)
      case Thrown(e) => Thrown(e)
      case NoMatch => NoMatch
  }

  /** `Start`: an expression between optional white space, which must take
      the whole input. */
  function Run(s: string, cfg: Config): (r: Result<Node>)
    ensures Ws(s, 0) == |s| ==> r == Failure(SyntaxError)
    ensures Choice(s, Ws(s, 0), cfg).Thrown? ==> r == Failure(Choice(s, Ws(s, 0), cfg).error)
    ensures r.Success? ==> Choice(s, Ws(s, 0), cfg).Match? && Choice(s, Ws(s, 0), cfg).value == r.value
    ensures r.Success? <==> Choice(s, Ws(s, 0), cfg).Match? && Ws(s, Choice(s, Ws(s, 0), cfg).next) == |s|
    ensures Choice(s, Ws(s, 0), cfg).Match? && Ws(s, Choice(s, Ws(s, 0), cfg).next) < |s| ==> r == Failure(SyntaxError)
  {
    EndOfInput(s, cfg);
    match Choice(s, Ws(s, 0), cfg)
    case Thrown(e) => Failure(e)
    case NoMatch => Failure(SyntaxError)
    case Match(node, p) => if Ws(s, p) == |s| then Success(node) else Failure(SyntaxError)
  }

  /** The parser the source builds: `StackMusic` is tried before `MidiNote`. */
  function Parse(s: string, t: Tables): (r: Result<Node>)
    ensures Ws(s, 0) == |s| ==> r == Failure(SyntaxError)
    ensures r.Success? ==> Choice(s, Ws(s, 0), Config(t, false)).Match?
  {
    Run(s, Config(t, false))
  }

  /** The parser with `MidiNote` tried before `StackMusic`. */
  function ParseNotesFirst(s: string, t: Tables): (r: Result<Node>)
    ensures Ws(s, 0) == |s| ==> r == Failure(SyntaxError)
    ensures r.Success? ==> Choice(s, Ws(s, 0), Config(t, true)).Match?
  {
    Run(s, Config(t, true))
  }

  // One step of each repetition, for the worked examples below.

  lemma SequenceOf(s: string, pos: nat, cfg: Config, first: Node, p1: nat, rest: seq<Node>, p2: nat)
    requires pos <= |s| && Term(s, pos, cfg) == Match(first, p1)
    requires SequenceTail(s, p1, cfg) == Match(rest, p2)
    ensures Sequence(s, pos, cfg) == Match(SequenceAction(first, rest), p2)
  {
  }

  lemma SequenceTailStep(s: string, pos: nat, cfg: Config, x: Node, p1: nat, xs: seq<Node>, p2: nat)
    requires pos <= |s| && Term(s, Ws(s, pos), cfg) == Match(x, p1)
    requires SequenceTail(s, p1, cfg) == Match(xs, p2)
    ensures SequenceTail(s, pos, cfg) == Match([x] + xs, p2)
  {
  }

  lemma SequenceTailStop(s: string, pos: nat, cfg: Config)
    requires pos <= |s| && Term(s, Ws(s, pos), cfg) == NoMatch
    ensures SequenceTail(s, pos, cfg) == Match([], pos)
  {
  }

  lemma ChoiceOf(s: string, pos: nat, cfg: Config, first: Node, p1: nat, rest: seq<Node>, p2: nat)
    requires pos <= |s| && Sequence(s, pos, cfg) == Match(first, p1)
    requires ChoiceTail(s, p1, cfg) == Match(rest, p2)
    ensures Choice(s, pos, cfg) == Match(ChoiceAction(first, rest), p2)
  {
  }

  lemma ChoiceTailStep(s: string, pos: nat, cfg: Config, x: Node, p1: nat, xs: seq<Node>, p2: nat)
    requires pos <= |s| && At(s, Ws(s, pos), '|')
    requires Sequence(s, Ws(s, Ws(s, pos) + 1), cfg) == Match(x, p1)
    requires ChoiceTail(s, p1, cfg) == Match(xs, p2)
    ensures ChoiceTail(s, pos, cfg) == Match([x] + xs, p2)
  {
  }

  lemma ChoiceTailStop(s: string, pos: nat, cfg: Config)
    requires pos <= |s| && !At(s, Ws(s, pos), '|')
    ensures ChoiceTail(s, pos, cfg) == Match([], pos)
  {
  }

  lemma RunOf(s: string, cfg: Config, v: Node)
    requires Choice(s, Ws(s, 0), cfg) == Match(v, |s|)
    ensures Run(s, cfg) == Success(v)
  {
    assert Ws(s, |s|) == |s|;
  }

  lemma FastOf(s: string, pos: nat, v: Node, p1: nat, c: nat, p3: nat)
    requires pos < p1 <= |s|
    requires At(s, Ws(s, p1), '*') && NumberRule(s, Ws(s, Ws(s, p1) + 1)) == Match(c, p3)
    ensures FastSuffix(s, pos, Match(v, p1)) == Match(FastAction(v, c), p3)
  {
  }

  lemma TermOfFast(s: string, pos: nat, cfg: Config, v: Node, p: nat)
    requires pos <= |s| && Fast(s, pos, cfg) == Match(v, p)
    ensures Term(s, pos, cfg) == Match(v, p)
  {
  }

  /** A character that is no root letter starts no note and no chord. */
  lemma NoNoteAt(s: string, pos: nat, t: Tables)
    requires pos < |s| && !In(Root, s[pos])
    ensures StackMusic(s, pos, t) == NoMatch && MidiNote(s, pos) == NoMatch
  {
  }

  /** A run over characters that are all in the class reaches the end. */
  lemma {:induction false} RunToEnd(s: string, pos: nat, cls: Class)
    requires pos <= |s|
    requires forall i :: pos <= i < |s| ==> In(cls, s[i])
    ensures RunEnd(s, pos, cls) == |s|
    decreases |s| - pos
  {
    if pos < |s| {
      RunToEnd(s, pos + 1, cls);
    }
  }

  /** `Spread` never matches: `Identifier` also takes dots, so no `..` can
      follow it. */
  lemma SpreadNeverMatches(s: string, pos: nat)
    requires pos <= |s|
    ensures SpreadRule(s, pos) == NoMatch
  {
  }

  /** At the end of the input no term matches. */
  lemma EndOfInput(s: string, cfg: Config)
    ensures Primary(s, |s|, cfg) == NoMatch
    ensures Term(s, |s|, cfg) == NoMatch
    ensures Choice(s, |s|, cfg) == NoMatch
  {
    assert Primary(s, |s|, cfg) == NoMatch;
  }

  /** A primary that takes the rest of the input, after leading white
      space, is the result of the whole parse. */
  lemma WholePrimary(s: string, cfg: Config, v: Node)
    requires Primary(s, Ws(s, 0), cfg) == Match(v, |s|)
    ensures Run(s, cfg) == Success(v)
  {
    var p := Ws(s, 0);
    EndOfInput(s, cfg);
    assert Ws(s, |s|) == |s|;
    assert Fast(s, p, cfg) == NoMatch;
    assert ChooseTail(s, |s|, cfg) == Match([], |s|);
    assert ChooseRule(s, p, cfg) == NoMatch;
    assert Term(s, p, cfg) == Match(v, |s|);
    assert SequenceTail(s, |s|, cfg) == Match([], |s|);
    assert Sequence(s, p, cfg) == Match(v, |s|);
    assert ChoiceTail(s, |s|, cfg) == Match([], |s|);
    assert Choice(s, p, cfg) == Match(v, |s|);
  }

  /** A digit starts a word, never a number: `StringToken` comes before
      `Number` in `Primary` and also takes digits. */
  lemma DigitStartsWord(s: string, pos: nat, cfg: Config)
    requires pos < |s| && In(Digit, s[pos])
    ensures Primary(s, pos, cfg) == StringToken(s, pos)
    ensures Primary(s, pos, cfg).Match? && Primary(s, pos, cfg).value.Token?
  {
    SpreadNeverMatches(s, pos);
    NoNoteAt(s, pos, cfg.tables);
    assert StackArray(s, pos) == NoMatch;
    assert StringToken(s, pos).Match?;
  }

  /** A numeral on its own parses as the word it spells, under either
      order of the note rules. */
  lemma NumeralIsWord(ds: string, cfg: Config)
    requires ds != [] && forall i :: 0 <= i < |ds| ==> In(Digit, ds[i])
    ensures Run(ds, cfg) == Success(Token(ds))
  {
    assert Ws(ds, 0) == 0;
    RunToEnd(ds, 0, TokenChar);
    DigitStartsWord(ds, 0, cfg);
    assert ds[0..|ds|] == ds;
    WholePrimary(ds, cfg, Token(ds));
  }

  /** The shape of the note names: a letter from A to G, then possibly a
      sharp or a flat. */
  lemma NoteNameShape(name: string)
    requires name in NoteSimpleMap
    ensures 1 <= |name| <= 2 && In(Root, name[0]) && [name[0]] in NoteMap
    ensures |name| == 2 ==> name[1] == '#' || name[1] == 'b'
  {
  }

  /** Under the grammar as written, a flat MIDI note such as `Db4` is read
      as the chord of root D and type `b`, so the parse fails with an
      unknown type although `noteToMidi` knows the note. */
  lemma FlatNoteIsChord(name: string, d: char, t: Tables)
    requires name in NoteSimpleMap && |name| == 2 && name[1] == 'b'
    requires In(Digit, d) && "b" !in t.triads && "b" !in t.modes
    ensures NoteToMidi(name, DigitValue(d)).Success?
    ensures Parse(name + [d], t) == Failure(UnknownType("b"))
  {
    NoteNameShape(name);
    var s := name + [d];
    var cfg := Config(t, false);
    assert s[0] == name[0] && s[1] == 'b' && s[2] == d;
    assert Ws(s, 0) == 0;
    assert RunEnd(s, 1, Lower) == 2;
    assert RunEnd(s, 2, ExtChar) == 3;
    assert s[1..2] == "b" && s[2..3] == [d];
    assert StackMusicAction(s[0], "b", Some([d]), None, false, false, t) == Failure(UnknownType("b"));
    assert StackMusic(s, 0, t) == Thrown(UnknownType("b"));
    SpreadNeverMatches(s, 0);
    assert Primary(s, 0, cfg) == Thrown(UnknownType("b"));
    assert Fast(s, 0, cfg) == Thrown(UnknownType("b"));
    assert Term(s, 0, cfg) == Thrown(UnknownType("b"));
    assert Sequence(s, 0, cfg) == Thrown(UnknownType("b"));
    assert Choice(s, 0, cfg) == Thrown(UnknownType("b"));
  }

  /** The note rule on a note name followed by one octave digit. */
  lemma MidiNoteMatches(name: string, d: char)
    requires name in NoteSimpleMap && In(Digit, d)
    ensures MidiNote(name + [d], 0) == Match(Number(NoteToMidi(name, DigitValue(d)).value), |name| + 1)
  {
    NoteNameShape(name);
    var s := name + [d];
    assert s[..|name|] == name && s[|name|] == d;
    assert RunEnd(s, |name|, Digit) == |name| + 1;
    assert s[|name|..|name| + 1] == [d];
    assert DecimalValue([d]) == DigitValue(d);
  }

  /** With `MidiNote` tried first, every note name with an octave digit
      parses to its MIDI number. */
  lemma NotesFirstParsesNotes(name: string, d: char, t: Tables)
    requires name in NoteSimpleMap && In(Digit, d)
    ensures ParseNotesFirst(name + [d], t) == Success(Number(NoteToMidi(name, DigitValue(d)).value))
  {
    NoteNameShape(name);
    var s := name + [d];
    var cfg := Config(t, true);
    assert s[0] == name[0];
    assert Ws(s, 0) == 0;
    MidiNoteMatches(name, d);
    SpreadNeverMatches(s, 0);
    WholePrimary(s, cfg, Number(NoteToMidi(name, DigitValue(d)).value));
  }

  /** Under the grammar as written, natural and sharp notes do parse: no
      lower-case type can follow their letter. */
  lemma NaturalAndSharpNotesParse(name: string, d: char, t: Tables)
    requires name in NoteSimpleMap && In(Digit, d) && (|name| == 1 || name[1] == '#')
    ensures Parse(name + [d], t) == Success(Number(NoteToMidi(name, DigitValue(d)).value))
  {
    NoteNameShape(name);
    var s := name + [d];
    var cfg := Config(t, false);
    assert s[0] == name[0] && s[1] == (if |name| == 1 then d else '#');
    assert Ws(s, 0) == 0;
    assert RunEnd(s, 1, Lower) == 1;
    assert StackMusic(s, 0, t) == NoMatch;
    MidiNoteMatches(name, d);
    SpreadNeverMatches(s, 0);
    WholePrimary(s, cfg, Number(NoteToMidi(name, DigitValue(d)).value));
  }

  /** A lower-case letter starts a word. */
  lemma WordPrimary(s: string, pos: nat, cfg: Config)
    requires pos < |s| && In(Lower, s[pos])
    ensures Primary(s, pos, cfg) == Match(Token(s[pos..RunEnd(s, pos, TokenChar)]), RunEnd(s, pos, TokenChar))
  {
    SpreadNeverMatches(s, pos);
    NoNoteAt(s, pos, cfg.tables);
    assert StackArray(s, pos) == NoMatch;
  }

  /** At a character that starts no alternative (an operator such as `|`,
      `*`, `?` or `)`), no primary and no term matches. */
  lemma NothingStartsAt(s: string, pos: nat, cfg: Config)
    requires pos < |s| && s[pos] != '[' && s[pos] != '(' && !In(TokenChar, s[pos])
    ensures Primary(s, pos, cfg) == NoMatch
    ensures Term(s, pos, cfg) == NoMatch
  {
    assert RunEnd(s, pos, TokenChar) == pos;
    assert RunEnd(s, pos, IdentChar) == pos;
  }

  /** A primary followed by neither `*` nor `?` is a term by itself. */
  lemma PlainTerm(s: string, pos: nat, cfg: Config, v: Node, p: nat)
    requires pos <= |s| && Primary(s, pos, cfg) == Match(v, p)
    requires !At(s, Ws(s, p), '*') && !At(s, Ws(s, p), '?')
    ensures Term(s, pos, cfg) == Match(v, p)
  {
    assert Fast(s, pos, cfg) == NoMatch;
    assert ChooseTail(s, p, cfg) == Match([], p);
    assert ChooseRule(s, pos, cfg) == NoMatch;
  }

  /** The demonstration input `Cma%6..?`: with the major triad 0, 4, 7 the
      three notes of C major are repeated to six and drawn at random. */
  lemma ChordDemo(t: Tables)
    requires "ma" in t.triads && t.triads["ma"] == [0, 4, 7]
    ensures Parse("Cma%6..?", t) == Success(Choose(Numbers([60, 64, 67, 60, 64, 67])))
  {
    var s := "Cma%6..?";
    var v := Choose(Numbers([60, 64, 67, 60, 64, 67]));
    ChordDemoAction(t);
    ChordDemoRule(s, t, v);
    assert Ws(s, 0) == 0;
    SpreadNeverMatches(s, 0);
    WholePrimary(s, Config(t, false), v);
  }

  lemma ChordDemoAction(t: Tables)
    requires "ma" in t.triads && t.triads["ma"] == [0, 4, 7]
    ensures StackMusicAction('C', "ma", None, Some(6), true, true, t)
         == Success(Choose(Numbers([60, 64, 67, 60, 64, 67])))
  {
    CMajor(t);
    CMajorSix();
    assert Resized([60, 64, 67], Some(6)) == Success([60, 64, 67, 60, 64, 67]);
  }

  /** C major from the triad table: 60, 64, 67. */
  lemma CMajor(t: Tables)
    requires "ma" in t.triads && t.triads["ma"] == [0, 4, 7]
    ensures BuildStack("C", "ma", None, t) == Success([60, 64, 67])
  {
    assert NoteMap["C"] == 60;
    TriadsPrecedence("C", "ma", t);
    assert Transpose([0, 4, 7], 60) == [60, 64, 67];
  }

  lemma CMajorSix()
    ensures Cyclic([60, 64, 67], 6) == [60, 64, 67, 60, 64, 67]
  {
  }

  lemma ChordDemoRule(s: string, t: Tables, v: Node)
    requires s == "Cma%6..?"
    requires StackMusicAction('C', "ma", None, Some(6), true, true, t) == Success(v)
    ensures StackMusic(s, 0, t) == Match(v, 8)
  {
    assert RunEnd(s, 3, Lower) == 3;
    assert RunEnd(s, 2, Lower) == 3;
    assert RunEnd(s, 1, Lower) == 3;
    assert RunEnd(s, 5, Digit) == 5;
    assert RunEnd(s, 3, ExtChar) == 3;
    assert RunEnd(s, 4, Digit) == 5;
    assert s[1..3] == "ma" && s[4..5] == "6";
    assert DecimalValue("6") == 6;
  }

  /** A chord with an extension and no modifier is a stack named after it. */
  lemma ExtendedChord(t: Tables)
    requires "ma" in t.triads && t.triads["ma"] == [0, 4, 7]
    ensures Parse("Cma7", t) == Success(Stack(Some("Cma7"), Numbers([60, 64, 67, 70])))
  {
    var s := "Cma7";
    var v := Stack(Some("Cma7"), Numbers([60, 64, 67, 70]));
    ExtendedChordAction(t);
    ExtendedChordRule(s, t, v);
    assert Ws(s, 0) == 0;
    SpreadNeverMatches(s, 0);
    WholePrimary(s, Config(t, false), v);
  }

  lemma ExtendedChordAction(t: Tables)
    requires "ma" in t.triads && t.triads["ma"] == [0, 4, 7]
    ensures StackMusicAction('C', "ma", Some("7"), None, false, false, t)
         == Success(Stack(Some("Cma7"), Numbers([60, 64, 67, 70])))
  {
    CMajorSeventh(t);
    assert Resized([60, 64, 67, 70], None) == Success([60, 64, 67, 70]);
    assert ['C'] + "ma" + "7" == "Cma7";
  }

  /** C major with the extension 7 appended: 60, 64, 67, 70. */
  lemma CMajorSeventh(t: Tables)
    requires "ma" in t.triads && t.triads["ma"] == [0, 4, 7]
    ensures BuildStack("C", "ma", Some("7"), t) == Success([60, 64, 67, 70])
  {
    CMajor(t);
    ExtensionAppends("C", "ma", "7", t);
    assert NoteMap["C"] == 60 && Extensions["7"] == [10];
    assert Transpose([10], 60) == [70];
    assert [60, 64, 67] + [70] == [60, 64, 67, 70];
  }

  lemma ExtendedChordRule(s: string, t: Tables, v: Node)
    requires s == "Cma7"
    requires StackMusicAction('C', "ma", Some("7"), None, false, false, t) == Success(v)
    ensures StackMusic(s, 0, t) == Match(v, 4)
  {
    assert RunEnd(s, 3, Lower) == 3;
    assert RunEnd(s, 2, Lower) == 3;
    assert RunEnd(s, 1, Lower) == 3;
    assert RunEnd(s, 4, ExtChar) == 4;
    assert RunEnd(s, 3, ExtChar) == 4;
    assert s[1..3] == "ma" && s[3..4] == "7";
  }

  /** `a*3` is a sequence of three copies of the word. */
  lemma RepeatDemo(t: Tables)
    ensures Parse("a*3", t) == Success(Seq([Token("a"), Token("a"), Token("a")]))
  {
    var s := "a*3";
    var cfg := Config(t, false);
    var three := Seq([Token("a"), Token("a"), Token("a")]);
    RepeatTerm(s, cfg);
    EndOfInput(s, cfg);
    SequenceTailStop(s, 3, cfg);
    SequenceOf(s, 0, cfg, three, 3, [], 3);
    ChoiceTailStop(s, 3, cfg);
    ChoiceOf(s, 0, cfg, three, 3, [], 3);
    assert Ws(s, 0) == 0;
    RunOf(s, cfg, three);
  }

  lemma RepeatTerm(s: string, cfg: Config)
    requires s == "a*3"
    ensures Term(s, 0, cfg) == Match(Seq([Token("a"), Token("a"), Token("a")]), 3)
  {
    assert RunEnd(s, 1, TokenChar) == 1;
    assert RunEnd(s, 0, TokenChar) == 1 && s[0..1] == "a";
    WordPrimary(s, 0, cfg);
    assert Ws(s, 1) == 1 && Ws(s, 2) == 2;
    assert RunEnd(s, 3, Digit) == 3;
    assert RunEnd(s, 2, Digit) == 3 && s[2..3] == "3";
    assert DecimalValue("3") == 3;
    assert NumberRule(s, 2) == Match(3, 3);
    FastOf(s, 0, Token("a"), 1, 3, 3);
    assert Fast(s, 0, cfg) == FastSuffix(s, 0, Match(Token("a"), 1));
    assert FastAction(Token("a"), 3) == Seq([Token("a"), Token("a"), Token("a")]);
    TermOfFast(s, 0, cfg, Seq([Token("a"), Token("a"), Token("a")]), 3);
  }

  /** `a b|c`: the steps of a sequence bind tighter than the bar. */
  lemma ChoiceOfSequences(t: Tables)
    ensures Parse("a b|c", t) == Success(Cat([Seq([Token("a"), Token("b")]), Token("c")]))
  {
    ChoiceOfSequencesIn("a b|c", Config(t, false));
  }

  lemma ChoiceOfSequencesIn(s: string, cfg: Config)
    requires s == "a b|c"
    ensures Run(s, cfg) == Success(Cat([Seq([Token("a"), Token("b")]), Token("c")]))
  {
    ChoiceWords(s, cfg);
    assert RunEnd(s, 2, Space) == 2 && Ws(s, 1) == 2;
    assert RunEnd(s, 3, Space) == 3 && Ws(s, 3) == 3;
    assert Ws(s, 4) == 4 && Ws(s, 5) == 5 && Ws(s, 0) == 0;
    SequenceSteps(s, cfg);
    ChoiceSteps(s, cfg);
    var ab := Seq([Token("a"), Token("b")]);
    ChoiceOf(s, 0, cfg, ab, 3, [Token("c")], 5);
    assert [ab] + [Token("c")] == [ab, Token("c")];
    RunOf(s, cfg, Cat([ab, Token("c")]));
  }

  lemma ChoiceSteps(s: string, cfg: Config)
    requires |s| == 5 && s[3] == '|' && Ws(s, 3) == 3 && Ws(s, 4) == 4 && Ws(s, 5) == 5
    requires Term(s, 4, cfg) == Match(Token("c"), 5)
    ensures ChoiceTail(s, 3, cfg) == Match([Token("c")], 5)
  {
    EndOfInput(s, cfg);
    SequenceTailStop(s, 5, cfg);
    SequenceOf(s, 4, cfg, Token("c"), 5, [], 5);
    ChoiceTailStop(s, 5, cfg);
    ChoiceTailStep(s, 3, cfg, Token("c"), 5, [], 5);
    assert [Token("c")] + [] == [Token("c")];
  }

  lemma ChoiceWords(s: string, cfg: Config)
    requires s == "a b|c"
    ensures Term(s, 0, cfg) == Match(Token("a"), 1)
    ensures Term(s, 2, cfg) == Match(Token("b"), 3)
    ensures Term(s, 4, cfg) == Match(Token("c"), 5)
  {
    FirstWord(s, cfg);
    SecondWord(s, cfg);
    ThirdWord(s, cfg);
  }

  lemma FirstWord(s: string, cfg: Config)
    requires s == "a b|c"
    ensures Term(s, 0, cfg) == Match(Token("a"), 1)
  {
    assert RunEnd(s, 1, TokenChar) == 1 && RunEnd(s, 2, Space) == 2 && Ws(s, 1) == 2;
    LetterTerm(s, 0, cfg);
  }

  lemma SecondWord(s: string, cfg: Config)
    requires s == "a b|c"
    ensures Term(s, 2, cfg) == Match(Token("b"), 3)
  {
    assert RunEnd(s, 3, TokenChar) == 3 && RunEnd(s, 3, Space) == 3;
    LetterTerm(s, 2, cfg);
  }

  lemma ThirdWord(s: string, cfg: Config)
    requires s == "a b|c"
    ensures Term(s, 4, cfg) == Match(Token("c"), 5)
  {
    assert RunEnd(s, 5, TokenChar) == 5 && Ws(s, 5) == 5;
    LetterTerm(s, 4, cfg);
  }

  /** A one-letter word followed by neither `*` nor `?` is a term. */
  lemma LetterTerm(s: string, pos: nat, cfg: Config)
    requires pos < |s| && In(Lower, s[pos]) && RunEnd(s, pos + 1, TokenChar) == pos + 1
    requires !At(s, Ws(s, pos + 1), '*') && !At(s, Ws(s, pos + 1), '?')
    ensures Term(s, pos, cfg) == Match(Token([s[pos]]), pos + 1)
  {
    assert RunEnd(s, pos, TokenChar) == pos + 1;
    assert s[pos..pos + 1] == [s[pos]];
    WordPrimary(s, pos, cfg);
    PlainTerm(s, pos, cfg, Token([s[pos]]), pos + 1);
  }

  lemma SequenceSteps(s: string, cfg: Config)
    requires 3 < |s| && s[3] == '|' && Ws(s, 1) == 2 && Ws(s, 3) == 3
    requires Term(s, 2, cfg) == Match(Token("b"), 3)
    requires Term(s, 0, cfg) == Match(Token("a"), 1)
    ensures Sequence(s, 0, cfg) == Match(Seq([Token("a"), Token("b")]), 3)
  {
    SecondStep(s, cfg);
    SequenceOf(s, 0, cfg, Token("a"), 1, [Token("b")], 3);
    assert [Token("a")] + [Token("b")] == [Token("a"), Token("b")];
  }

  lemma SecondStep(s: string, cfg: Config)
    requires 3 < |s| && s[3] == '|' && Ws(s, 1) == 2 && Ws(s, 3) == 3
    requires Term(s, 2, cfg) == Match(Token("b"), 3)
    ensures SequenceTail(s, 1, cfg) == Match([Token("b")], 3)
  {
    NothingStartsAt(s, 3, cfg);
    SequenceTailStop(s, 3, cfg);
    SequenceTailStep(s, 1, cfg, Token("b"), 3, [], 3);
    assert [Token("b")] + [] == [Token("b")];
  }
}
