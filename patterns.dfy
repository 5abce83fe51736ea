/**
 * The pattern query algebra: a pattern answers a query over a window of
 * cycle time with an ordered list of haps (events).  `cat`, `choose` and
 * `fast` are the primitive combinators, `slow` and `seq` are defined from
 * them, and every combinator is also available as a method bound on a
 * pattern, with the pattern as the final argument.
 *
 * Times are exact reals; the source uses JavaScript floating point.
 */
module Patterns {

  /** A value that is not a pattern.  `Undefined` is what JavaScript reads
      for an index outside a list. */
  datatype Atom = Undefined | Num(x: real) | Str(s: string)

  /** JavaScript truthiness (`!!value`) of an atom. */
  predicate Truthy(a: Atom) {
    match a
    case Undefined => false
    case Num(x) => x != 0.0
    case Str(s) => s != ""
  }

  /** What a combinator is given: a plain value, or a nested pattern. */
  datatype Value = Lit(atom: Atom) | Pat(pattern: Pattern)

  /** The closed algebra of patterns. */
  datatype Pattern =
    | Cat(values: seq<Value>)            // one value per cycle, in rotation
    | Choose(values: seq<Value>)         // one randomly drawn value per cycle
    | Fast(factor: real, inner: Pattern) // time compressed by `factor`
  {
    // The methods the constructor binds on every pattern: each calls the
    // free function with the pattern itself as the final argument.

    function FastBy(factor: real): (r: Pattern)
      ensures Bound(this, FastFn, [Lit(Num(factor))]) == Some(r)
    {
      Fast(factor, this)
    }

    function SlowBy(factor: real): (r: Pattern)
      requires factor != 0.0
      ensures Bound(this, SlowFn, [Lit(Num(factor))]) == Some(r)
    {
      Slow(factor, this)
    }

    function CatWith(args: seq<Value>): (r: Pattern)
      ensures Bound(this, CatFn, args) == Some(r)
    {
      Cat(args + [Pat(this)])
    }

    function SeqWith(args: seq<Value>): (r: Pattern)
      ensures Bound(this, SeqFn, args) == Some(r)
    {
      Seq(args + [Pat(this)])
    }

    function ChooseWith(args: seq<Value>): (r: Pattern)
      ensures Bound(this, ChooseFn, args) == Some(r)
    {
      Choose(args + [Pat(this)])
    }
  }

  datatype Option<T> = None | Some(value: T)

  /** The entries of the exported `methods` object, by name. */
  datatype Combinator = FastFn | SlowFn | CatFn | SeqFn | ChooseFn

  /** A call `method(...args)` of an exported combinator.  `fast` and `slow`
      read a number and a pattern from the first two arguments and ignore
      the rest; arguments of another shape (a missing pattern, `slow` by 0,
      whose factor 1 / 0 is Infinity) give None: no pattern of this model. */
  function Apply(m: Combinator, args: seq<Value>): Option<Pattern> {
    match m
    case CatFn => Some(Cat(args))
    case SeqFn => Some(Seq(args))
    case ChooseFn => Some(Choose(args))
    case FastFn =>
      if |args| >= 2 && args[0].Lit? && args[0].atom.Num? && args[1].Pat?
      then Some(Fast(args[0].atom.x, args[1].pattern)) else None
    case SlowFn =>
      if |args| >= 2 && args[0].Lit? && args[0].atom.Num? && args[0].atom.x != 0.0 && args[1].Pat?
      then Some(Slow(args[0].atom.x, args[1].pattern)) else None
  }

  /** What the constructor installs under the name of `m` on pattern `p`:
      `(...args) => method(...args, p)`. */
  function Bound(p: Pattern, m: Combinator, args: seq<Value>): Option<Pattern> {
    Apply(m, args + [Pat(p)])
  }

  /** An event: a span of cycle time and the (resolved) value it carries. */
  datatype Hap = Hap(from: real, to: real, value: Atom)

  /** A draw of `Math.random()`: a real in [0, 1). */
  type Unit = r: real | 0.0 <= r < 1.0

  /** The random source: the draw of `Math.random()` the callback of the
      `choose` pattern given makes for the cycle given. */
  type Oracle = (Pattern, int) -> Unit

  /** `slow(f, p)` is `fast(1 / f, p)`. */
  function Slow(factor: real, p: Pattern): (r: Pattern)
    requires factor != 0.0
    ensures r.Fast? && r.inner == p && r.factor * factor == 1.0
    ensures PositiveFactors(r) <==> factor > 0.0 && PositiveFactors(p)
  {
    Fast(1.0 / factor, p)
  }

  /** `seq(...values)` squeezes the rotation of `cat` into one cycle. */
  function Seq(values: seq<Value>): (r: Pattern)
    ensures PositiveFactors(r) <==> |values| > 0 && PositiveFactors(Cat(values))
    ensures |values| == 0 ==> r == Fast(0.0, Cat([]))
  {
    Fast(|values| as real, Cat(values))
  }

  /** A time of the outer pattern as seen by the pattern inside `fast`. */
  function Dilate(t: real, factor: real): real { t * factor }

  function Floor(x: real): int { x.Floor }

  function Ceil(x: real): (c: int)
    ensures x <= c as real < x + 1.0
  {
    -((-x).Floor)
  }

  /** JavaScript's `%` on integers: the remainder takes the dividend's sign. */
  function JsRem(n: int, d: int): (r: int)
    requires d > 0
    ensures n >= 0 ==> r == n % d
    ensures n < 0 ==> -d < r <= 0
    ensures (n - r) % d == 0
  {
    RemainderCongruent(n, d);
    if n >= 0 then n % d else -((-n) % d)
  }

  /** Both remainders differ from n by a multiple of d. */
  lemma RemainderCongruent(n: int, d: int)
    requires d > 0
    ensures (n - n % d) % d == 0
    ensures (n - -((-n) % d)) % d == 0
  {
    var q, q' := n / d, (-n) / d;
    assert n == d * q + n % d;
    assert -n == d * q' + (-n) % d;
    assert n - n % d == q * d;
    assert n - -((-n) % d) == (-q') * d;
    MultipleRem(q, d);
    MultipleRem(-q', d);
  }

  /** A multiple of d leaves no remainder. */
  lemma MultipleRem(k: int, d: int)
    requires d > 0
    ensures (k * d) % d == 0
  {
    var q, r := (k * d) / d, (k * d) % d;
    assert (k - q) * d == r;
    if k - q >= 1 {
      MoreThanOnce(k - q, d);
    } else if k - q <= -1 {
      MoreThanOnce(q - k, d);
    }
  }

  lemma MoreThanOnce(j: int, d: int)
    requires j >= 1 && d > 0
    ensures j * d >= d
  {
  }

  /** `values[i]` in JavaScript. */
  function At(values: seq<Value>, i: int): Value {
    if 0 <= i < |values| then values[i] else Lit(Undefined)
  }

  /** The index the per-cycle callback of `cat` or `choose` reads for cycle `n`. */
  function Index(p: Pattern, n: int, rand: Oracle): (i: int)
    requires !p.Fast?
    ensures p.Cat? && |p.values| > 0 ==> -|p.values| < i < |p.values| && (n - i) % |p.values| == 0
    ensures p.Choose? ==> 0 <= i
  {
    if p.Cat? then
      // `n % 0` is NaN when the list is empty, and no index reads an element
      if |p.values| == 0 then 0 else JsRem(n, |p.values|)
    else
      NonNegativeProduct(rand(p, n), |p.values| as real);
      (rand(p, n) * |p.values| as real).Floor
  }

  /** The value of the single hap the callback returns for cycle `n`. */
  function CycleValue(p: Pattern, n: int, rand: Oracle): Value
    requires !p.Fast?
  {
    At(p.values, Index(p, n, rand))
  }

  /** The answer of pattern `p` to a query over [from, to). */
  function Query(p: Pattern, from: real, to: real, rand: Oracle): (r: seq<Hap>)
    ensures PositiveFactors(p) ==> Proper(r)
    decreases p, 1
  {
    match p
    case Fast(f, q) =>
      // with f = 0 the source queries q over [0, 0), which is empty (ZeroWindow)
      if f == 0.0 then [] else Rescale(Query(q, Dilate(from, f), Dilate(to, f), rand), f)
    case Cat(_) => Cycles(p, Floor(from), Ceil(to), rand)
    case Choose(_) => Cycles(p, Floor(from), Ceil(to), rand)
  }

  /** The haps of the whole cycles lo, lo + 1, ..., hi - 1, in that order. */
  function Cycles(p: Pattern, lo: int, hi: int, rand: Oracle): (r: seq<Hap>)
    requires !p.Fast?
    ensures PositiveFactors(p) ==> Proper(r)
    decreases p, 0, hi - lo
  {
    if hi <= lo then [] else Cycles(p, lo, hi - 1, rand) + CycleHaps(p, hi - 1, rand)
  }

  /** The callback's hap for cycle n: a nested pattern is replaced by its own
      query over the hap's span, any other value is kept as it is. */
  function CycleHaps(p: Pattern, n: int, rand: Oracle): (r: seq<Hap>)
    requires !p.Fast?
    ensures PositiveFactors(p) ==> Proper(r)
    decreases p, 0, 0
  {
    var i := Index(p, n, rand);
    if 0 <= i < |p.values| && p.values[i].Pat? then
      Query(p.values[i].pattern, n as real, (n + 1) as real, rand)
    else
      [Hap(n as real, (n + 1) as real, At(p.values, i).atom)]
  }

  /** The map `fast` applies to its inner haps: spans divided by the factor. */
  function Rescale(haps: seq<Hap>, f: real): (r: seq<Hap>)
    requires f != 0.0
    ensures |r| == |haps|
    ensures forall i :: 0 <= i < |haps| ==>
      r[i] == Hap(haps[i].from / f, haps[i].to / f, haps[i].value)
    ensures f > 0.0 && Proper(haps) ==> Proper(r)
  {
    DivideMonotone(haps, f);
    if haps == [] then [] else [Hap(haps[0].from / f, haps[0].to / f, haps[0].value)] + Rescale(haps[1..], f)
  }

  // ---------------------------------------------------------------------
  // The query as the source runs it: a loop over whole cycles that grows a
  // bag of haps, re-entering the query of every nested pattern.
  // ---------------------------------------------------------------------

  method RunQuery(p: Pattern, from: real, to: real, rand: Oracle) returns (bag: seq<Hap>)
    ensures bag == Query(p, from, to, rand)
    decreases p, 1
  {
    match p {
      case Fast(f, q) =>
        var inner := RunQuery(q, Dilate(from, f), Dilate(to, f), rand);
        if f == 0.0 {
          assert Dilate(from, f) == 0.0 && Dilate(to, f) == 0.0;
          ZeroWindow(q, rand);
          bag := inner;
        } else {
          bag := Rescale(inner, f);
        }
      case Cat(_) =>
        bag := RunCycles(p, from, to, rand);
      case Choose(_) =>
        bag := RunCycles(p, from, to, rand);
    }
  }

  /** The query `cycle` builds: round the window outward to whole cycles and
      call back once per cycle, in increasing order. */
  method RunCycles(p: Pattern, from: real, to: real, rand: Oracle) returns (bag: seq<Hap>)
    requires !p.Fast?
    ensures bag == Cycles(p, Floor(from), Ceil(to), rand)
    decreases p, 0
  {
    var lo, hi := Floor(from), Ceil(to);
    var n := lo;
    bag := [];
    while n < hi
      invariant lo <= n && (n <= hi || n == lo)
      invariant bag == Cycles(p, lo, n, rand)
      decreases hi - n
    {
      var i := Index(p, n, rand);
      var haps;
      if 0 <= i < |p.values| && p.values[i].Pat? {
        haps := RunQuery(p.values[i].pattern, n as real, (n + 1) as real, rand);
      } else {
        haps := [Hap(n as real, (n + 1) as real, At(p.values, i).atom)];
      }
      assert haps == CycleHaps(p, n, rand);
      CyclesStep(p, lo, n, rand);
      bag := bag + haps;
      n := n + 1;
    }
  }

  // ---------------------------------------------------------------------
  // Properties of `cycle`
  // ---------------------------------------------------------------------

  /** One more cycle appends that cycle's haps. */
  lemma CyclesStep(p: Pattern, lo: int, n: int, rand: Oracle)
    requires !p.Fast? && lo <= n
    ensures Cycles(p, lo, n + 1, rand) == Cycles(p, lo, n, rand) + CycleHaps(p, n, rand)
  {
  }

  /** A query over [0, 0) is empty at every depth, so `fast(0, p)` maps an
      empty list. */
  lemma {:induction false} ZeroWindow(p: Pattern, rand: Oracle)
    ensures Query(p, 0.0, 0.0, rand) == []
  {
    match p
    case Fast(f, q) =>
      if f != 0.0 { ZeroWindow(q, rand); }
    case Cat(_) =>
    case Choose(_) =>
  }

  /** No cycle lies between ceil(to) and floor(from) when the first is not
      above the second. */
  lemma EmptyWindow(p: Pattern, from: real, to: real, rand: Oracle)
    requires !p.Fast? && Ceil(to) <= Floor(from)
    ensures Query(p, from, to, rand) == []
  {
  }

  /** The haps of a run of cycles are the haps of its two parts, in order. */
  lemma {:induction false} CyclesSplit(p: Pattern, lo: int, mid: int, hi: int, rand: Oracle)
    requires !p.Fast? && lo <= mid <= hi
    ensures Cycles(p, lo, hi, rand) == Cycles(p, lo, mid, rand) + Cycles(p, mid, hi, rand)
    decreases hi - mid
  {
    if mid < hi {
      CyclesSplit(p, lo, mid, hi - 1, rand);
    }
  }

  /** Querying exactly one whole cycle calls back once: a nested pattern is
      queried over that cycle, a plain value yields the whole-cycle hap. */
  lemma SingleCycle(p: Pattern, n: int, rand: Oracle)
    requires !p.Fast?
    ensures Query(p, n as real, (n + 1) as real, rand) ==
      match CycleValue(p, n, rand)
      case Pat(q) => Query(q, n as real, (n + 1) as real, rand)
      case Lit(a) => [Hap(n as real, (n + 1) as real, a)]
  {
    assert Floor(n as real) == n;
    assert Ceil((n + 1) as real) == n + 1;
    assert Cycles(p, n, n + 1, rand) == CycleHaps(p, n, rand);
  }

  /** Every value of the list is a plain value. */
  predicate AllLiteral(values: seq<Value>) {
    forall i :: 0 <= i < |values| ==> values[i].Lit?
  }

  /** With plain values, the run of cycles lo .. hi - 1 yields exactly one
      whole-cycle hap per cycle, in increasing order of cycle. */
  lemma {:induction false} LiteralCycles(p: Pattern, lo: int, hi: int, rand: Oracle)
    requires !p.Fast? && AllLiteral(p.values) && lo <= hi
    ensures |Cycles(p, lo, hi, rand)| == hi - lo
    ensures forall k :: 0 <= k < hi - lo ==>
      Cycles(p, lo, hi, rand)[k] == Hap((lo + k) as real, (lo + k + 1) as real, CycleValue(p, lo + k, rand).atom)
    decreases hi - lo
  {
    if lo < hi {
      LiteralCycles(p, lo, hi - 1, rand);
      var n := hi - 1;
      var before := Cycles(p, lo, n, rand);
      var last := Hap(n as real, (n + 1) as real, CycleValue(p, n, rand).atom);
      LiteralCycleStep(p, lo, hi, rand);
      forall k | 0 <= k < hi - lo
        ensures (before + [last])[k] == Hap((lo + k) as real, (lo + k + 1) as real, CycleValue(p, lo + k, rand).atom)
      {
        if k < n - lo {
          assert (before + [last])[k] == before[k];
        }
      }
    }
  }

  /** One more literal cycle appends its whole-cycle hap. */
  lemma LiteralCycleStep(p: Pattern, lo: int, hi: int, rand: Oracle)
    requires !p.Fast? && AllLiteral(p.values) && lo < hi
    ensures Cycles(p, lo, hi, rand) ==
      Cycles(p, lo, hi - 1, rand) + [Hap((hi - 1) as real, hi as real, CycleValue(p, hi - 1, rand).atom)]
  {
    assert CycleHaps(p, hi - 1, rand) == [Hap((hi - 1) as real, hi as real, CycleValue(p, hi - 1, rand).atom)];
  }

  /** Haps from `cycle` are not clipped to the window: half a cycle of
      `cat(a)` answers with the whole cycle. */
  lemma NotClipped(a: Atom, rand: Oracle)
    ensures Query(Cat([Lit(a)]), 0.0, 0.5, rand) == [Hap(0.0, 1.0, a)]
  {
    assert Ceil(0.5) == 1;
    assert Cycles(Cat([Lit(a)]), 0, 1, rand) == CycleHaps(Cat([Lit(a)]), 0, rand);
  }

  /** Splitting a query window in two does not give the query of the whole
      window: each half of cycle 0 of `cat(a)` answers with the whole cycle. */
  lemma SplitWindowDuplicates(a: Atom, rand: Oracle)
    ensures Query(Cat([Lit(a)]), 0.0, 1.0, rand) == [Hap(0.0, 1.0, a)]
    ensures Query(Cat([Lit(a)]), 0.0, 0.5, rand) + Query(Cat([Lit(a)]), 0.5, 1.0, rand)
         == [Hap(0.0, 1.0, a), Hap(0.0, 1.0, a)]
  {
    NotClipped(a, rand);
    SingleCycle(Cat([Lit(a)]), 0, rand);
    assert Floor(0.5) == 0 && Ceil(1.0) == 1;
    assert Cycles(Cat([Lit(a)]), 0, 1, rand) == CycleHaps(Cat([Lit(a)]), 0, rand);
  }

  // ---------------------------------------------------------------------
  // Properties of fast and slow
  // ---------------------------------------------------------------------

  /** `fast(f, p)` queries p over [Dilate(from, f), Dilate(to, f)) and divides every span
      by f, keeping the number, the order and the values of the haps. */
  lemma FastQuery(f: real, p: Pattern, from: real, to: real, rand: Oracle)
    requires f != 0.0
    ensures var inner := Query(p, Dilate(from, f), Dilate(to, f), rand);
      var r := Query(Fast(f, p), from, to, rand);
      |r| == |inner| &&
      forall i :: 0 <= i < |r| ==>
        r[i].from == inner[i].from / f && r[i].to == inner[i].to / f && r[i].value == inner[i].value
  {
    assert Query(Fast(f, p), from, to, rand) == Rescale(Query(p, Dilate(from, f), Dilate(to, f), rand), f);
  }

  /** Dividing spans by f and then by g, where f * g = 1, gives back the spans. */
  lemma {:induction false} RescaleInverse(haps: seq<Hap>, f: real, g: real)
    requires f * g == 1.0
    ensures f != 0.0 && g != 0.0
    ensures Rescale(Rescale(haps, f), g) == haps
  {
    var r := Rescale(Rescale(haps, f), g);
    forall i | 0 <= i < |haps|
      ensures r[i] == haps[i]
    {
      Reciprocal(haps[i].from, f, g);
      Reciprocal(haps[i].to, f, g);
    }
  }

  lemma Reciprocal(x: real, f: real, g: real)
    requires f * g == 1.0
    ensures f != 0.0 && g != 0.0
    ensures Dilate(Dilate(x, f), g) == x && x / f / g == x
  {
    assert x * f * g == x * (f * g);
    assert x / f / g == x / (f * g);
  }

  /** For a positive f, `fast(f, slow(f, p))` answers every query as p does. */
  lemma FastSlowRoundTrip(f: real, p: Pattern, from: real, to: real, rand: Oracle)
    requires f > 0.0
    ensures Query(Fast(f, Slow(f, p)), from, to, rand) == Query(p, from, to, rand)
  {
    var g := 1.0 / f;
    assert f * g == 1.0;
    Reciprocal(from, f, g);
    Reciprocal(to, f, g);
    var haps := Query(p, from, to, rand);
    calc {
      Query(Fast(f, Fast(g, p)), from, to, rand);
      Rescale(Query(Fast(g, p), Dilate(from, f), Dilate(to, f), rand), f);
      Rescale(Rescale(Query(p, Dilate(Dilate(from, f), g), Dilate(Dilate(to, f), g), rand), g), f);
      { assert Dilate(Dilate(from, f), g) == from && Dilate(Dilate(to, f), g) == to; }
      Rescale(Rescale(haps, g), f);
      { RescaleInverse(haps, g, f); }
      haps;
    }
  }

  /** For a positive f, `slow(f, fast(f, p))` answers every query as p does. */
  lemma SlowFastRoundTrip(f: real, p: Pattern, from: real, to: real, rand: Oracle)
    requires f > 0.0
    ensures Query(Slow(f, Fast(f, p)), from, to, rand) == Query(p, from, to, rand)
  {
    var g := 1.0 / f;
    assert g * f == 1.0;
    Reciprocal(from, g, f);
    Reciprocal(to, g, f);
    var haps := Query(p, from, to, rand);
    calc {
      Query(Fast(g, Fast(f, p)), from, to, rand);
      Rescale(Query(Fast(f, p), Dilate(from, g), Dilate(to, g), rand), g);
      Rescale(Rescale(Query(p, Dilate(Dilate(from, g), f), Dilate(Dilate(to, g), f), rand), f), g);
      { assert Dilate(Dilate(from, g), f) == from && Dilate(Dilate(to, g), f) == to; }
      Rescale(Rescale(haps, f), g);
      { RescaleInverse(haps, f, g); }
      haps;
    }
  }

  // ---------------------------------------------------------------------
  // Properties of cat, seq and choose
  // ---------------------------------------------------------------------

  /** At a non-negative cycle n, `cat` reads values[n mod |values|]. */
  lemma CatAtCycle(values: seq<Value>, n: int, rand: Oracle)
    requires |values| > 0 && n >= 0
    ensures CycleValue(Cat(values), n, rand) == values[n % |values|]
  {
  }

  /** At a negative cycle the remainder is negative, so `cat` reads nothing
      unless the cycle is a multiple of the length (-0 reads index 0). */
  lemma CatAtNegativeCycle(values: seq<Value>, n: int, rand: Oracle)
    requires |values| > 0 && n < 0
    ensures (-n) % |values| == 0 ==> CycleValue(Cat(values), n, rand) == values[0]
    ensures (-n) % |values| != 0 ==> CycleValue(Cat(values), n, rand) == Lit(Undefined)
  {
  }

  /** `cat(a, b, c)` over [0, 6) yields a, b, c, a, b, c, one whole cycle each. */
  lemma CatRepeats(a: Atom, b: Atom, c: Atom, rand: Oracle)
    ensures Query(Cat([Lit(a), Lit(b), Lit(c)]), 0.0, 6.0, rand) ==
      [Hap(0.0, 1.0, a), Hap(1.0, 2.0, b), Hap(2.0, 3.0, c),
       Hap(3.0, 4.0, a), Hap(4.0, 5.0, b), Hap(5.0, 6.0, c)]
  {
    var p := Cat([Lit(a), Lit(b), Lit(c)]);
    assert Floor(0.0) == 0 && Ceil(6.0) == 6;
    RotationOfThree(a, b, c, rand);
    ThreeCycles(a, b, c, rand);
    LiteralCycleStep(p, 0, 4, rand);
    LiteralCycleStep(p, 0, 5, rand);
    LiteralCycleStep(p, 0, 6, rand);
    assert Cycles(p, 0, 6, rand) == Cycles(p, 0, 3, rand) +
      [Hap(3.0, 4.0, a), Hap(4.0, 5.0, b), Hap(5.0, 6.0, c)];
  }

  lemma RotationOfThree(a: Atom, b: Atom, c: Atom, rand: Oracle)
    ensures var p := Cat([Lit(a), Lit(b), Lit(c)]);
      && CycleValue(p, 0, rand) == CycleValue(p, 3, rand) == Lit(a)
      && CycleValue(p, 1, rand) == CycleValue(p, 4, rand) == Lit(b)
      && CycleValue(p, 2, rand) == CycleValue(p, 5, rand) == Lit(c)
  {
    var p := Cat([Lit(a), Lit(b), Lit(c)]);
    assert Index(p, 3, rand) == 0 && Index(p, 4, rand) == 1 && Index(p, 5, rand) == 2;
  }

  /** `seq(a, b, c)` over [0, 1) yields three haps of width 1/3, in order. */
  lemma SeqThree(a: Atom, b: Atom, c: Atom, rand: Oracle)
    ensures Query(Seq([Lit(a), Lit(b), Lit(c)]), 0.0, 1.0, rand) ==
      [Hap(0.0, 1.0 / 3.0, a), Hap(1.0 / 3.0, 2.0 / 3.0, b), Hap(2.0 / 3.0, 1.0, c)]
  {
    var p := Cat([Lit(a), Lit(b), Lit(c)]);
    assert Floor(Dilate(0.0, 3.0)) == 0 && Ceil(Dilate(1.0, 3.0)) == 3;
    ThreeCycles(a, b, c, rand);
    var whole := [Hap(0.0, 1.0, a), Hap(1.0, 2.0, b), Hap(2.0, 3.0, c)];
    assert Query(Seq([Lit(a), Lit(b), Lit(c)]), 0.0, 1.0, rand) == Rescale(whole, 3.0);
    assert Rescale(whole, 3.0) ==
      [Hap(0.0, 1.0 / 3.0, a), Hap(1.0 / 3.0, 2.0 / 3.0, b), Hap(2.0 / 3.0, 1.0, c)];
  }

  /** Cycles 0, 1 and 2 of `cat(a, b, c)`. */
  lemma ThreeCycles(a: Atom, b: Atom, c: Atom, rand: Oracle)
    ensures Cycles(Cat([Lit(a), Lit(b), Lit(c)]), 0, 3, rand)
         == [Hap(0.0, 1.0, a), Hap(1.0, 2.0, b), Hap(2.0, 3.0, c)]
  {
    var p := Cat([Lit(a), Lit(b), Lit(c)]);
    RotationOfThree(a, b, c, rand);
    assert Cycles(p, 0, 0, rand) == [];
    LiteralCycleStep(p, 0, 1, rand);
    LiteralCycleStep(p, 0, 2, rand);
    LiteralCycleStep(p, 0, 3, rand);
  }

  /** The plain value k of `seq(...values)` occupies exactly the k-th of
      the |values| equal slots of cycle 0. */
  lemma SeqSlot(values: seq<Value>, k: nat, rand: Oracle)
    requires k < |values| && values[k].Lit?
    ensures var len := |values| as real;
      Query(Seq(values), k as real / len, (k + 1) as real / len, rand)
        == [Hap(k as real / len, (k + 1) as real / len, values[k].atom)]
  {
    var len := |values| as real;
    assert Dilate(k as real / len, len) == k as real;
    assert Dilate((k + 1) as real / len, len) == (k + 1) as real;
    assert k % |values| == k;
    SingleCycle(Cat(values), k, rand);
  }

  /** A nested sequence subdivides the span of the hap it replaces:
      `seq(a, seq(b, c))` over [0, 1) yields a, b, c over halves and quarters. */
  lemma NestedSeq(a: Atom, b: Atom, c: Atom, rand: Oracle)
    ensures Query(Seq([Lit(a), Pat(Seq([Lit(b), Lit(c)]))]), 0.0, 1.0, rand) ==
      [Hap(0.0, 0.5, a), Hap(0.5, 0.75, b), Hap(0.75, 1.0, c)]
  {
    var outer := Cat([Lit(a), Pat(Seq([Lit(b), Lit(c)]))]);
    assert Floor(Dilate(0.0, 2.0)) == 0 && Ceil(Dilate(1.0, 2.0)) == 2;
    OuterOfNestedSeq(a, b, c, rand);
    assert Cycles(outer, 0, 2, rand) == [Hap(0.0, 1.0, a), Hap(1.0, 1.5, b), Hap(1.5, 2.0, c)];
    assert Rescale([Hap(0.0, 1.0, a), Hap(1.0, 1.5, b), Hap(1.5, 2.0, c)], 2.0)
        == [Hap(0.0, 0.5, a), Hap(0.5, 0.75, b), Hap(0.75, 1.0, c)];
  }

  /** Cycles 0 and 1 of `cat(a, seq(b, c))`: a, then the nested `seq`. */
  lemma OuterOfNestedSeq(a: Atom, b: Atom, c: Atom, rand: Oracle)
    ensures var outer := Cat([Lit(a), Pat(Seq([Lit(b), Lit(c)]))]);
      && Cycles(outer, 0, 1, rand) == [Hap(0.0, 1.0, a)]
      && Cycles(outer, 0, 2, rand) == Cycles(outer, 0, 1, rand) + [Hap(1.0, 1.5, b), Hap(1.5, 2.0, c)]
  {
    var outer := Cat([Lit(a), Pat(Seq([Lit(b), Lit(c)]))]);
    SecondCycleOfSeq(b, c, rand);
    assert Index(outer, 0, rand) == 0 && Index(outer, 1, rand) == 1;
    assert Cycles(outer, 0, 1, rand) == CycleHaps(outer, 0, rand);
    assert CycleHaps(outer, 1, rand) == Query(Seq([Lit(b), Lit(c)]), 1.0, 2.0, rand);
  }

  /** Cycle 1 of `seq(b, c)`: b then c, half a cycle each. */
  lemma SecondCycleOfSeq(b: Atom, c: Atom, rand: Oracle)
    ensures Query(Seq([Lit(b), Lit(c)]), 1.0, 2.0, rand) == [Hap(1.0, 1.5, b), Hap(1.5, 2.0, c)]
  {
    var inner := Cat([Lit(b), Lit(c)]);
    assert Floor(Dilate(1.0, 2.0)) == 2 && Ceil(Dilate(2.0, 2.0)) == 4;
    LiteralCycles(inner, 2, 4, rand);
  }

  /** `choose` reads an element of a non-empty list for every cycle. */
  lemma ChooseIndexInRange(values: seq<Value>, n: int, rand: Oracle)
    requires |values| > 0
    ensures 0 <= Index(Choose(values), n, rand) < |values|
  {
    var r, len := rand(Choose(values), n), |values| as real;
    var x := r * len;
    assert 0.0 <= x by {
      assert 0.0 <= r && 0.0 < len;
    }
    var rest := (1.0 - r) * len;
    assert 0.0 < rest by {
      PositiveProduct(1.0 - r, len);
    }
    assert x + rest == len by {
      assert x + rest == (r + (1.0 - r)) * len;
    }
    assert x.Floor as real <= x < x.Floor as real + 1.0;
  }

  /** Each `choose` draws for itself: in `choose(choose(a, b), choose(c, d))`
      the outer draw can pick the second inner pattern while that one
      draws its first value. */
  lemma NestedChooseDrawsApart(a: Atom, b: Atom, c: Atom, d: Atom, n: int, rand: Oracle)
    requires rand(Choose([Pat(Choose([Lit(a), Lit(b)])), Pat(Choose([Lit(c), Lit(d)]))]), n) >= 0.5
    requires rand(Choose([Lit(c), Lit(d)]), n) < 0.5
    ensures Query(Choose([Pat(Choose([Lit(a), Lit(b)])), Pat(Choose([Lit(c), Lit(d)]))]),
                  n as real, (n + 1) as real, rand) == [Hap(n as real, (n + 1) as real, c)]
  {
    var second := Choose([Lit(c), Lit(d)]);
    var outer := Choose([Pat(Choose([Lit(a), Lit(b)])), Pat(second)]);
    assert Index(outer, n, rand) == 1;
    assert Index(second, n, rand) == 0;
    SingleCycle(outer, n, rand);
    SingleCycle(second, n, rand);
  }

  lemma NonNegativeProduct(a: real, b: real)
    requires 0.0 <= a && 0.0 <= b
    ensures 0.0 <= a * b
  {
    if 0.0 < a && 0.0 < b {
      PositiveProduct(a, b);
    }
  }

  lemma PositiveProduct(a: real, b: real)
    requires 0.0 < a && 0.0 < b
    ensures 0.0 < a * b
  {
  }

  /** `choose` over plain values yields, for each cycle, one hap spanning the
      whole cycle whose value is drawn from the list. */
  lemma ChooseCycle(values: seq<Value>, n: int, rand: Oracle)
    requires |values| > 0 && AllLiteral(values)
    ensures var r := Query(Choose(values), n as real, (n + 1) as real, rand);
      |r| == 1 && r[0].from == n as real && r[0].to == (n + 1) as real &&
      exists i :: 0 <= i < |values| && values[i] == Lit(r[0].value)
  {
    ChooseIndexInRange(values, n, rand);
    SingleCycle(Choose(values), n, rand);
  }

  // ---------------------------------------------------------------------
  // Well-formed spans and the bound methods
  // ---------------------------------------------------------------------

  /** Every `fast` factor in the pattern, nested ones included, is positive. */
  predicate PositiveFactors(p: Pattern) decreases p {
    match p
    case Fast(f, q) => f > 0.0 && PositiveFactors(q)
    case Cat(vs) => forall i :: 0 <= i < |vs| ==> vs[i].Pat? ==> PositiveFactors(vs[i].pattern)
    case Choose(vs) => forall i :: 0 <= i < |vs| ==> vs[i].Pat? ==> PositiveFactors(vs[i].pattern)
  }

  predicate Proper(haps: seq<Hap>) {
    forall i :: 0 <= i < |haps| ==> haps[i].from < haps[i].to
  }

  /** Dividing by a positive factor keeps every span non-empty. */
  lemma DivideMonotone(haps: seq<Hap>, f: real)
    ensures f > 0.0 && Proper(haps) ==>
      forall i :: 0 <= i < |haps| ==> haps[i].from / f < haps[i].to / f
  {
    if f > 0.0 && Proper(haps) {
      forall i | 0 <= i < |haps|
        ensures haps[i].from / f < haps[i].to / f
      {
        var x, y := haps[i].from, haps[i].to;
        assert y / f - x / f == (y - x) / f;
      }
    }
  }

  /** The pattern a method is called on is the last value of the rotation:
      at cycle |args|, `p.cat(...args)` answers as p itself. */
  lemma CatWithSelfLast(p: Pattern, args: seq<Value>, rand: Oracle)
    ensures Query(p.CatWith(args), |args| as real, (|args| + 1) as real, rand)
         == Query(p, |args| as real, (|args| + 1) as real, rand)
  {
    var vs, m := args + [Pat(p)], |args|;
    LastIndex(m);
    assert Index(Cat(vs), m, rand) == m;
    assert CycleValue(Cat(vs), m, rand) == Pat(p);
    SingleCycle(Cat(vs), m, rand);
  }

  lemma LastIndex(m: nat)
    ensures m % (m + 1) == m
  {
  }

  /** `p.seq(...args)` squeezes p into the last 1 / (|args| + 1) of cycle 0:
      there it answers with p's cycle |args|, compressed by |args| + 1. */
  lemma SeqWithSelfLast(p: Pattern, args: seq<Value>, rand: Oracle)
    ensures var len := (|args| + 1) as real;
      Query(p.SeqWith(args), |args| as real / len, 1.0, rand)
        == Rescale(Query(p, |args| as real, len, rand), len)
  {
    var len := (|args| + 1) as real;
    var vs := args + [Pat(p)];
    assert Dilate(|args| as real / len, len) == |args| as real;
    assert Dilate(1.0, len) == len;
    CatWithSelfLast(p, args, rand);
  }

  /** `p.choose(...args)` answers a cycle as p itself when the draw for that
      cycle falls in the last 1 / (|args| + 1) of [0, 1). */
  lemma ChooseWithSelf(p: Pattern, args: seq<Value>, n: int, rand: Oracle)
    requires rand(p.ChooseWith(args), n) >= |args| as real / (|args| + 1) as real
    ensures Query(p.ChooseWith(args), n as real, (n + 1) as real, rand)
         == Query(p, n as real, (n + 1) as real, rand)
  {
    var c, m := p.ChooseWith(args), |args|;
    LastSlotDraw(rand(c, n), m);
    assert Index(c, n, rand) == m;
    SingleCycle(c, n, rand);
  }

  /** A draw in [m / (m + 1), 1) picks index m of a list of m + 1 values. */
  lemma LastSlotDraw(r: real, m: nat)
    requires m as real / (m + 1) as real <= r < 1.0
    ensures (r * (m + 1) as real).Floor == m
  {
    var len := (m + 1) as real;
    var lower := m as real / len;
    assert m as real == lower * len;
    assert lower * len <= r * len by {
      if lower < r {
        PositiveProduct(r - lower, len);
        assert (r - lower) * len == r * len - lower * len;
      }
    }
    assert r * len < len by {
      PositiveProduct(1.0 - r, len);
      assert (1.0 - r) * len == len - r * len;
    }
  }
}
