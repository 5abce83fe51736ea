/**
 * `memoize` of src/core/utils.ts: a cache from a string key, built from the
 * arguments, to the wrapped function's result.  The cache is updated in
 * place on every miss and never loses or overwrites an entry.
 */
module Memo {

  /** An argument, as far as its key is concerned. */
  datatype Arg = Undefined | Int(i: int) | Text(s: string)

  function DigitChar(d: nat): char
    requires d < 10
  {
    ('0' as int + d) as char
  }

  /** Decimal digits of a natural number. */
  function NatString(n: nat): (r: string)
    ensures |r| > 0 && forall i :: 0 <= i < |r| ==> '0' <= r[i] <= '9'
    decreases n
  {
    if n < 10 then [DigitChar(n)] else NatString(n / 10) + [DigitChar(n % 10)]
  }

  function IntString(i: int): string {
    if i < 0 then "-" + NatString(-i) else NatString(i)
  }

  /** `JSON.stringify(a)` as `join` renders it: `undefined` renders as no
      text at all. */
  function Serialize(a: Arg): (r: string)
    ensures r == "" <==> a.Undefined?
    ensures a.Int? ==> (r[0] == '-' <==> a.i < 0)
    ensures a.Int? && a.i >= 0 ==> r == NatString(a.i)
    ensures a.Int? && a.i < 0 ==> r == "-" + NatString(-a.i)
    ensures a.Text? ==> |r| == |a.s| + 2 && r[0] == '"' && r[1..|r| - 1] == a.s && r[|r| - 1] == '"'
  {
    match a
    case Undefined => ""
    case Int(i) => IntString(i)
    case Text(s) => "\"" + s + "\""
  }

  /** `parts.join(sep)`. */
  function Join(parts: seq<string>, sep: string): string {
    if |parts| == 0 then ""
    else if |parts| == 1 then parts[0]
    else parts[0] + sep + Join(parts[1..], sep)
  }

  /** The cache key: the serialised arguments joined with `-`. */
  function Key(args: seq<Arg>): (r: string)
    ensures args == [] ==> r == ""
    ensures |args| == 1 ==> r == Serialize(args[0])
    ensures |args| > 1 ==> r == Serialize(args[0]) + "-" + Key(args[1..])
  {
    var parts := seq(|args|, i requires 0 <= i < |args| => Serialize(args[i]));
    if |args| > 1 then
      assert parts[1..] == seq(|args| - 1, i requires 0 <= i < |args| - 1 => Serialize(args[1..][i]));
      Join(parts, "-")
    else
      Join(parts, "-")
  }

  /** Two different argument lists share a key: `undefined` then 1, and -1. */
  lemma KeyCollision()
    ensures Key([Undefined, Int(1)]) == "-1"
    ensures Key([Int(-1)]) == "-1"
  {
    assert Serialize(Int(1)) == "1";
    assert Serialize(Int(-1)) == "-1";
    assert seq(2, i requires 0 <= i < 2 => Serialize([Undefined, Int(1)][i])) == ["", "1"];
    assert seq(1, i requires 0 <= i < 1 => Serialize([Int(-1)][i])) == ["-1"];
    assert Join(["", "1"], "-") == "" + "-" + Join(["1"], "-");
  }

  /** The memoised function as written: keyed by the string key. */
  class Memoized<R> {
    const fn: seq<Arg> -> R
    var cache: map<string, R>
    /** The arguments of the call that filled each entry. */
    ghost var origin: map<string, seq<Arg>>
    /** How many times `fn` has run. */
    ghost var calls: nat

    /** Each entry holds `fn` of the arguments that filled it, under their key. */
    ghost predicate Valid()
      reads this
    {
      && origin.Keys == cache.Keys
      && forall k :: k in cache ==> Key(origin[k]) == k && cache[k] == fn(origin[k])
    }

    constructor (f: seq<Arg> -> R)
      ensures Valid()
      ensures fn == f && cache == map[] && calls == 0
    {
      fn := f;
      cache := map[];
      origin := map[];
      calls := 0;
    }

    /** A hit returns the stored value and runs nothing; a miss runs `fn`
        once and stores its result.  Entries are only ever added. */
    method Call(args: seq<Arg>) returns (r: R)
      requires Valid()
      modifies this
      ensures Valid()
      ensures Key(args) in old(cache) ==>
        r == old(cache)[Key(args)] && cache == old(cache) && calls == old(calls)
      ensures Key(args) !in old(cache) ==>
        r == fn(args) && cache == old(cache)[Key(args) := r] && calls == old(calls) + 1
      ensures Key(args) in cache && cache[Key(args)] == r
      ensures old(cache).Keys <= cache.Keys
      ensures forall k :: k in old(cache) ==> cache[k] == old(cache)[k]
      ensures r == fn(origin[Key(args)])
      ensures Key(args) !in old(cache) || old(origin)[Key(args)] == args ==> r == fn(args)
    {
      var n := Key(args);
      if n in cache {
        r := cache[n];
      } else {
        r := fn(args);
        cache := cache[n := r];
        origin := origin[n := args];
        calls := calls + 1;
      }
    }
  }

  /** The memoised argument count called with `undefined, 1` and then with
      -1 answers 2 both times, although the second call has one argument. */
  method CollisionDemo() returns (first: int, second: int)
    ensures first == 2 && second == 2
  {
    var m := new Memoized((args: seq<Arg>) => |args|);
    first := m.Call([Undefined, Int(1)]);
    KeyCollision();
    second := m.Call([Int(-1)]);
  }

  /** A cache keyed by the argument list itself. */
  class ExactMemo<R> {
    const fn: seq<Arg> -> R
    var cache: map<seq<Arg>, R>
    ghost var calls: nat

    ghost predicate Valid()
      reads this
    {
      forall a :: a in cache ==> cache[a] == fn(a)
    }

    constructor (f: seq<Arg> -> R)
      ensures Valid()
      ensures fn == f && cache == map[] && calls == 0
    {
      fn := f;
      cache := map[];
      calls := 0;
    }

    /** Always `fn(args)`; `fn` runs only on the first call with these
        arguments. */
    method Call(args: seq<Arg>) returns (r: R)
      requires Valid()
      modifies this
      ensures Valid()
      ensures r == fn(args)
      ensures args in old(cache) ==> cache == old(cache) && calls == old(calls)
      ensures args !in old(cache) ==> cache == old(cache)[args := r] && calls == old(calls) + 1
      ensures old(cache).Keys <= cache.Keys
    {
      if args in cache {
        r := cache[args];
      } else {
        r := fn(args);
        cache := cache[args := r];
        calls := calls + 1;
      }
    }
  }

  /** The same two calls on the cache keyed by the argument list answer
      2 and 1. */
  method ExactDemo() returns (first: int, second: int)
    ensures first == 2 && second == 1
  {
    var m := new ExactMemo((args: seq<Arg>) => |args|);
    first := m.Call([Undefined, Int(1)]);
    second := m.Call([Int(-1)]);
  }
}
