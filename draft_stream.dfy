/**
 * The earlier Stream of src/classes/Stream/Stream.ts.  It reserves fewer
 * keys than the core Stream and reads each parameter from the first hap of
 * its query over the trigger's span, whether or not that hap contains the
 * trigger time.  It has no reset.
 */
module DraftStream {
  import opened Patterns
  import opened StreamTable
  import CoreStream

  /** The keys `set` skips: `__reset` is not among them. */
  const Reserved: set<string> := {"id", "set", "query"}

  /** The value of the first hap, undefined when there is none (`[0]?.value`). */
  function FirstValue(haps: seq<Hap>): (a: Atom)
    ensures |haps| > 0 ==> a == haps[0].value
    ensures |haps| == 0 ==> a == Undefined
  {
    if haps == [] then Undefined else haps[0].value
  }

  /** The parameters of the record built for one trigger hap. */
  function Snapshot(fields: map<string, Slot>, trigger: Hap, rand: Oracle): (params: map<string, Atom>)
    ensures params.Keys == PatternKeys(fields)
    ensures forall k :: k in params ==>
      params[k] == FirstValue(Patterns.Query(fields[k].pattern, trigger.from, trigger.to, rand))
  {
    map k | k in PatternKeys(fields) :: FirstValue(Patterns.Query(fields[k].pattern, trigger.from, trigger.to, rand))
  }

  class Stream {
    /** The own fields of the stream object, `id` included. */
    var fields: map<string, Slot>

    ghost predicate Valid()
      reads this
    {
      && "id" in fields && fields["id"].Other?
      && forall k :: k in fields && k != "id" ==> k !in Reserved && fields[k].PatternSlot?
    }

    constructor (id: string)
      ensures Valid()
      ensures fields == map["id" := Other(Str(id))]
    {
      fields := map["id" := Other(Str(id))];
    }

    /** Assigns every key of params except `id`, `set` and `query`. */
    method Set(params: map<string, Value>, wrap: Atom -> Pattern)
      requires Valid()
      modifies this
      ensures Valid()
      ensures fields == Assign(old(fields), params, Reserved, wrap)
      ensures fields["id"] == old(fields)["id"]
    {
      var todo := params.Keys;
      while todo != {}
        invariant Valid()
        invariant todo <= params.Keys
        invariant fields == Assign(old(fields), params - todo, Reserved, wrap)
        decreases todo
      {
        var key :| key in todo;
        assert params - (todo - {key}) == (params - todo)[key := params[key]];
        AssignExtend(old(fields), params - todo, key, params[key], Reserved, wrap);
        if key !in Reserved {
          fields := fields[key := Stored(params[key], wrap)];
        }
        todo := todo - {key};
      }
      assert params - todo == params;
    }

    /** One record per truthy hap of `e`, in order, timed at the hap's start;
        every pattern field contributes the first hap of its query over the
        trigger's span.  Nothing when there is no `e`. */
    function Query(from: real, to: real, rand: Oracle): (events: seq<Event>)
      reads this
      requires Valid()
      ensures "e" !in fields ==> events == []
      ensures "e" in fields ==>
        var triggers := Triggers(Patterns.Query(fields["e"].pattern, from, to, rand));
        && |events| == |triggers|
        && forall i :: 0 <= i < |events| ==>
             events[i].time == triggers[i].from &&
             events[i].params == Snapshot(fields, triggers[i], rand)
      ensures forall i :: 0 <= i < |events| ==>
        "e" in events[i].params && "id" !in events[i].params
    {
      if "e" !in fields then []
      else
        var table := fields;
        var triggers := Triggers(Patterns.Query(table["e"].pattern, from, to, rand));
        seq(|triggers|, i requires 0 <= i < |triggers| =>
          Event(triggers[i].from, Snapshot(table, triggers[i], rand)))
    }
  }

  /** Unlike the core Stream, this `set` stores a field named `__reset`. */
  lemma StoresResetKey(fields: map<string, Slot>, v: Value, wrap: Atom -> Pattern)
    ensures var r := Assign(fields, map["__reset" := v], Reserved, wrap);
      "__reset" in r && r["__reset"] == Stored(v, wrap)
    ensures Assign(fields, map["__reset" := v], CoreStream.Reserved, wrap) == fields
  {
    var r := Assign(fields, map["__reset" := v], CoreStream.Reserved, wrap);
    assert r.Keys == fields.Keys;
  }

  /** The draft reads the first hap even when it does not contain the trigger
      time, where the core Stream reads the hap that does: a parameter
      `cat(seq(a, b))` read by a trigger at 0.6 gives a here and b there. */
  lemma FirstHapWithoutContainment(a: Atom, b: Atom, rand: Oracle)
    ensures var haps := Patterns.Query(Cat([Pat(Seq([Lit(a), Lit(b)]))]), 0.6, 0.7, rand);
      FirstValue(haps) == a && CoreStream.ValueAt(haps, 0.6) == b
  {
    OuterCycle(a, b, rand);
    HalvesOfSeq(a, b, rand);
    var haps := Patterns.Query(Cat([Pat(Seq([Lit(a), Lit(b)]))]), 0.6, 0.7, rand);
    assert !CoreStream.Contains(haps[0], 0.6) && CoreStream.Contains(haps[1], 0.6);
  }

  /** The window [0.6, 0.7) of the outer `cat` is answered by the whole of
      cycle 0, that is the nested `seq` queried over [0, 1). */
  lemma OuterCycle(a: Atom, b: Atom, rand: Oracle)
    ensures Patterns.Query(Cat([Pat(Seq([Lit(a), Lit(b)]))]), 0.6, 0.7, rand)
         == Patterns.Query(Seq([Lit(a), Lit(b)]), 0.0, 1.0, rand)
  {
    var p := Cat([Pat(Seq([Lit(a), Lit(b)]))]);
    assert Floor(0.6) == 0 && Ceil(0.7) == 1;
    assert Cycles(p, 0, 1, rand) == CycleHaps(p, 0, rand);
    assert Index(p, 0, rand) == 0;
  }

  /** `seq(a, b)` over [0, 1): a then b, half a cycle each. */
  lemma HalvesOfSeq(a: Atom, b: Atom, rand: Oracle)
    ensures Patterns.Query(Seq([Lit(a), Lit(b)]), 0.0, 1.0, rand) == [Hap(0.0, 0.5, a), Hap(0.5, 1.0, b)]
  {
    var inner := Cat([Lit(a), Lit(b)]);
    assert Floor(Dilate(0.0, 2.0)) == 0 && Ceil(Dilate(1.0, 2.0)) == 2;
    LiteralCycles(inner, 0, 2, rand);
    assert Patterns.Query(Seq([Lit(a), Lit(b)]), 0.0, 1.0, rand) == Rescale(Cycles(inner, 0, 2, rand), 2.0);
  }
}
