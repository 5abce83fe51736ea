/**
 * The Stream of src/core/Stream.ts: a musical layer holding one pattern per
 * parameter, with a trigger pattern `e`.  `set` writes fields in place,
 * `query` reads a snapshot of every parameter at each trigger, and `__reset`
 * deletes every field but the reserved ones.
 */
module CoreStream {
  import opened Patterns
  import opened StreamTable

  /** The keys `set` never writes and `__reset` never deletes. */
  const Reserved: set<string> := {"id", "set", "query", "__reset"}

  predicate Contains(h: Hap, t: real) {
    h.from <= t < h.to
  }

  /** The index of the first hap whose span contains t (`find`). */
  function FindContaining(haps: seq<Hap>, t: real): (r: Option<nat>)
    ensures r.Some? ==> r.value < |haps| && Contains(haps[r.value], t)
    ensures r.Some? ==> forall j :: 0 <= j < r.value ==> !Contains(haps[j], t)
    ensures r.None? ==> forall j :: 0 <= j < |haps| ==> !Contains(haps[j], t)
  {
    if haps == [] then None
    else if Contains(haps[0], t) then Some(0)
    else match FindContaining(haps[1..], t)
      case None => None
      case Some(i) => Some(i + 1)
  }

  /** The value of a parameter at trigger time t: that of the first hap that
      contains t, undefined when no hap does. */
  function ValueAt(haps: seq<Hap>, t: real): (a: Atom)
    ensures (exists j :: 0 <= j < |haps| && Contains(haps[j], t)) ==>
      exists j :: 0 <= j < |haps| && Contains(haps[j], t) && a == haps[j].value &&
        forall i :: 0 <= i < j ==> !Contains(haps[i], t)
    ensures (forall j :: 0 <= j < |haps| ==> !Contains(haps[j], t)) ==> a == Undefined
  {
    match FindContaining(haps, t)
    case Some(j) => haps[j].value
    case None => Undefined
  }

  /** The parameters of the record built for one trigger hap: every field
      holding a pattern, queried over the trigger's span. */
  function Snapshot(fields: map<string, Slot>, trigger: Hap, rand: Oracle): (params: map<string, Atom>)
    ensures params.Keys == PatternKeys(fields)
    ensures forall k :: k in params ==>
      params[k] == ValueAt(Patterns.Query(fields[k].pattern, trigger.from, trigger.to, rand), trigger.from)
  {
    map k | k in PatternKeys(fields) ::
      ValueAt(Patterns.Query(fields[k].pattern, trigger.from, trigger.to, rand), trigger.from)
  }

  class Stream {
    /** The own fields of the stream object, `id` included. */
    var fields: map<string, Slot>

    /** `id` is the only field that is not a pattern; no other reserved key
        is ever a field. */
    ghost predicate Valid()
      reads this
    {
      && "id" in fields && fields["id"].Other?
      && forall k :: k in fields && k != "id" ==> k !in Reserved && fields[k].PatternSlot?
    }

    constructor (id: string)
      ensures Valid()
      ensures fields == map["id" := Other(Str(id))]
    {
      fields := map["id" := Other(Str(id))];
    }

    /** Assigns every non-reserved key of params; `id` survives. */
    method Set(params: map<string, Value>, wrap: Atom -> Pattern)
      requires Valid()
      modifies this
      ensures Valid()
      ensures fields == Assign(old(fields), params, Reserved, wrap)
      ensures fields["id"] == old(fields)["id"]
    {
      var todo := params.Keys;
      while todo != {}
        invariant Valid()
        invariant todo <= params.Keys
        invariant fields == Assign(old(fields), params - todo, Reserved, wrap)
        decreases todo
      {
        var key :| key in todo;
        assert params - (todo - {key}) == (params - todo)[key := params[key]];
        AssignExtend(old(fields), params - todo, key, params[key], Reserved, wrap);
        if key !in Reserved {
          fields := fields[key := Stored(params[key], wrap)];
        }
        todo := todo - {key};
      }
      assert params - todo == params;
    }

    /** One record per truthy hap of `e`, in order, timed at the hap's start,
        holding the value of every pattern field at that time.  Nothing when
        there is no `e`. */
    function Query(from: real, to: real, rand: Oracle): (events: seq<Event>)
      reads this
      requires Valid()
      ensures "e" !in fields ==> events == []
      ensures "e" in fields ==>
        var triggers := Triggers(Patterns.Query(fields["e"].pattern, from, to, rand));
        && |events| == |triggers|
        && forall i :: 0 <= i < |events| ==>
             events[i].time == triggers[i].from &&
             events[i].params == Snapshot(fields, triggers[i], rand)
      ensures forall i :: 0 <= i < |events| ==>
        "e" in events[i].params && "id" !in events[i].params
    {
      if "e" !in fields then []
      else
        var table := fields;
        var triggers := Triggers(Patterns.Query(table["e"].pattern, from, to, rand));
        seq(|triggers|, i requires 0 <= i < |triggers| =>
          Event(triggers[i].from, Snapshot(table, triggers[i], rand)))
    }

    /** Deletes every field except the reserved ones, so only `id` remains. */
    method Reset()
      requires Valid()
      modifies this
      ensures Valid()
      ensures fields == map["id" := old(fields)["id"]]
    {
      var todo := fields.Keys;
      while todo != {}
        invariant Valid()
        invariant todo <= old(fields).Keys
        invariant fields == map k | k in old(fields) && (k in todo || k in Reserved) :: old(fields)[k]
        decreases todo
      {
        var key :| key in todo;
        if key !in Reserved {
          fields := fields - {key};
        }
        todo := todo - {key};
      }
    }
  }

  /** The trigger haps of `seq(1, 0, 1)` over [0, 1): the first and the last. */
  lemma OneZeroOneTriggers(rand: Oracle)
    ensures Triggers(Patterns.Query(Seq([Lit(Num(1.0)), Lit(Num(0.0)), Lit(Num(1.0))]), 0.0, 1.0, rand))
         == [Hap(0.0, 1.0 / 3.0, Num(1.0)), Hap(2.0 / 3.0, 1.0, Num(1.0))]
  {
    SeqThree(Num(1.0), Num(0.0), Num(1.0), rand);
    DropMiddle(Hap(0.0, 1.0 / 3.0, Num(1.0)), Hap(1.0 / 3.0, 2.0 / 3.0, Num(0.0)), Hap(2.0 / 3.0, 1.0, Num(1.0)));
  }

  lemma DropMiddle(h0: Hap, h1: Hap, h2: Hap)
    requires Truthy(h0.value) && !Truthy(h1.value) && Truthy(h2.value)
    ensures Triggers([h0, h1, h2]) == [h0, h2]
  {
    assert [h0, h1, h2][1..] == [h1, h2];
    assert [h1, h2][1..] == [h2];
    assert [h2][1..] == [];
  }

  /** `set({e: seq(1, 0, 1)})` followed by `query(0, 1)` gives two records,
      at 0 and 2/3: the middle hap has the falsy value 0. */
  lemma OneZeroOne(s: Stream, name: string, rand: Oracle)
    requires s.fields == map["id" := Other(Str(name)), "e" := PatternSlot(Seq([Lit(Num(1.0)), Lit(Num(0.0)), Lit(Num(1.0))]))]
    ensures s.Valid()
    ensures var events := s.Query(0.0, 1.0, rand);
      |events| == 2 && events[0].time == 0.0 && events[1].time == 2.0 / 3.0
  {
    var e := Seq([Lit(Num(1.0)), Lit(Num(0.0)), Lit(Num(1.0))]);
    assert "e" != "id";
    assert s.fields.Keys == {"id", "e"};
    assert s.Valid();
    assert s.fields["e"] == PatternSlot(e);
    OneZeroOneTriggers(rand);
    var events := s.Query(0.0, 1.0, rand);
    assert |events| == 2;
  }

  /** The same demo from the state `set` leaves: a new stream given
      `set({e: seq(1, 0, 1)})` answers `query(0, 1)` with records at 0 and 2/3. */
  lemma OneZeroOneAfterSet(s: Stream, name: string, wrap: Atom -> Pattern, rand: Oracle)
    requires s.fields == Assign(map["id" := Other(Str(name))],
      map["e" := Pat(Seq([Lit(Num(1.0)), Lit(Num(0.0)), Lit(Num(1.0))]))], Reserved, wrap)
    ensures s.Valid()
    ensures var events := s.Query(0.0, 1.0, rand);
      |events| == 2 && events[0].time == 0.0 && events[1].time == 2.0 / 3.0
  {
    var e := Seq([Lit(Num(1.0)), Lit(Num(0.0)), Lit(Num(1.0))]);
    assert "e" !in Reserved && "e" != "id";
    var want := map["id" := Other(Str(name)), "e" := PatternSlot(e)];
    assert s.fields.Keys == want.Keys;
    assert s.fields == want;
    OneZeroOne(s, name, rand);
  }

  /** `set` ignores the reserved keys: whatever params holds, they keep their
      value, and `__reset` is never added. */
  lemma SetSkipsReserved(fields: map<string, Slot>, params: map<string, Value>, wrap: Atom -> Pattern)
    requires "__reset" !in fields
    ensures "__reset" !in Assign(fields, params, Reserved, wrap)
    ensures "id" in fields ==> Assign(fields, params, Reserved, wrap)["id"] == fields["id"]
  {
  }
}
