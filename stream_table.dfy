/**
 * What both versions of the Stream share: the parameter table of a stream
 * (key to slot), the conversion a value undergoes when it is set, and the
 * trigger filter that keeps the haps of `e` with a truthy value.
 */
module StreamTable {
  import opened Patterns

  /** A field of a stream: a pattern, or another value (the stream's id). */
  datatype Slot = PatternSlot(pattern: Pattern) | Other(atom: Atom)

  /** One record of a stream query: the trigger time and the parameter snapshot. */
  datatype Event = Event(time: real, params: map<string, Atom>)

  /** Conversion on write: a pattern is stored by reference, any other value
      goes through the wrapping function (`methods.set` in the source). */
  function Stored(v: Value, wrap: Atom -> Pattern): (s: Slot)
    ensures s.PatternSlot?
    ensures v.Pat? ==> s.pattern == v.pattern
    ensures v.Lit? ==> s.pattern == wrap(v.atom)
  {
    match v
    case Pat(p) => PatternSlot(p)
    case Lit(a) => PatternSlot(wrap(a))
  }

  /** The table after `set(params)`: every key of params outside `reserved`
      is (re)assigned, every other field is kept. */
  function Assign(fields: map<string, Slot>, params: map<string, Value>, reserved: set<string>,
                  wrap: Atom -> Pattern): (r: map<string, Slot>)
    ensures r.Keys == fields.Keys + (params.Keys - reserved)
    ensures forall k :: k in reserved && k in fields ==> r[k] == fields[k]
    ensures forall k :: k in fields && k !in params ==> r[k] == fields[k]
    ensures forall k :: k in params && k !in reserved ==> r[k] == Stored(params[k], wrap)
  {
    map k | k in fields.Keys + (params.Keys - reserved) ::
      if k in params && k !in reserved then Stored(params[k], wrap) else fields[k]
  }

  /** Assigning one more parameter: a reserved key changes nothing, any
      other key is stored on top of the earlier assignment. */
  lemma AssignExtend(fields: map<string, Slot>, params: map<string, Value>, key: string, v: Value,
                     reserved: set<string>, wrap: Atom -> Pattern)
    ensures key in reserved ==>
      Assign(fields, params[key := v], reserved, wrap) == Assign(fields, params, reserved, wrap)
    ensures key !in reserved ==>
      Assign(fields, params[key := v], reserved, wrap) == Assign(fields, params, reserved, wrap)[key := Stored(v, wrap)]
  {
    if key in reserved {
      AssignReserved(fields, params, key, v, reserved, wrap);
    } else {
      AssignFree(fields, params, key, v, reserved, wrap);
    }
  }

  lemma AssignReserved(fields: map<string, Slot>, params: map<string, Value>, key: string, v: Value,
                       reserved: set<string>, wrap: Atom -> Pattern)
    requires key in reserved
    ensures Assign(fields, params[key := v], reserved, wrap) == Assign(fields, params, reserved, wrap)
  {
    var before := Assign(fields, params, reserved, wrap);
    var after := Assign(fields, params[key := v], reserved, wrap);
    assert after.Keys == before.Keys;
    forall k | k in after ensures after[k] == before[k] {
    }
  }

  lemma AssignFree(fields: map<string, Slot>, params: map<string, Value>, key: string, v: Value,
                   reserved: set<string>, wrap: Atom -> Pattern)
    requires key !in reserved
    ensures Assign(fields, params[key := v], reserved, wrap) == Assign(fields, params, reserved, wrap)[key := Stored(v, wrap)]
  {
    var before := Assign(fields, params, reserved, wrap)[key := Stored(v, wrap)];
    var after := Assign(fields, params[key := v], reserved, wrap);
    assert after.Keys == before.Keys;
    forall k | k in after ensures after[k] == before[k] {
    }
  }

  /** The keys of the fields that hold a pattern. */
  function PatternKeys(fields: map<string, Slot>): set<string> {
    set k | k in fields && fields[k].PatternSlot?
  }

  /** The haps of the trigger pattern that have a truthy value, in order. */
  function Triggers(haps: seq<Hap>): (r: seq<Hap>)
    ensures |r| <= |haps|
    ensures forall h :: h in r <==> h in haps && Truthy(h.value)
  {
    if haps == [] then []
    else (if Truthy(haps[0].value) then [haps[0]] else []) + Triggers(haps[1..])
  }

  /** Filtering keeps the order: the triggers of two runs of haps are the
      triggers of the first followed by those of the second. */
  lemma {:induction false} TriggersAppend(a: seq<Hap>, b: seq<Hap>)
    ensures Triggers(a + b) == Triggers(a) + Triggers(b)
  {
    if a == [] {
      assert a + b == b;
    } else {
      assert (a + b)[0] == a[0];
      assert (a + b)[1..] == a[1..] + b;
      TriggersAppend(a[1..], b);
    }
  }
}
