/**
 Deciding whether a policy already in the cluster says what the controller wants it to say.

 `SpecMatchesDesired` strips what the server added and what it dropped, then compares; `Matches`
 is the relation it decides. The trees are fresh from a JSON round trip, so no two of them share
 a part, and stripping a map is modelled as handing the stripped map back.
 */
module SpecMatch {
  import opened Wrappers

  /** A JSON value after a round trip. Numbers keep only their identity. */
  datatype Json =
    | Null
    | Bool(b: bool)
    | Num(n: int)
    | Str(s: string)
    | Arr(items: seq<Json>)
    | Obj(fields: map<string, Json>)

  type Fields = map<string, Json>

  // ---------------------------------------------------------------- the relation

  /** `d` is a collection with nothing in it but collections with nothing in them, slices being empty outright. */
  predicate Collapses(d: Json) {
    match d
    case Obj(fields) => forall k | k in fields :: Collapses(fields[k])
    case Arr(items) => items == []
    case _ => false
  }

  /** How values inside slices compare: extra keys in `c` are fine, missing ones never are. */
  predicate Within(d: Json, c: Json) {
    if d.Obj? && c.Obj? then
      forall k | k in d.fields :: k in c.fields && Within(d.fields[k], c.fields[k])
    else if d.Arr? && c.Arr? then
      |d.items| == |c.items| && forall i | 0 <= i < |d.items| :: Within(d.items[i], c.items[i])
    else d == c
  }

  /** Through maps, a wanted key is there and matches, or is absent and wanted nothing. */
  predicate Matches(d: Json, c: Json) {
    if d.Obj? && c.Obj? then
      forall k | k in d.fields ::
        if k in c.fields then Matches(d.fields[k], c.fields[k]) else Collapses(d.fields[k])
    else Within(d, c)
  }

  // ---------------------------------------------------------------- stripping, as values

  predicate IsEmptyCollection(v: Json) {
    (v.Obj? && v.fields == map[]) || (v.Arr? && v.items == [])
  }

  /** `c` without the map keys `d` does not mention, all the way down. */
  function StripExtra(c: Json, d: Json): Json {
    if c.Obj? && d.Obj? then
      Obj(map k | k in c.fields && k in d.fields :: StripExtra(c.fields[k], d.fields[k]))
    else if c.Arr? && d.Arr? then
      Arr(seq(|c.items|, i requires 0 <= i < |c.items| =>
        if i < |d.items| then StripExtra(c.items[i], d.items[i]) else c.items[i]))
    else c
  }

  function MapAt(c: Fields, k: string): Fields {
    if k in c && c[k].Obj? then c[k].fields else map[]
  }

  /** One wanted value, its own map keys stripped first. */
  function StripEmptyValue(v: Json, c: Fields): Json
    decreases v, 1
  {
    if v.Obj? then StripEmpty(v, c) else v
  }

  /** `d` without the keys `c` lacks whose values come down to an empty collection. */
  function StripEmpty(d: Json, c: Fields): (r: Json)
    requires d.Obj?
    ensures r.Obj?
    decreases d, 0
  {
    Obj(map k | k in d.fields && (k in c || !IsEmptyCollection(StripEmptyValue(d.fields[k], MapAt(c, k))))
          :: StripEmptyValue(d.fields[k], MapAt(c, k)))
  }

  lemma {:induction false} StripExtraDecides(c: Json, d: Json)
    ensures StripExtra(c, d) == d <==> Within(d, c)
    decreases d
  {
    if c.Obj? && d.Obj? {
      forall k | k in d.fields && k in c.fields
        ensures StripExtra(c.fields[k], d.fields[k]) == d.fields[k] <==> Within(d.fields[k], c.fields[k])
      {
        StripExtraDecides(c.fields[k], d.fields[k]);
      }
      var s := StripExtra(c, d).fields;
      if Within(d, c) { assert s == d.fields; }
      if s == d.fields { assert forall k | k in d.fields :: k in s; }
    } else if c.Arr? && d.Arr? {
      forall i | 0 <= i < |d.items| && i < |c.items|
        ensures StripExtra(c.items[i], d.items[i]) == d.items[i] <==> Within(d.items[i], c.items[i])
      {
        StripExtraDecides(c.items[i], d.items[i]);
      }
      var s := StripExtra(c, d).items;
      if Within(d, c) { assert s == d.items; }
      if s == d.items { assert forall i | 0 <= i < |d.items| :: s[i] == d.items[i]; }
    }
  }

  lemma {:induction false} CollapseDecides(d: Json)
    ensures IsEmptyCollection(StripEmptyValue(d, map[])) <==> Collapses(d)
    decreases d
  {
    if d.Obj? {
      forall k | k in d.fields
        ensures IsEmptyCollection(StripEmptyValue(d.fields[k], map[])) <==> Collapses(d.fields[k])
      {
        CollapseDecides(d.fields[k]);
      }
      var s := StripEmpty(d, map[]).fields;
      assert forall k | k in d.fields :: k in s <==> !Collapses(d.fields[k]);
      if Collapses(d) { assert s == map[]; }
    }
  }

  /** Stripping both sides and comparing decides `Matches`. */
  lemma {:induction false} StripDecides(d: Json, c: Json)
    requires d.Obj? && c.Obj?
    ensures StripEmpty(d, StripExtra(c, d).fields) == StripExtra(c, d) <==> Matches(d, c)
    decreases d
  {
    var c' := StripExtra(c, d).fields;
    var d' := StripEmpty(d, c').fields;
    forall k | k in d.fields
      ensures k in c.fields ==> (StripEmptyValue(d.fields[k], MapAt(c', k)) == c'[k] <==> Matches(d.fields[k], c.fields[k]))
      ensures k !in c.fields ==> (k in d' <==> !Collapses(d.fields[k]))
    {
      if k !in c.fields {
        CollapseDecides(d.fields[k]);
      } else if d.fields[k].Obj? && c.fields[k].Obj? {
        StripDecides(d.fields[k], c.fields[k]);
      } else {
        StripExtraDecides(c.fields[k], d.fields[k]);
      }
    }
    if Matches(d, c) {
      assert d' == c';
    } else {
      var k :| k in d.fields && !(if k in c.fields then Matches(d.fields[k], c.fields[k]) else Collapses(d.fields[k]));
      assert k in d' && (k in c' ==> d'[k] != c'[k]);
    }
  }

  // ---------------------------------------------------------------- stripping, as loops

  /** Go visits map keys in any order; so does this loop, and the outcome does not depend on it. */
  method StripExtraFields(current: Json, desired: Json) returns (r: Json)
    requires current.Obj? && desired.Obj?
    ensures r == StripExtra(current, desired)
    decreases current
  {
    var fields := current.fields;
    var todo := current.fields.Keys;
    while todo != {}
      invariant todo <= current.fields.Keys
      invariant forall k :: k in fields <==> k in current.fields && (k in todo || k in desired.fields)
      invariant forall k | k in fields ::
                  fields[k] == if k in todo then current.fields[k] else StripExtra(current.fields[k], desired.fields[k])
      decreases todo
    {
      var k :| k in todo;
      todo := todo - {k};
      var cv := current.fields[k];
      if k !in desired.fields {
        fields := fields - {k};
        continue;
      }
      var dv := desired.fields[k];
      if dv.Obj? && cv.Obj? {
        cv := StripExtraFields(cv, dv);
      }
      if dv.Arr? && cv.Arr? {
        cv := StripExtraFieldsSlice(cv, dv);
      }
      fields := fields[k := cv];
    }
    r := Obj(fields);
    assert fields == StripExtra(current, desired).fields;
  }

  method StripExtraFieldsSlice(current: Json, desired: Json) returns (r: Json)
    requires current.Arr? && desired.Arr?
    ensures r == StripExtra(current, desired)
    decreases current
  {
    var items := current.items;
    var i := 0;
    while i < |current.items| && i < |desired.items|
      invariant 0 <= i <= |current.items| == |items| && i <= |desired.items|
      invariant forall j | 0 <= j < i :: items[j] == StripExtra(current.items[j], desired.items[j])
      invariant forall j | i <= j < |items| :: items[j] == current.items[j]
    {
      var cv, dv := current.items[i], desired.items[i];
      if dv.Obj? && cv.Obj? {
        cv := StripExtraFields(cv, dv);
      }
      if dv.Arr? && cv.Arr? {
        cv := StripExtraFieldsSlice(cv, dv);
      }
      items := items[i := cv];
      i := i + 1;
    }
    r := Arr(items);
    assert items == StripExtra(current, desired).items;
  }

  method StripEmptyDesiredFields(desired: Json, current: Fields) returns (r: Json)
    requires desired.Obj?
    ensures r == StripEmpty(desired, current)
    decreases desired
  {
    var fields := desired.fields;
    var todo := desired.fields.Keys;
    while todo != {}
      invariant todo <= desired.fields.Keys
      invariant forall k :: k in fields <==>
                  (k in desired.fields
                   && (k in todo || k in current || !IsEmptyCollection(StripEmptyValue(desired.fields[k], MapAt(current, k)))))
      invariant forall k | k in fields ::
                  fields[k] == if k in todo then desired.fields[k] else StripEmptyValue(desired.fields[k], MapAt(current, k))
      decreases todo
    {
      var k :| k in todo;
      todo := todo - {k};
      var dv := desired.fields[k];
      if dv.Obj? {
        dv := StripEmptyDesiredFields(dv, MapAt(current, k));
      }
      if k !in current && IsEmptyCollection(dv) {
        fields := fields - {k};
      } else {
        fields := fields[k := dv];
      }
    }
    r := Obj(fields);
    assert fields == StripEmpty(desired, current).fields;
  }

  predicate Answer(desired: Option<Fields>, current: Option<Fields>) {
    if desired.Some? && current.Some? then Matches(Obj(desired.value), Obj(current.value))
    else desired.None? && current.None?
  }

  /**
   Whether `current` already contains what `desired` asks for. `None` is Go's nil map, which a
   deep comparison keeps apart from an empty one.
   */
  method SpecMatchesDesired(desired: Option<Fields>, current: Option<Fields>) returns (b: bool)
    ensures b <==> Answer(desired, current)
  {
    if desired.None? || current.None? {
      // Stripping an absent map leaves it absent, and stripping against one leaves at most an empty map.
      return desired.None? && current.None?;
    }
    var c := StripExtraFields(Obj(current.value), Obj(desired.value));
    var d := StripEmptyDesiredFields(Obj(desired.value), c.fields);
    StripDecides(Obj(desired.value), Obj(current.value));
    return d == c;
  }

  // ---------------------------------------------------------------- what a match means

  predicate IsScalar(j: Json) {
    !j.Obj? && !j.Arr?
  }

  datatype Hop = Key(k: string) | Index(i: nat)

  function ValueAt(j: Json, path: seq<Hop>): Option<Json>
    decreases |path|
  {
    if path == [] then Some(j)
    else match path[0]
      case Key(k) => if j.Obj? && k in j.fields then ValueAt(j.fields[k], path[1..]) else None
      case Index(i) => if j.Arr? && i < |j.items| then ValueAt(j.items[i], path[1..]) else None
  }

  lemma {:induction false} CollapsedHoldsNoScalar(d: Json, path: seq<Hop>)
    requires Collapses(d)
    ensures var v := ValueAt(d, path); v.Some? ==> !IsScalar(v.value)
    decreases |path|
  {
    if path != [] && path[0].Key? && d.Obj? && path[0].k in d.fields {
      CollapsedHoldsNoScalar(d.fields[path[0].k], path[1..]);
    }
  }

  /** When the answer is yes, every scalar wanted is in `current`, at the same place and with the same value. */
  lemma {:induction false} MatchFindsEveryScalar(d: Json, c: Json, path: seq<Hop>)
    requires Matches(d, c) || Within(d, c)
    requires ValueAt(d, path).Some? && IsScalar(ValueAt(d, path).value)
    ensures ValueAt(c, path) == ValueAt(d, path)
    decreases |path|
  {
    if path != [] {
      match path[0]
      case Key(k) =>
        if Matches(d, c) && k !in c.fields {
          CollapsedHoldsNoScalar(d.fields[k], path[1..]);
        } else {
          MatchFindsEveryScalar(d.fields[k], c.fields[k], path[1..]);
        }
      case Index(i) =>
        MatchFindsEveryScalar(d.items[i], c.items[i], path[1..]);
    }
  }

  // ---------------------------------------------------------------- the server in between

  lemma {:induction false} MatchesItself(d: Json)
    ensures Matches(d, d) && Within(d, d)
  {
    if d.Obj? {
      forall k | k in d.fields ensures Matches(d.fields[k], d.fields[k]) && Within(d.fields[k], d.fields[k]) {
        MatchesItself(d.fields[k]);
      }
    } else if d.Arr? {
      forall i | 0 <= i < |d.items| ensures Within(d.items[i], d.items[i]) {
        MatchesItself(d.items[i]);
      }
    }
  }

  /** What the server does to a stored policy: it adds a key to some map, or drops an empty collection. */
  datatype Edit = Add(path: seq<Hop>, key: string, value: Json) | Drop(along: seq<string>, key: string)

  /** Sets `key` in the map at `path`, if there is one. */
  function AddAt(c: Json, path: seq<Hop>, key: string, value: Json): Json
    decreases |path|
  {
    if path == [] then (if c.Obj? then Obj(c.fields[key := value]) else c)
    else match path[0]
      case Key(k) =>
        if c.Obj? && k in c.fields then Obj(c.fields[k := AddAt(c.fields[k], path[1..], key, value)]) else c
      case Index(i) =>
        if c.Arr? && i < |c.items| then Arr(c.items[i := AddAt(c.items[i], path[1..], key, value)]) else c
  }

  /** Removes an empty collection under `key` from the map reached through maps alone. */
  function DropAt(c: Json, along: seq<string>, key: string): Json
    decreases |along|
  {
    if !c.Obj? then c
    else if along == [] then
      if key in c.fields && IsEmptyCollection(c.fields[key]) then Obj(c.fields - {key}) else c
    else if along[0] in c.fields then Obj(c.fields[along[0] := DropAt(c.fields[along[0]], along[1..], key)])
    else c
  }

  function Edited(c: Json, e: Edit): Json {
    match e
    case Add(path, key, value) => AddAt(c, path, key, value)
    case Drop(along, key) => DropAt(c, along, key)
  }

  /** An added key is the server's own: `d` does not mention it at that place. */
  predicate Fresh(d: Json, e: Edit) {
    e.Add? ==>
      var at := ValueAt(d, e.path);
      at.Some? && at.value.Obj? ==> e.key !in at.value.fields
  }

  lemma {:induction false} AddKeepsMatch(d: Json, c: Json, path: seq<Hop>, key: string, value: Json)
    requires Fresh(d, Add(path, key, value))
    ensures Within(d, c) ==> Within(d, AddAt(c, path, key, value))
    ensures Matches(d, c) ==> Matches(d, AddAt(c, path, key, value))
    decreases |path|
  {
    if path != [] {
      match path[0]
      case Key(k) =>
        if d.Obj? && c.Obj? && k in d.fields && k in c.fields {
          AddKeepsMatch(d.fields[k], c.fields[k], path[1..], key, value);
        }
      case Index(i) =>
        if d.Arr? && c.Arr? && i < |d.items| == |c.items| {
          AddKeepsMatch(d.items[i], c.items[i], path[1..], key, value);
        }
    }
  }

  lemma {:induction false} DropKeepsMatch(d: Json, c: Json, along: seq<string>, key: string)
    requires Matches(d, c)
    ensures Matches(d, DropAt(c, along, key))
    decreases |along|
  {
    if c.Obj? && d.Obj? {
      if along == [] {
        if key in d.fields && key in c.fields && IsEmptyCollection(c.fields[key]) {
          assert Matches(d.fields[key], c.fields[key]);
          assert Collapses(d.fields[key]);
        }
      } else if along[0] in c.fields && along[0] in d.fields {
        DropKeepsMatch(d.fields[along[0]], c.fields[along[0]], along[1..], key);
      }
    }
  }

  // ---------------------------------------------------------------- reconciling again and again

  datatype Event = Server(edit: Edit) | Reconcile

  /** The stored policy and how many updates the controller has sent. */
  datatype Stored = Stored(policy: Json, updates: nat)

  ghost function After(d: Json, st: Stored, events: seq<Event>): Stored
    decreases |events|
  {
    if events == [] then st
    else
      var next := match events[0]
        case Server(e) => st.(policy := Edited(st.policy, e))
        case Reconcile => if Matches(d, st.policy) then st else Stored(d, st.updates + 1);
      After(d, next, events[1..])
  }

  /** Once reconciled, no server that keeps to `Edit` makes the controller send a second update. */
  lemma {:induction false} NoSecondUpdate(d: Json, st: Stored, events: seq<Event>)
    requires forall e | e in events :: e.Server? ==> Fresh(d, e.edit)
    ensures var first := After(d, st, [Reconcile]);
            After(d, first, events).updates == first.updates <= st.updates + 1
  {
    MatchesItself(d);
    var first := if Matches(d, st.policy) then st else Stored(d, st.updates + 1);
    assert After(d, st, [Reconcile]) == first by {
      assert [Reconcile][1..] == [];
    }
    StaysMatched(d, first, events);
  }

  lemma {:induction false} StaysMatched(d: Json, st: Stored, events: seq<Event>)
    requires Matches(d, st.policy) && forall e | e in events :: e.Server? ==> Fresh(d, e.edit)
    ensures var after := After(d, st, events); after.updates == st.updates && Matches(d, after.policy)
    decreases |events|
  {
    if events != [] {
      match events[0]
      case Server(e) =>
        assert events[0] in events;
        match e {
          case Add(path, key, value) => AddKeepsMatch(d, st.policy, path, key, value);
          case Drop(along, key) => DropKeepsMatch(d, st.policy, along, key);
        }
        StaysMatched(d, st.(policy := Edited(st.policy, e)), events[1..]);
      case Reconcile =>
        StaysMatched(d, st, events[1..]);
    }
  }

  // ---------------------------------------------------------------- absent maps

  function OrEmpty(m: Option<Fields>): Json {
    Obj(if m.Some? then m.value else map[])
  }

  /**
   Treating an absent map as an empty one would change the answer exactly when one side is
   absent and nothing is wanted: the code then reports a difference although none is there.
   */
  lemma AbsentIsNotEmpty(desired: Option<Fields>, current: Option<Fields>)
    ensures Answer(desired, current) != Matches(OrEmpty(desired), OrEmpty(current)) <==>
              desired.None? != current.None? && Collapses(OrEmpty(desired))
  {
    if current.None? {
      assert Matches(OrEmpty(desired), Obj(map[])) <==> Collapses(OrEmpty(desired));
    }
  }
}
