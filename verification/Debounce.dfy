/**
 Throttling the "last used" writes of a key without a lock.

 A map from key to the time of the last granted write is changed only by atomic LoadOrStore,
 CompareAndSwap, CompareAndDelete and Delete. `World` interleaves any number of callers and the
 background sweep at those calls and keeps a log of what was granted and removed.
 */
module Debounce {
  import opened Wrappers

  type Time = int

  // ---------------------------------------------------------------- the protocol

  /** Where a caller stands: the clock read, the slot observed, or the write its grant allows. */
  datatype Caller =
    | Idle
    | Timed(key: string, now: Time)
    | Observed(key: string, now: Time, seen: Time)
    | Writing(key: string, slot: Time)

  /** `over` is the slot a grant replaced; `who` the caller. */
  datatype Entry =
    | Grant(key: string, slot: Time, who: nat, over: Option<Time>)
    | Swept(key: string)
    | Cleared(key: string, slot: Time, who: nat)

  datatype World = World(ttl: Time, clock: Time, slots: map<string, Time>, callers: map<nat, Caller>,
                         captured: set<(string, Time)>, expired: set<string>, log: seq<Entry>)

  datatype Step =
    | Tick(to: Time)
    | Read(c: nat, key: string)
    | LoadOrStore(c: nat)
    | ReadAndLoad(c: nat, key: string)
    | CompareAndSwap(c: nat)
    | Wrote(c: nat)
    | WriteFailed(c: nat)
    | SweepTest(key: string)
    | SweepDelete(key: string)
    | Sweep(key: string)

  predicate IsExpired(w: World, key: string) {
    key in w.slots && w.slots[key] < w.clock - w.ttl
  }

  predicate Enabled(w: World, s: Step) {
    match s
    case Tick(to) => w.clock <= to
    // No two calls for one key read the same clock value.
    case Read(c, key) => c in w.callers && w.callers[c].Idle? && (key, w.clock) !in w.captured
    case ReadAndLoad(c, key) => c in w.callers && w.callers[c].Idle? && (key, w.clock) !in w.captured
    case LoadOrStore(c) => c in w.callers && w.callers[c].Timed?
    case CompareAndSwap(c) => c in w.callers && w.callers[c].Observed?
    case Wrote(c) => c in w.callers && w.callers[c].Writing?
    case WriteFailed(c) => c in w.callers && w.callers[c].Writing?
    case SweepTest(key) => IsExpired(w, key)
    case SweepDelete(key) => key in w.expired
    case Sweep(key) => IsExpired(w, key)
  }

  function Granted(w: World, c: nat, key: string, now: Time, over: Option<Time>): World {
    w.(slots := w.slots[key := now], callers := w.callers[c := Writing(key, now)],
       log := w.log + [Grant(key, now, c, over)])
  }

  function Removed(w: World, key: string, e: Entry): World {
    if key in w.slots then w.(slots := w.slots - {key}, log := w.log + [e]) else w
  }

  function Goto(w: World, c: nat, p: Caller): World {
    w.(callers := w.callers[c := p])
  }

  function Apply(w: World, s: Step): World
    requires Enabled(w, s)
  {
    match s
    case Tick(to) => w.(clock := to)
    case Read(c, key) => ReadClock(w, c, key)
    case LoadOrStore(c) => Loaded(w, c)
    case ReadAndLoad(c, key) => Loaded(ReadClock(w, c, key), c)
    case CompareAndSwap(c) =>
      var Observed(key, now, seen) := w.callers[c];
      if key in w.slots && w.slots[key] == seen then Granted(w, c, key, now, Some(seen)) else Goto(w, c, Idle)
    case Wrote(c) => Goto(w, c, Idle)
    case WriteFailed(c) =>
      var Writing(key, slot) := w.callers[c];
      if key in w.slots && w.slots[key] == slot then Goto(Removed(w, key, Cleared(key, slot, c)), c, Idle)
      else Goto(w, c, Idle)
    case SweepTest(key) => w.(expired := w.expired + {key})
    case SweepDelete(key) => Removed(w, key, Swept(key)).(expired := w.expired - {key})
    case Sweep(key) => Removed(w, key, Swept(key))
  }

  function ReadClock(w: World, c: nat, key: string): World {
    Goto(w, c, Timed(key, w.clock)).(captured := w.captured + {(key, w.clock)})
  }

  function Loaded(w: World, c: nat): World
    requires c in w.callers && w.callers[c].Timed?
  {
    var Timed(key, now) := w.callers[c];
    if key !in w.slots then Granted(w, c, key, now, None)
    else if now - w.slots[key] >= w.ttl then Goto(w, c, Observed(key, now, w.slots[key]))
    else Goto(w, c, Idle)
  }

  // ---------------------------------------------------------------- what the log says

  /** The last thing that happened to `key`. */
  function Last(log: seq<Entry>, key: string): Option<Entry> {
    if log == [] then None
    else if log[|log| - 1].key == key then Some(log[|log| - 1])
    else Last(log[..|log| - 1], key)
  }

  lemma LastAfter(log: seq<Entry>, e: Entry, key: string)
    ensures Last(log + [e], key) == if e.key == key then Some(e) else Last(log, key)
  {
    assert (log + [e])[..|log|] == log;
  }

  /** A grant that follows a grant, with no removal between, comes at least a TTL later. */
  ghost predicate Spaced(ttl: Time, log: seq<Entry>) {
    forall i | 0 <= i < |log| && log[i].Grant? ::
      var prev := Last(log[..i], log[i].key);
      prev.Some? && prev.value.Grant? ==> log[i].slot - prev.value.slot >= ttl
  }

  /** No slot is superseded twice. */
  ghost predicate SupersededOnce(log: seq<Entry>) {
    forall i, j | 0 <= i < j < |log| && log[i].Grant? && log[j].Grant? ::
      log[i].over.Some? && log[i].key == log[j].key ==> log[i].over != log[j].over
  }

  /** A failing writer removes nothing but the slot of its own latest grant. */
  ghost predicate ClearsOwn(log: seq<Entry>) {
    forall i | 0 <= i < |log| && log[i].Cleared? ::
      var prev := Last(log[..i], log[i].key);
      prev.Some? && prev.value.Grant? && prev.value.who == log[i].who && prev.value.slot == log[i].slot
  }

  // ---------------------------------------------------------------- invariant

  /** The map is exactly what the log leaves behind. */
  ghost predicate SlotsFollowLog(w: World) {
    forall key :: SlotFollows(w, key, Last(w.log, key))
  }

  predicate SlotFollows(w: World, key: string, last: Option<Entry>) {
    if last.Some? && last.value.Grant? then key in w.slots && w.slots[key] == last.value.slot
    else key !in w.slots
  }

  predicate Pending(p: Caller) {
    p.Timed? || p.Observed?
  }

  /** Every time captured for a key is some one caller's, or the slot of some one grant. */
  ghost predicate Distinct(w: World) {
    && (forall i | 0 <= i < |w.log| && w.log[i].Grant? :: (w.log[i].key, w.log[i].slot) in w.captured)
    && (forall i, j | 0 <= i < j < |w.log| && w.log[i].Grant? && w.log[j].Grant? && w.log[i].key == w.log[j].key ::
          w.log[i].slot != w.log[j].slot)
    && (forall c | c in w.callers && Pending(w.callers[c]) :: (w.callers[c].key, w.callers[c].now) in w.captured)
    && (forall c, d | c in w.callers && d in w.callers && c != d && Pending(w.callers[c]) && Pending(w.callers[d])
                      && w.callers[c].key == w.callers[d].key ::
          w.callers[c].now != w.callers[d].now)
    && (forall c, i | c in w.callers && Pending(w.callers[c]) && 0 <= i < |w.log| && w.log[i].Grant?
                      && w.log[i].key == w.callers[c].key ::
          w.log[i].slot != w.callers[c].now)
  }

  ghost predicate GrantedBy(w: World, c: nat, key: string, slot: Time) {
    exists i | 0 <= i < |w.log| :: w.log[i].Grant? && w.log[i].key == key && w.log[i].slot == slot && w.log[i].who == c
  }

  ghost predicate CallersInv(w: World) {
    forall c | c in w.callers :: CallerInv(w, c, w.callers[c])
  }

  ghost predicate CallerInv(w: World, c: nat, p: Caller) {
    match p
    case Observed(_, now, seen) => now - seen >= w.ttl
    case Writing(key, slot) => GrantedBy(w, c, key, slot)
    case _ => true
  }

  /** A superseded slot was granted once and is gone for good. */
  ghost predicate SupersededGone(w: World) {
    forall i | 0 <= i < |w.log| && w.log[i].Grant? && w.log[i].over.Some? ::
      && (exists j | 0 <= j < i :: w.log[j].Grant? && w.log[j].key == w.log[i].key && w.log[j].slot == w.log[i].over.value)
      && (w.log[i].key in w.slots ==> w.slots[w.log[i].key] != w.log[i].over.value)
  }

  ghost predicate Inv(w: World) {
    && 0 < w.ttl
    && SlotsFollowLog(w) && Distinct(w) && CallersInv(w) && SupersededGone(w)
    && Spaced(w.ttl, w.log) && SupersededOnce(w.log) && ClearsOwn(w.log)
  }

  lemma {:induction false} LastIsThere(log: seq<Entry>, key: string) returns (i: nat)
    requires Last(log, key).Some?
    ensures i < |log| && log[i] == Last(log, key).value && log[i].key == key
  {
    if log[|log| - 1].key == key {
      i := |log| - 1;
    } else {
      i := LastIsThere(log[..|log| - 1], key);
    }
  }

  lemma PrefixesStay(log: seq<Entry>, e: Entry)
    ensures forall i | 0 <= i <= |log| :: (log + [e])[..i] == log[..i]
  {}

  lemma GrantKeepsLog(w: World, c: nat, key: string, now: Time, over: Option<Time>)
    requires Inv(w)
    requires if over.None? then key !in w.slots
             else key in w.slots && w.slots[key] == over.value && now - over.value >= w.ttl
    ensures var log' := w.log + [Grant(key, now, c, over)];
            Spaced(w.ttl, log') && SupersededOnce(log') && ClearsOwn(log')
  {
    var e := Grant(key, now, c, over);
    PrefixesStay(w.log, e);
    assert w.log[..|w.log|] == w.log;
  }

  /** A log with one more entry has the old entries where they were. */
  lemma OneMore(log: seq<Entry>, e: Entry)
    ensures var log' := log + [e];
            |log'| == |log| + 1 && log'[|log|] == e && forall i | 0 <= i < |log| :: log'[i] == log[i]
    ensures forall key :: Last(log + [e], key) == if key == e.key then Some(e) else Last(log, key)
  {
    forall key ensures Last(log + [e], key) == if key == e.key then Some(e) else Last(log, key) {
      LastAfter(log, e, key);
    }
  }

  lemma GrantsStay(w: World, w': World, e: Entry)
    requires w'.log == w.log + [e]
    ensures forall c, key, slot :: GrantedBy(w, c, key, slot) ==> GrantedBy(w', c, key, slot)
  {
    forall c, key, slot | GrantedBy(w, c, key, slot) ensures GrantedBy(w', c, key, slot) {
      var i :| 0 <= i < |w.log| && w.log[i].Grant? && w.log[i].key == key && w.log[i].slot == slot && w.log[i].who == c;
      assert w'.log[i] == w.log[i];
    }
  }

  lemma GrantKeepsDistinct(w: World, c: nat, key: string, now: Time, over: Option<Time>)
    requires Distinct(w) && c in w.callers && Pending(w.callers[c]) && w.callers[c].key == key && w.callers[c].now == now
    ensures Distinct(Granted(w, c, key, now, over))
  {
    OneMore(w.log, Grant(key, now, c, over));
  }

  lemma GrantKeepsGone(w: World, c: nat, key: string, now: Time, over: Option<Time>)
    requires SupersededGone(w) && SlotsFollowLog(w) && Distinct(w)
    requires c in w.callers && Pending(w.callers[c]) && w.callers[c].key == key && w.callers[c].now == now
    requires over.Some? ==> key in w.slots && w.slots[key] == over.value
    ensures SupersededGone(Granted(w, c, key, now, over))
  {
    var w' := Granted(w, c, key, now, over);
    OneMore(w.log, Grant(key, now, c, over));
    forall i | 0 <= i < |w'.log| && w'.log[i].Grant? && w'.log[i].over.Some?
      ensures exists j | 0 <= j < i :: w'.log[j].Grant? && w'.log[j].key == w'.log[i].key && w'.log[j].slot == w'.log[i].over.value
      ensures w'.log[i].key in w'.slots ==> w'.slots[w'.log[i].key] != w'.log[i].over.value
    {
      if i < |w.log| {
        var j :| 0 <= j < i && w.log[j].Grant? && w.log[j].key == w.log[i].key && w.log[j].slot == w.log[i].over.value;
        assert w'.log[j] == w.log[j];
      } else {
        var j := LastIsThere(w.log, key);
        assert w'.log[j] == w.log[j];
      }
    }
  }

  lemma GrantKeepsInv(w: World, c: nat, key: string, now: Time, over: Option<Time>)
    requires Inv(w) && c in w.callers && Pending(w.callers[c]) && w.callers[c].key == key && w.callers[c].now == now
    requires if over.None? then key !in w.slots
             else key in w.slots && w.slots[key] == over.value && now - over.value >= w.ttl
    ensures Inv(Granted(w, c, key, now, over))
  {
    var w' := Granted(w, c, key, now, over);
    GrantKeepsLog(w, c, key, now, over);
    GrantKeepsDistinct(w, c, key, now, over);
    GrantKeepsGone(w, c, key, now, over);
    OneMore(w.log, Grant(key, now, c, over));
    assert SlotsFollowLog(w') by {
      forall k ensures SlotFollows(w', k, Last(w'.log, k)) { assert SlotFollows(w, k, Last(w.log, k)); }
    }
    GrantKeepsCallers(w, c, key, now, over);
  }

  lemma GrantKeepsCallers(w: World, c: nat, key: string, now: Time, over: Option<Time>)
    requires CallersInv(w) && c in w.callers
    ensures CallersInv(Granted(w, c, key, now, over))
  {
    var w' := Granted(w, c, key, now, over);
    GrantsStay(w, w', Grant(key, now, c, over));
    assert w'.log[|w.log|].Grant? && GrantedBy(w', c, key, now);
    forall d | d in w'.callers ensures CallerInv(w', d, w'.callers[d]) {
      assert d in w.callers && CallerInv(w, d, w.callers[d]);
    }
  }

  lemma RemovalKeepsLog(w: World, key: string, e: Entry)
    requires Inv(w) && e.key == key && !e.Grant? && key in w.slots
    requires e.Cleared? ==> w.slots[key] == e.slot && GrantedBy(w, e.who, key, e.slot)
    ensures var log' := w.log + [e]; Spaced(w.ttl, log') && SupersededOnce(log') && ClearsOwn(log')
  {
    PrefixesStay(w.log, e);
    assert w.log[..|w.log|] == w.log;
    assert SlotFollows(w, key, Last(w.log, key));
    var j := LastIsThere(w.log, key);
    if e.Cleared? {
      var i :| 0 <= i < |w.log| && w.log[i].Grant? && w.log[i].key == key && w.log[i].slot == e.slot && w.log[i].who == e.who;
      assert i == j;
    }
  }

  lemma RemovalKeepsGone(w: World, key: string, e: Entry)
    requires SupersededGone(w) && !e.Grant?
    ensures SupersededGone(Removed(w, key, e))
  {
    var w' := Removed(w, key, e);
    OneMore(w.log, e);
    forall i | 0 <= i < |w'.log| && w'.log[i].Grant? && w'.log[i].over.Some?
      ensures exists j | 0 <= j < i :: w'.log[j].Grant? && w'.log[j].key == w'.log[i].key && w'.log[j].slot == w'.log[i].over.value
    {
      var j :| 0 <= j < i && w.log[j].Grant? && w.log[j].key == w.log[i].key && w.log[j].slot == w.log[i].over.value;
      assert w'.log[j] == w.log[j];
    }
  }

  lemma RemovalKeepsInv(w: World, key: string, e: Entry)
    requires Inv(w) && e.key == key && !e.Grant?
    requires e.Cleared? ==> key in w.slots && w.slots[key] == e.slot && GrantedBy(w, e.who, key, e.slot)
    ensures Inv(Removed(w, key, e))
  {
    if key in w.slots {
      var w' := Removed(w, key, e);
      RemovalKeepsLog(w, key, e);
      RemovalKeepsGone(w, key, e);
      OneMore(w.log, e);
      GrantsStay(w, w', e);
      assert SlotsFollowLog(w') by {
        forall k ensures SlotFollows(w', k, Last(w'.log, k)) { assert SlotFollows(w, k, Last(w.log, k)); }
      }
      assert Distinct(w');
      forall d | d in w'.callers ensures CallerInv(w', d, w'.callers[d]) {
        assert CallerInv(w, d, w.callers[d]);
      }
    }
  }

  lemma IdleKeepsInv(w: World, c: nat)
    requires Inv(w)
    ensures Inv(Goto(w, c, Idle))
  {
    var w' := Goto(w, c, Idle);
    assert forall d, k, slot :: GrantedBy(w, d, k, slot) ==> GrantedBy(w', d, k, slot);
    forall d | d in w'.callers ensures CallerInv(w', d, w'.callers[d]) {
      if d != c { assert CallerInv(w, d, w.callers[d]); }
    }
    assert forall k :: SlotFollows(w, k, Last(w.log, k)) ==> SlotFollows(w', k, Last(w'.log, k));
  }

  /** The clock and the sweep's notes are not part of the invariant. */
  lemma NotesKeepInv(w: World, clock: Time, expired: set<string>)
    requires Inv(w)
    ensures Inv(w.(clock := clock, expired := expired))
  {
    var w' := w.(clock := clock, expired := expired);
    assert forall d, k, slot :: GrantedBy(w, d, k, slot) ==> GrantedBy(w', d, k, slot);
    forall d | d in w'.callers ensures CallerInv(w', d, w'.callers[d]) {
      assert CallerInv(w, d, w.callers[d]);
    }
    assert forall k :: SlotFollows(w, k, Last(w.log, k)) ==> SlotFollows(w', k, Last(w'.log, k));
  }

  lemma FailureKeepsInv(w: World, c: nat)
    requires Inv(w) && Enabled(w, WriteFailed(c))
    ensures Inv(Apply(w, WriteFailed(c)))
  {
    var Writing(key, slot) := w.callers[c];
    assert CallerInv(w, c, w.callers[c]);
    if key in w.slots && w.slots[key] == slot {
      RemovalKeepsInv(w, key, Cleared(key, slot, c));
      IdleKeepsInv(Removed(w, key, Cleared(key, slot, c)), c);
    } else {
      IdleKeepsInv(w, c);
    }
  }

  lemma SwapKeepsInv(w: World, c: nat)
    requires Inv(w) && Enabled(w, CompareAndSwap(c))
    ensures Inv(Apply(w, CompareAndSwap(c)))
  {
    var Observed(key, now, seen) := w.callers[c];
    assert CallerInv(w, c, w.callers[c]);
    if key in w.slots && w.slots[key] == seen {
      GrantKeepsInv(w, c, key, now, Some(seen));
    } else {
      IdleKeepsInv(w, c);
    }
  }

  lemma StepKeepsInv(w: World, s: Step)
    requires Inv(w) && Enabled(w, s)
    ensures Inv(Apply(w, s))
  {
    match s
    case Tick(to) => NotesKeepInv(w, to, w.expired);
    case Read(c, key) => ReadKeepsInv(w, c, key);
    case LoadOrStore(c) => LoadKeepsInv(w, c);
    case ReadAndLoad(c, key) =>
      ReadKeepsInv(w, c, key);
      LoadKeepsInv(ReadClock(w, c, key), c);
    case CompareAndSwap(c) => SwapKeepsInv(w, c);
    case Wrote(c) => IdleKeepsInv(w, c);
    case WriteFailed(c) => FailureKeepsInv(w, c);
    case SweepTest(key) => NotesKeepInv(w, w.clock, w.expired + {key});
    case SweepDelete(key) =>
      RemovalKeepsInv(w, key, Swept(key));
      var removed := Removed(w, key, Swept(key));
      NotesKeepInv(removed, removed.clock, w.expired - {key});
    case Sweep(key) => RemovalKeepsInv(w, key, Swept(key));
  }

  lemma ReadKeepsInv(w: World, c: nat, key: string)
    requires Inv(w) && Enabled(w, Read(c, key))
    ensures Inv(ReadClock(w, c, key))
  {
    var w' := ReadClock(w, c, key);
    forall d | d in w'.callers ensures CallerInv(w', d, w'.callers[d]) {
      if d != c { assert CallerInv(w, d, w.callers[d]); }
    }
    assert forall d, k, slot :: GrantedBy(w, d, k, slot) ==> GrantedBy(w', d, k, slot);
  }

  lemma LoadKeepsInv(w: World, c: nat)
    requires Inv(w) && c in w.callers && w.callers[c].Timed?
    ensures Inv(Loaded(w, c))
  {
    var Timed(key, now) := w.callers[c];
    if key !in w.slots {
      GrantKeepsInv(w, c, key, now, None);
    } else if now - w.slots[key] >= w.ttl {
      ObservingKeepsInv(w, c);
    } else {
      IdleKeepsInv(w, c);
    }
  }

  lemma ObservingKeepsInv(w: World, c: nat)
    requires Inv(w) && c in w.callers && w.callers[c].Timed?
    requires var Timed(key, now) := w.callers[c]; key in w.slots && now - w.slots[key] >= w.ttl
    ensures Inv(Loaded(w, c))
  {
    var w' := Loaded(w, c);
    forall d | d in w'.callers ensures CallerInv(w', d, w'.callers[d]) {
      assert CallerInv(w, d, w.callers[d]);
    }
    assert forall k :: SlotFollows(w, k, Last(w.log, k)) ==> SlotFollows(w', k, Last(w'.log, k));
  }

  // ---------------------------------------------------------------- whole runs

  predicate Initial(w: World) {
    && 0 < w.ttl
    && w.slots == map[] && w.captured == {} && w.expired == {} && w.log == []
    && forall c | c in w.callers :: w.callers[c].Idle?
  }

  ghost predicate Runs(w: World, steps: seq<Step>, w': World)
    decreases |steps|
  {
    if steps == [] then w == w'
    else Enabled(w, steps[0]) && Runs(Apply(w, steps[0]), steps[1..], w')
  }

  lemma {:induction false} RunKeepsInv(w: World, steps: seq<Step>, w': World)
    requires Inv(w) && Runs(w, steps, w')
    ensures Inv(w')
    decreases |steps|
  {
    if steps != [] {
      StepKeepsInv(w, steps[0]);
      RunKeepsInv(Apply(w, steps[0]), steps[1..], w');
    }
  }

  /**
   In every interleaving, sweeps included and neither they nor the callers atomic: grants with
   no removal between are a TTL apart, no slot is superseded twice, and a failing writer takes
   back only its own grant.
   */
  lemma ProtocolHolds(w: World, steps: seq<Step>, w': World)
    requires Initial(w) && Runs(w, steps, w')
    ensures Spaced(w'.ttl, w'.log) && SupersededOnce(w'.log) && ClearsOwn(w'.log)
  {
    RunKeepsInv(w, steps, w');
  }

  // ---------------------------------------------------------------- across sweeps

  /** The last grant of `key`, looking back over sweeps but not over a writer's own clean-up. */
  function LastUncleared(log: seq<Entry>, key: string): Option<Time> {
    if log == [] then None
    else
      var e := log[|log| - 1];
      if e.key != key || e.Swept? then LastUncleared(log[..|log| - 1], key)
      else if e.Grant? then Some(e.slot)
      else None
  }

  ghost predicate SpacedAcrossSweeps(ttl: Time, log: seq<Entry>) {
    forall i | 0 <= i < |log| && log[i].Grant? ::
      var prev := LastUncleared(log[..i], log[i].key);
      prev.Some? ==> log[i].slot - prev.value >= ttl
  }

  /** A swept key has waited out its TTL: any grant from now on is far enough from its last one. */
  predicate WaitedOut(w: World, key: string) {
    var prev := LastUncleared(w.log, key);
    prev.Some? ==> if key in w.slots then w.slots[key] == prev.value else w.clock - prev.value >= w.ttl
  }

  /** The clock value a caller has read for `key` is good for a grant, should it find the slot gone. */
  predicate ReadLateEnough(w: World, key: string, now: Time) {
    var prev := LastUncleared(w.log, key);
    key in w.slots || prev.None? || now - prev.value >= w.ttl
  }

  ghost predicate SweepInv(w: World) {
    && (forall key :: WaitedOut(w, key))
    && SpacedAcrossSweeps(w.ttl, w.log)
    && (forall c | c in w.callers && w.callers[c].Timed? :: ReadLateEnough(w, w.callers[c].key, w.callers[c].now))
  }

  /** The slot is a TTL old, and so it is for every caller that has read the clock for it but not yet loaded. */
  predicate Spares(w: World, key: string) {
    key in w.slots ==>
      && w.clock - w.slots[key] >= w.ttl
      && forall c | c in w.callers && w.callers[c].Timed? && w.callers[c].key == key :: w.callers[c].now - w.slots[key] >= w.ttl
  }

  /** What the sweep removes, in one step with its test or later, it removes from no one who is about to load it. */
  predicate Considerate(w: World, s: Step) {
    s.Sweep? || s.SweepDelete? ==> Spares(w, s.key)
  }

  lemma LastUnclearedAfter(log: seq<Entry>, e: Entry)
    ensures forall key :: LastUncleared(log + [e], key) ==
              if e.key != key || e.Swept? then LastUncleared(log, key)
              else if e.Grant? then Some(e.slot)
              else None
  {
    assert (log + [e])[..|log|] == log;
  }

  lemma GrantKeepsSweepInv(w: World, c: nat, key: string, now: Time, over: Option<Time>)
    requires Inv(w) && SweepInv(w)
    requires if over.None? then key !in w.slots && ReadLateEnough(w, key, now)
             else key in w.slots && w.slots[key] == over.value && now - over.value >= w.ttl
    ensures SweepInv(Granted(w, c, key, now, over))
  {
    var e := Grant(key, now, c, over);
    var w' := Granted(w, c, key, now, over);
    LastUnclearedAfter(w.log, e);
    assert WaitedOut(w, key);
    forall k ensures WaitedOut(w', k) { assert WaitedOut(w, k); }
    forall d | d in w'.callers && w'.callers[d].Timed? ensures ReadLateEnough(w', w'.callers[d].key, w'.callers[d].now) {
      assert ReadLateEnough(w, w.callers[d].key, w.callers[d].now);
    }
    SpacedAfter(w, e);
  }

  /** A grant keeps the spacing exactly when it comes a TTL after the key's last one. */
  lemma SpacedAfter(w: World, e: Entry)
    requires SpacedAcrossSweeps(w.ttl, w.log)
    ensures SpacedAcrossSweeps(w.ttl, w.log + [e]) <==>
              (e.Grant? ==> var prev := LastUncleared(w.log, e.key); prev.Some? ==> e.slot - prev.value >= w.ttl)
  {
    var log' := w.log + [e];
    PrefixesStay(w.log, e);
    assert w.log[..|w.log|] == w.log && log'[|w.log|] == e;
    forall i | 0 <= i < |w.log| ensures log'[i] == w.log[i] && log'[..i] == w.log[..i] {}
  }

  lemma RemovalKeepsSweepInv(w: World, key: string, e: Entry)
    requires SweepInv(w) && e.key == key && !e.Grant?
    requires e.Swept? ==> Spares(w, key)
    ensures SweepInv(Removed(w, key, e))
  {
    if key in w.slots {
      var w' := Removed(w, key, e);
      LastUnclearedAfter(w.log, e);
      forall k ensures WaitedOut(w', k) { assert WaitedOut(w, k); }
      forall d | d in w'.callers && w'.callers[d].Timed? ensures ReadLateEnough(w', w'.callers[d].key, w'.callers[d].now) {
        assert ReadLateEnough(w, w.callers[d].key, w.callers[d].now) && WaitedOut(w, key);
      }
      SpacedAfter(w, e);
    }
  }

  /** Only the slots, the log, the callers about to load and the passage of time matter to it. */
  lemma SameSlotsKeepSweepInv(w: World, w': World)
    requires SweepInv(w)
    requires w'.ttl == w.ttl && w'.slots == w.slots && w'.log == w.log && w.clock <= w'.clock
    requires forall c | c in w'.callers && w'.callers[c].Timed? ::
               (c in w.callers && w'.callers[c] == w.callers[c]) || w'.callers[c].now >= w.clock
    ensures SweepInv(w')
  {
    forall k ensures WaitedOut(w', k) { assert WaitedOut(w, k); }
    forall d | d in w'.callers && w'.callers[d].Timed? ensures ReadLateEnough(w', w'.callers[d].key, w'.callers[d].now) {
      if d in w.callers && w'.callers[d] == w.callers[d] {
        assert ReadLateEnough(w, w.callers[d].key, w.callers[d].now);
      } else {
        assert WaitedOut(w, w'.callers[d].key);
      }
    }
  }

  lemma LoadKeepsSweepInv(w: World, c: nat)
    requires Inv(w) && SweepInv(w) && c in w.callers && w.callers[c].Timed?
    ensures SweepInv(Loaded(w, c))
  {
    var Timed(key, now) := w.callers[c];
    if key in w.slots {
      SameSlotsKeepSweepInv(w, Loaded(w, c));
    } else {
      GrantKeepsSweepInv(w, c, key, now, None);
    }
  }

  lemma StepKeepsSweepInv(w: World, s: Step)
    requires Inv(w) && SweepInv(w) && Enabled(w, s) && Considerate(w, s)
    ensures SweepInv(Apply(w, s))
  {
    match s
    case Tick(_) => SameSlotsKeepSweepInv(w, Apply(w, s));
    case Read(_, _) => SameSlotsKeepSweepInv(w, Apply(w, s));
    case LoadOrStore(c) => LoadKeepsSweepInv(w, c);
    case ReadAndLoad(c, key) =>
      ReadKeepsInv(w, c, key);
      SameSlotsKeepSweepInv(w, ReadClock(w, c, key));
      LoadKeepsSweepInv(ReadClock(w, c, key), c);
    case CompareAndSwap(c) => SwapKeepsSweepInv(w, c);
    case Wrote(_) => SameSlotsKeepSweepInv(w, Apply(w, s));
    case WriteFailed(c) => FailureKeepsSweepInv(w, c);
    case SweepTest(_) => SameSlotsKeepSweepInv(w, Apply(w, s));
    case SweepDelete(key) =>
      RemovalKeepsSweepInv(w, key, Swept(key));
      SameSlotsKeepSweepInv(Removed(w, key, Swept(key)), Apply(w, s));
    case Sweep(key) => RemovalKeepsSweepInv(w, key, Swept(key));
  }

  lemma SwapKeepsSweepInv(w: World, c: nat)
    requires Inv(w) && SweepInv(w) && Enabled(w, CompareAndSwap(c))
    ensures SweepInv(Apply(w, CompareAndSwap(c)))
  {
    var Observed(key, now, seen) := w.callers[c];
    assert CallerInv(w, c, w.callers[c]);
    if key in w.slots && w.slots[key] == seen {
      GrantKeepsSweepInv(w, c, key, now, Some(seen));
    } else {
      SameSlotsKeepSweepInv(w, Apply(w, CompareAndSwap(c)));
    }
  }

  lemma FailureKeepsSweepInv(w: World, c: nat)
    requires Inv(w) && SweepInv(w) && Enabled(w, WriteFailed(c))
    ensures SweepInv(Apply(w, WriteFailed(c)))
  {
    var Writing(key, slot) := w.callers[c];
    if key in w.slots && w.slots[key] == slot {
      RemovalKeepsSweepInv(w, key, Cleared(key, slot, c));
      SameSlotsKeepSweepInv(Removed(w, key, Cleared(key, slot, c)), Apply(w, WriteFailed(c)));
    } else {
      SameSlotsKeepSweepInv(w, Apply(w, WriteFailed(c)));
    }
  }

  ghost predicate AllConsiderate(w: World, steps: seq<Step>)
    decreases |steps|
  {
    steps == [] || !Enabled(w, steps[0])
    || (Considerate(w, steps[0]) && AllConsiderate(Apply(w, steps[0]), steps[1..]))
  }

  lemma {:induction false} RunKeepsSweepInv(w: World, steps: seq<Step>, w': World)
    requires Inv(w) && SweepInv(w) && Runs(w, steps, w') && AllConsiderate(w, steps)
    ensures SweepInv(w')
    decreases |steps|
  {
    if steps != [] {
      StepKeepsSweepInv(w, steps[0]);
      StepKeepsInv(w, steps[0]);
      RunKeepsSweepInv(Apply(w, steps[0]), steps[1..], w');
    }
  }

  /**
   With clock reads apart from loads and the sweep's test apart from its delete, in any
   interleaving: sweeps do not shorten the spacing as long as each slot removed is a TTL old, by
   the clock and by what callers about to load it have read.
   */
  lemma SpacingSurvivesSweeps(w: World, steps: seq<Step>, w': World)
    requires Initial(w) && Runs(w, steps, w') && AllConsiderate(w, steps)
    ensures SpacedAcrossSweeps(w'.ttl, w'.log)
  {
    RunKeepsSweepInv(w, steps, w');
  }

  /** A sweep whose test and delete are one step is considerate unless a caller is between its clock read and its load. */
  lemma JointSweepIsConsiderate(w: World, key: string)
    requires Enabled(w, Sweep(key)) && forall c | c in w.callers && w.callers[c].Timed? :: w.callers[c].key != key
    ensures Considerate(w, Sweep(key))
  {
  }

  /** Sweeps test and delete in one step, and none of a key comes between a caller's clock read for it and its load. */
  ghost predicate NoneBetween(w: World, steps: seq<Step>)
    decreases |steps|
  {
    steps == [] || !Enabled(w, steps[0])
    || (!steps[0].SweepDelete?
        && (steps[0].Sweep? ==> forall c | c in w.callers && w.callers[c].Timed? :: w.callers[c].key != steps[0].key)
        && NoneBetween(Apply(w, steps[0]), steps[1..]))
  }

  lemma {:induction false} NoneBetweenIsConsiderate(w: World, steps: seq<Step>)
    requires NoneBetween(w, steps)
    ensures AllConsiderate(w, steps)
    decreases |steps|
  {
    if steps != [] && Enabled(w, steps[0]) {
      if steps[0].Sweep? {
        JointSweepIsConsiderate(w, steps[0].key);
      }
      NoneBetweenIsConsiderate(Apply(w, steps[0]), steps[1..]);
    }
  }

  /** Clock reads may then stand apart from loads, and the grants of every key stay a TTL apart. */
  lemma SpacingWhenNoneBetween(w: World, steps: seq<Step>, w': World)
    requires Initial(w) && Runs(w, steps, w') && NoneBetween(w, steps)
    ensures SpacedAcrossSweeps(w'.ttl, w'.log)
  {
    NoneBetweenIsConsiderate(w, steps);
    SpacingSurvivesSweeps(w, steps, w');
  }

  /** What a removal by the sweep does to the invariant depends on just that. */
  lemma RemovalIsSafeExactlyWhenItSpares(w: World, key: string)
    requires Inv(w) && SweepInv(w)
    ensures SweepInv(Removed(w, key, Swept(key))) <==> Spares(w, key)
  {
    if Spares(w, key) {
      RemovalKeepsSweepInv(w, key, Swept(key));
    } else {
      var w' := Removed(w, key, Swept(key));
      assert SlotFollows(w, key, Last(w.log, key));
      LastIsLastUncleared(w.log, key);
      LastUnclearedAfter(w.log, Swept(key));
      if w.clock - w.slots[key] < w.ttl {
        assert !WaitedOut(w', key);
      } else {
        var c :| c in w.callers && w.callers[c].Timed? && w.callers[c].key == key && w.callers[c].now - w.slots[key] < w.ttl;
        assert !ReadLateEnough(w', w'.callers[c].key, w'.callers[c].now);
      }
    }
  }

  /** A caller that loads a slot swept from under it keeps the spacing exactly when it read the clock late enough. */
  lemma LoadAfterSweepExactly(w: World, c: nat)
    requires Inv(w) && SweepInv(w) && c in w.callers && w.callers[c].Timed? && w.callers[c].key in w.slots
    ensures var key, now := w.callers[c].key, w.callers[c].now;
            var swept := Removed(w, key, Swept(key));
            SpacedAcrossSweeps(w.ttl, Loaded(swept, c).log) <==> now - w.slots[key] >= w.ttl
  {
    var key, now := w.callers[c].key, w.callers[c].now;
    assert SlotFollows(w, key, Last(w.log, key));
    LastIsLastUncleared(w.log, key);
    LastUnclearedAfter(w.log, Swept(key));
    SpacedAfter(w, Swept(key));
    SpacedAfter(Removed(w, key, Swept(key)), Grant(key, now, c, None));
  }

  /** So does one that reads the clock only then, by the clock as it is. */
  lemma ReadAfterSweepExactly(w: World, c: nat, key: string)
    requires Inv(w) && SweepInv(w) && Enabled(w, ReadAndLoad(c, key)) && key in w.slots
    ensures var swept := Removed(w, key, Swept(key));
            Enabled(swept, ReadAndLoad(c, key))
            && (SpacedAcrossSweeps(w.ttl, Apply(swept, ReadAndLoad(c, key)).log) <==> w.clock - w.slots[key] >= w.ttl)
  {
    assert SlotFollows(w, key, Last(w.log, key));
    LastIsLastUncleared(w.log, key);
    LastUnclearedAfter(w.log, Swept(key));
    SpacedAfter(w, Swept(key));
    SpacedAfter(Removed(w, key, Swept(key)), Grant(key, w.clock, c, None));
  }

  lemma {:induction false} LastIsLastUncleared(log: seq<Entry>, key: string)
    requires Last(log, key).Some? && Last(log, key).value.Grant?
    ensures LastUncleared(log, key) == Some(Last(log, key).value.slot)
  {
    if log[|log| - 1].key != key {
      LastIsLastUncleared(log[..|log| - 1], key);
    }
  }

  // ---------------------------------------------------------------- why the two must be joined

  lemma Take(start: World, steps: seq<Step>, w: World, s: Step) returns (w': World, steps': seq<Step>)
    requires Runs(start, steps, w) && Enabled(w, s)
    ensures w' == Apply(w, s) && steps' == steps + [s] && Runs(start, steps', w')
  {
    w', steps' := Apply(w, s), steps + [s];
    RunsAppend(start, steps, w, s);
  }

  lemma {:induction false} RunsAppend(start: World, steps: seq<Step>, w: World, s: Step)
    requires Runs(start, steps, w) && Enabled(w, s)
    ensures Runs(start, steps + [s], Apply(w, s))
    decreases |steps|
  {
    if steps != [] {
      assert (steps + [s])[1..] == steps[1..] + [s];
      RunsAppend(Apply(start, steps[0]), steps[1..], w, s);
    } else {
      assert Runs(Apply(w, s), [s][1..], Apply(w, s));
    }
  }

  function Start(ttl: Time): World {
    World(ttl, 0, map[], map[0 := Idle, 1 := Idle, 2 := Idle], {}, {}, [])
  }

  /**
   The sweep as written tests a slot, then deletes whatever is there. A caller that refreshes
   the slot in between loses it, and the next caller writes again one tick later.
   */
  lemma SplitSweepBreaksSpacing(ttl: Time, key: string) returns (steps: seq<Step>, w: World)
    requires 1 < ttl
    ensures Initial(Start(ttl)) && Runs(Start(ttl), steps, w)
    ensures forall s | s in steps :: !s.Read? && !s.LoadOrStore? && !s.WriteFailed?
    ensures !SpacedAcrossSweeps(ttl, w.log)
  {
    w, steps := TestedThenRefreshed(ttl, key);
    w, steps := SweptThenGranted(ttl, key, steps, w);
  }

  /** The sweep has found the slot old, and a caller has refreshed it since. */
  function Refreshed(ttl: Time, key: string): World {
    World(ttl, 3 * ttl, map[key := 3 * ttl],
          map[0 := Writing(key, 0), 1 := Writing(key, 3 * ttl), 2 := Idle],
          {(key, 0), (key, 3 * ttl)}, {key}, [Grant(key, 0, 0, None), Grant(key, 3 * ttl, 1, Some(0))])
  }

  lemma TestedThenRefreshed(ttl: Time, key: string) returns (w: World, steps: seq<Step>)
    requires 1 < ttl
    ensures Runs(Start(ttl), steps, w) && w == Refreshed(ttl, key)
    ensures forall s | s in steps :: !s.Read? && !s.LoadOrStore? && !s.WriteFailed?
  {
    w, steps := TestedOld(ttl, key);
    w, steps := Take(Start(ttl), steps, w, ReadAndLoad(1, key));
    assert w.callers[1] == Observed(key, 3 * ttl, 0);
    w, steps := Take(Start(ttl), steps, w, CompareAndSwap(1));
    var end := Refreshed(ttl, key);
    assert w.callers == end.callers && w.slots == end.slots && w.log == end.log;
  }

  /** The sweep has found the slot old. */
  function Tested(ttl: Time, key: string): World {
    World(ttl, 3 * ttl, map[key := 0], map[0 := Writing(key, 0), 1 := Idle, 2 := Idle],
          {(key, 0)}, {key}, [Grant(key, 0, 0, None)])
  }

  lemma TestedOld(ttl: Time, key: string) returns (w: World, steps: seq<Step>)
    requires 1 < ttl
    ensures Runs(Start(ttl), steps, w) && w == Tested(ttl, key)
    ensures forall s | s in steps :: !s.Read? && !s.LoadOrStore? && !s.WriteFailed?
  {
    w, steps := Take(Start(ttl), [], Start(ttl), ReadAndLoad(0, key));
    w, steps := Take(Start(ttl), steps, w, Tick(3 * ttl));
    w, steps := Take(Start(ttl), steps, w, SweepTest(key));
    var tested := Tested(ttl, key);
    assert w.callers == tested.callers && w.slots == tested.slots && w.log == tested.log;
  }

  lemma SweptThenGranted(ttl: Time, key: string, sofar: seq<Step>, mid: World) returns (w: World, steps: seq<Step>)
    requires 1 < ttl && Runs(Start(ttl), sofar, mid)
    requires forall s | s in sofar :: !s.Read? && !s.LoadOrStore? && !s.WriteFailed?
    requires mid == Refreshed(ttl, key)
    ensures Runs(Start(ttl), steps, w)
    ensures forall s | s in steps :: !s.Read? && !s.LoadOrStore? && !s.WriteFailed?
    ensures !SpacedAcrossSweeps(ttl, w.log)
  {
    w, steps := Take(Start(ttl), sofar, mid, SweepDelete(key));
    assert w.slots == map[];
    w, steps := Take(Start(ttl), steps, w, Tick(3 * ttl + 1));
    w, steps := Take(Start(ttl), steps, w, ReadAndLoad(2, key));
    var before := mid.log + [Swept(key)];
    LastUnclearedAfter(mid.log, Swept(key));
    assert LastUncleared(mid.log, key) == Some(3 * ttl);
    assert w.log == before + [Grant(key, 3 * ttl + 1, 2, None)] && w.log[..3] == before;
    assert w.log[3].Grant?;
  }

  /** A caller that read the clock long before it loads stores a time older than the grant it follows. */
  lemma EarlyReadBreaksSpacing(ttl: Time, key: string) returns (steps: seq<Step>, w: World)
    requires 0 < ttl
    ensures Initial(Start(ttl)) && Runs(Start(ttl), steps, w)
    ensures forall s | s in steps :: !s.SweepTest? && !s.SweepDelete? && !s.WriteFailed?
    ensures !SpacedAcrossSweeps(ttl, w.log)
  {
    w, steps := GrantedMeanwhile(ttl, key);
    w, steps := SweptThenStored(ttl, key, steps, w);
  }

  /** Caller 1 has read the clock and waits, while caller 0 was granted a later time. */
  function Overtaken(ttl: Time, key: string): World {
    World(ttl, ttl + 2, map[key := 1], map[0 := Writing(key, 1), 1 := Timed(key, 0), 2 := Idle],
          {(key, 0), (key, 1)}, {}, [Grant(key, 1, 0, None)])
  }

  lemma GrantedMeanwhile(ttl: Time, key: string) returns (w: World, steps: seq<Step>)
    requires 0 < ttl
    ensures Runs(Start(ttl), steps, w) && w == Overtaken(ttl, key)
    ensures forall s | s in steps :: !s.SweepTest? && !s.SweepDelete? && !s.WriteFailed?
  {
    w, steps := Take(Start(ttl), [], Start(ttl), Read(1, key));
    w, steps := Take(Start(ttl), steps, w, Tick(1));
    w, steps := Take(Start(ttl), steps, w, ReadAndLoad(0, key));
    w, steps := Take(Start(ttl), steps, w, Tick(ttl + 2));
    var end := Overtaken(ttl, key);
    assert w.callers == end.callers && w.slots == end.slots && w.log == end.log;
  }

  lemma SweptThenStored(ttl: Time, key: string, sofar: seq<Step>, mid: World) returns (w: World, steps: seq<Step>)
    requires 0 < ttl && Runs(Start(ttl), sofar, mid) && mid == Overtaken(ttl, key)
    requires forall s | s in sofar :: !s.SweepTest? && !s.SweepDelete? && !s.WriteFailed?
    ensures Runs(Start(ttl), steps, w)
    ensures forall s | s in steps :: !s.SweepTest? && !s.SweepDelete? && !s.WriteFailed?
    ensures !SpacedAcrossSweeps(ttl, w.log)
  {
    w, steps := Take(Start(ttl), sofar, mid, Sweep(key));
    assert w.slots == map[];
    w, steps := Take(Start(ttl), steps, w, LoadOrStore(1));
    var before := mid.log + [Swept(key)];
    LastUnclearedAfter(mid.log, Swept(key));
    assert LastUncleared(mid.log, key) == Some(1);
    assert w.log == before + [Grant(key, 0, 1, None)] && w.log[..2] == before;
    assert w.log[2].Grant?;
  }

  // ---------------------------------------------------------------- one caller, undisturbed

  /** The debounce map of the service. A TTL of zero switches debouncing off. */
  class DebounceMap {
    const ttl: Time
    var slots: map<string, Time>

    constructor (ttl: Time)
      ensures this.ttl == ttl && slots == map[]
    {
      this.ttl := ttl;
      slots := map[];
    }

    method LoadOrStore(key: string, now: Time) returns (actual: Time, loaded: bool)
      modifies this
      ensures loaded <==> key in old(slots)
      ensures actual == if loaded then old(slots)[key] else now
      ensures slots == if loaded then old(slots) else old(slots)[key := now]
    {
      if key in slots {
        return slots[key], true;
      }
      slots := slots[key := now];
      return now, false;
    }

    method CompareAndSwap(key: string, seen: Time, now: Time) returns (swapped: bool)
      modifies this
      ensures swapped <==> key in old(slots) && old(slots)[key] == seen
      ensures slots == if swapped then old(slots)[key := now] else old(slots)
    {
      swapped := key in slots && slots[key] == seen;
      if swapped {
        slots := slots[key := now];
      }
    }

    /** A write goes ahead when the key has no slot or an old one; the slot then carries this call's time. */
    method ShouldUpdateLastUsed(key: string, now: Time) returns (proceed: bool, slot: Time)
      modifies this
      ensures proceed <==> ttl == 0 || key !in old(slots) || now - old(slots)[key] >= ttl
      ensures slots == if proceed && ttl != 0 then old(slots)[key := now] else old(slots)
      ensures slot == if proceed && ttl != 0 then now else 0
    {
      if ttl == 0 {
        return true, 0;
      }
      var actual, loaded := LoadOrStore(key, now);
      if !loaded {
        return true, now;
      }
      if now - actual >= ttl {
        var swapped := CompareAndSwap(key, actual, now);
        if swapped {
          return true, now;
        }
      }
      return false, 0;
    }

    method ClearDebounceSlot(key: string, slot: Time)
      modifies this
      ensures slots == if ttl != 0 && key in old(slots) && old(slots)[key] == slot then old(slots) - {key} else old(slots)
    {
      if ttl != 0 && key in slots && slots[key] == slot {
        slots := slots - {key};
      }
    }

    /** One round of the background sweep: entries older than the cutoff go, in whatever order the map yields them. */
    method SweepExpired(now: Time)
      modifies this
      ensures slots == map k | k in old(slots) && old(slots)[k] >= now - ttl :: old(slots)[k]
    {
      var cutoff := now - ttl;
      var all := slots;
      var todo := all.Keys;
      while todo != {}
        invariant todo <= all.Keys
        invariant slots == map k | k in all && (k in todo || all[k] >= cutoff) :: all[k]
        decreases todo
      {
        var k :| k in todo;
        todo := todo - {k};
        if all[k] < cutoff {
          slots := slots - {k};
        }
      }
    }
  }

  /** The interleaved steps, taken one after the other, decide as `ShouldUpdateLastUsed` does. */
  lemma UndisturbedCallDecides(w: World, c: nat, key: string)
    requires Enabled(w, ReadAndLoad(c, key)) && 0 < w.ttl
    ensures var loaded := Apply(w, ReadAndLoad(c, key));
            var done := if loaded.callers[c].Observed? then Apply(loaded, CompareAndSwap(c)) else loaded;
            var proceed := key !in w.slots || w.clock - w.slots[key] >= w.ttl;
            && done.slots == (if proceed then w.slots[key := w.clock] else w.slots)
            && done.callers[c] == (if proceed then Writing(key, w.clock) else Idle)
  {}
}
