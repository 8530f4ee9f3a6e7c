/**
 A bounded cache with expiry in front of the admin check.

 `World` interleaves any number of lookups: reading the clock, reading the cache, asking the
 delegate, reading the clock again and storing are separate steps. `CachedAdminChecker` is one
 lookup undisturbed, with the delegate's answer as an input.
 */
module AdminCache {
  import opened Ordering
  import opened Text
  import opened Wrappers

  const NUL := '\0'

  datatype User = User(username: string, groups: seq<string>)

  // ---------------------------------------------------------------- the key

  function Join(parts: seq<string>): string {
    if parts == [] then "" else if |parts| == 1 then parts[0] else parts[0] + [NUL] + Join(parts[1..])
  }

  function CacheKey(u: User): string {
    u.username + [NUL] + Join(SortBy(StrLeq, u.groups))
  }

  predicate NulFree(u: User) {
    NUL !in u.username && forall i | 0 <= i < |u.groups| :: NUL !in u.groups[i]
  }

  predicate SameUser(u: User, v: User) {
    u.username == v.username && multiset(u.groups) == multiset(v.groups)
  }

  ghost predicate AllNulFree(parts: seq<string>) {
    forall p | p in parts :: NUL !in p
  }

  lemma JoinMentions(parts: seq<string>)
    requires |parts| >= 2
    ensures NUL in Join(parts)
  {
    assert Join(parts)[|parts[0]|] == NUL;
  }

  /** No part, or one that is empty: both join to the empty string. */
  predicate Nothing(parts: seq<string>) {
    |parts| == 0 || (|parts| == 1 && parts[0] == "")
  }

  /** Joining can be undone, except that no part and one empty part look alike. */
  lemma {:induction false} JoinInjective(s: seq<string>, t: seq<string>)
    requires AllNulFree(s) && AllNulFree(t) && Join(s) == Join(t)
    ensures s == t || (Nothing(s) && Nothing(t))
  {
    if |s| >= 2 {
      JoinMentions(s);
    }
    if |t| >= 2 {
      JoinMentions(t);
    }
    if |s| >= 2 && |t| >= 2 {
      SplitUnique(NUL, s[0], Join(s[1..]), t[0], Join(t[1..]));
      JoinInjective(s[1..], t[1..]);
      assert s == [s[0]] + s[1..] && t == [t[0]] + t[1..];
      if Nothing(s[1..]) && Nothing(t[1..]) {
        assert s[1..] == t[1..] == [""];
      }
    } else if |s| == 1 {
      assert NUL !in s[0];
      assert |t| == 1 ==> t == [t[0]];
      assert s == [s[0]];
    } else if |t| == 1 {
      assert NUL !in t[0];
    }
  }

  lemma SortedNothing(groups: seq<string>)
    ensures Nothing(SortBy(StrLeq, groups)) <==> Nothing(groups)
  {
    var s := SortBy(StrLeq, groups);
    SameElements(s, groups);
    if |groups| == 1 {
      assert groups[0] in s && s[0] in groups;
    }
  }

  lemma SortedParts(u: User)
    requires NulFree(u)
    ensures AllNulFree(SortBy(StrLeq, u.groups))
  {
    SameElements(SortBy(StrLeq, u.groups), u.groups);
  }

  /** One key exactly for one user name and one multiset of groups; only no group and one nameless group mix. */
  lemma KeysAgreeExactly(u: User, v: User)
    requires NulFree(u) && NulFree(v)
    ensures CacheKey(u) == CacheKey(v) <==> SameUser(u, v) || (u.username == v.username && Nothing(u.groups) && Nothing(v.groups))
  {
    SortedNothing(u.groups);
    SortedNothing(v.groups);
    if CacheKey(u) == CacheKey(v) {
      var s, t := SortBy(StrLeq, u.groups), SortBy(StrLeq, v.groups);
      SortedParts(u);
      SortedParts(v);
      SplitUnique(NUL, u.username, Join(s), v.username, Join(t));
      JoinInjective(s, t);
    }
    if SameUser(u, v) {
      StrOrder();
      SortForgetsOrder(StrLeq, u.groups, v.groups);
    }
  }

  /** With groups that have names, the key tells users apart. */
  lemma KeyIdentifiesUser(u: User, v: User)
    requires NulFree(u) && NulFree(v) && "" !in u.groups && "" !in v.groups
    ensures CacheKey(u) == CacheKey(v) <==> SameUser(u, v)
  {
    KeysAgreeExactly(u, v);
    assert Nothing(u.groups) ==> u.groups == [];
    assert Nothing(v.groups) ==> v.groups == [];
  }

  // ---------------------------------------------------------------- entries

  datatype Entry = Entry(isAdmin: bool, expiresAt: int)

  type Cache = map<string, Entry>

  datatype Limits = Limits(ttl: int, negativeTtl: int, maxSize: int)

  predicate ValidLimits(l: Limits) {
    l.ttl > 0 && l.negativeTtl > 0 && l.maxSize > 0
  }

  function TtlOf(l: Limits, isAdmin: bool): int {
    if isAdmin then l.ttl else l.negativeTtl
  }

  predicate Fresh(cache: Cache, key: string, now: int) {
    key in cache && now < cache[key].expiresAt
  }

  function Evicted(cache: Cache, now: int): (r: Cache)
    ensures |r| <= |cache|
  {
    var r := map k | k in cache && cache[k].expiresAt >= now :: cache[k];
    SmallerMap(r, cache);
    r
  }

  lemma SmallerMap(a: Cache, b: Cache)
    requires a.Keys <= b.Keys
    ensures |a| <= |b|
  {
    Subset(a.Keys, b.Keys);
    assert |a| == |a.Keys| && |b| == |b.Keys|;
  }

  lemma Subset(a: set<string>, b: set<string>)
    requires a <= b
    ensures |a| <= |b|
  {
    assert b == a + (b - a);
  }

  function Stored(l: Limits, cache: Cache, key: string, isAdmin: bool, storeTime: int): Cache {
    var kept := Evicted(cache, storeTime);
    if |kept| < l.maxSize then kept[key := Entry(isAdmin, storeTime + TtlOf(l, isAdmin))] else kept
  }

  lemma StoredFits(l: Limits, cache: Cache, key: string, isAdmin: bool, storeTime: int)
    requires |cache| <= l.maxSize
    ensures |Stored(l, cache, key, isAdmin, storeTime)| <= l.maxSize
  {
    var kept := Evicted(cache, storeTime);
    var e := Entry(isAdmin, storeTime + TtlOf(l, isAdmin));
    assert kept[key := e].Keys == kept.Keys + {key};
    assert |kept[key := e]| == |kept[key := e].Keys| && |kept| == |kept.Keys|;
  }

  /** At the very instant it expires an entry is neither served nor evicted. */
  lemma ExpiringEntryLingers(cache: Cache, key: string)
    requires key in cache
    ensures !Fresh(cache, key, cache[key].expiresAt) && key in Evicted(cache, cache[key].expiresAt)
  {
  }

  // ---------------------------------------------------------------- interleaved lookups

  /** Where a lookup stands; `at` is the clock as it was first read. */
  datatype Call =
    | Looking(user: User, at: int)
    | Asking(user: User)
    | Answered(user: User, isAdmin: bool, answeredAt: int)
    | Storing(user: User, isAdmin: bool, answeredAt: int, storeTime: int)
    | Returned(user: User, at: int, isAdmin: bool, fromCache: bool)

  /** An answer of the delegate. */
  datatype Answer = Answer(user: User, isAdmin: bool, at: int)

  /** `origins` says of each cached entry which answer it holds and when it was stored. */
  datatype Origin = Origin(answer: Answer, storedAt: int)

  datatype World = World(cache: Cache, origins: map<string, Origin>, now: int, calls: map<nat, Call>, answers: set<Answer>)

  datatype Step =
    | Tick(to: int)
    | Begin(id: nat, user: User)
    | Look(id: nat)
    | Reply(id: nat, isAdmin: bool)
    | ReplyFails(id: nat)
    | ReadClock(id: nat)
    | Store(id: nat)

  predicate Enabled(w: World, s: Step) {
    match s
    case Tick(to) => w.now <= to
    case Begin(id, _) => id !in w.calls
    case Look(id) => id in w.calls && w.calls[id].Looking?
    case Reply(id, _) => id in w.calls && w.calls[id].Asking?
    case ReplyFails(id) => id in w.calls && w.calls[id].Asking?
    case ReadClock(id) => id in w.calls && w.calls[id].Answered?
    case Store(id) => id in w.calls && w.calls[id].Storing?
  }

  function Apply(l: Limits, w: World, s: Step): World
    requires Enabled(w, s)
  {
    match s
    case Tick(to) => w.(now := to)
    case Begin(id, user) => w.(calls := w.calls[id := Looking(user, w.now)])
    case Look(id) =>
      var Looking(user, at) := w.calls[id];
      if Fresh(w.cache, CacheKey(user), at) then
        w.(calls := w.calls[id := Returned(user, at, w.cache[CacheKey(user)].isAdmin, true)])
      else w.(calls := w.calls[id := Asking(user)])
    case Reply(id, isAdmin) =>
      w.(calls := w.calls[id := Answered(w.calls[id].user, isAdmin, w.now)],
         answers := w.answers + {Answer(w.calls[id].user, isAdmin, w.now)})
    case ReplyFails(id) => w.(calls := w.calls - {id})
    case ReadClock(id) =>
      var Answered(user, isAdmin, answeredAt) := w.calls[id];
      w.(calls := w.calls[id := Storing(user, isAdmin, answeredAt, w.now)])
    case Store(id) => AfterStore(l, w, id)
  }

  function AfterStore(l: Limits, w: World, id: nat): World
    requires id in w.calls && w.calls[id].Storing?
  {
    var Storing(user, isAdmin, answeredAt, storeTime) := w.calls[id];
    var key := CacheKey(user);
    var origins := if |Evicted(w.cache, storeTime)| < l.maxSize
                   then w.origins[key := Origin(Answer(user, isAdmin, answeredAt), storeTime)] else w.origins;
    w.(cache := Stored(l, w.cache, key, isAdmin, storeTime), origins := origins,
       calls := w.calls[id := Returned(user, storeTime, isAdmin, false)])
  }

  /** The entry holds an answer given for a user of that key, for as long as such answers are kept. */
  ghost predicate Accounted(l: Limits, w: World, key: string) {
    && key in w.cache && key in w.origins
    && var o := w.origins[key];
       && o.answer in w.answers && CacheKey(o.answer.user) == key && o.answer.isAdmin == w.cache[key].isAdmin
       && w.cache[key].expiresAt == o.storedAt + TtlOf(l, o.answer.isAdmin)
       && o.answer.at <= o.storedAt <= w.now
  }

  ghost predicate CallInv(w: World, c: Call) {
    match c
    case Looking(_, at) => at <= w.now
    case Asking(_) => true
    case Answered(user, isAdmin, answeredAt) => Answer(user, isAdmin, answeredAt) in w.answers && answeredAt <= w.now
    case Storing(user, isAdmin, answeredAt, storeTime) =>
      Answer(user, isAdmin, answeredAt) in w.answers && answeredAt <= storeTime <= w.now
    case Returned(_, _, _, _) => true
  }

  ghost predicate Inv(l: Limits, w: World) {
    && |w.cache| <= l.maxSize
    && (forall key | key in w.cache :: Accounted(l, w, key))
    && (forall id | id in w.calls :: CallInv(w, w.calls[id]))
  }

  /** An entry stays accounted for while it stays as it is. */
  lemma AccountedStays(l: Limits, w: World, w': World, key: string)
    requires Accounted(l, w, key) && key in w'.cache && w'.cache[key] == w.cache[key]
    requires key in w'.origins && w'.origins[key] == w.origins[key]
    requires w.answers <= w'.answers && w.now <= w'.now
    ensures Accounted(l, w', key)
  {
  }

  lemma CallStays(w: World, w': World, c: Call)
    requires CallInv(w, c) && w.answers <= w'.answers && w.now <= w'.now
    ensures CallInv(w', c)
  {
  }

  /** Every step but a store leaves the cache alone. */
  lemma CacheStays(l: Limits, w: World, s: Step)
    requires Enabled(w, s) && !s.Store?
    ensures var w' := Apply(l, w, s);
            && w.answers <= w'.answers && w.now <= w'.now && w'.cache == w.cache && w'.origins == w.origins
            && forall id | id in w'.calls && (s.Tick? || id != s.id) :: id in w.calls && w'.calls[id] == w.calls[id]
  {
  }

  lemma CallMoves(l: Limits, w: World, s: Step)
    requires Enabled(w, s) && !s.Store? && !s.Tick? && (s.id in w.calls ==> CallInv(w, w.calls[s.id]))
    ensures var w' := Apply(l, w, s); s.id in w'.calls ==> CallInv(w', w'.calls[s.id])
  {
  }

  lemma StoreKeepsInv(l: Limits, w: World, id: nat)
    requires Inv(l, w) && Enabled(w, Store(id))
    ensures var w' := Apply(l, w, Store(id));
            && w'.answers == w.answers && w'.now == w.now && |w'.cache| <= l.maxSize
            && (forall key | key in w'.cache :: Accounted(l, w', key))
            && (forall i | i in w'.calls && i != id :: i in w.calls && w'.calls[i] == w.calls[i])
            && id in w'.calls && w'.calls[id].Returned?
  {
    var w' := Apply(l, w, Store(id));
    var Storing(user, isAdmin, answeredAt, storeTime) := w.calls[id];
    var stored := |Evicted(w.cache, storeTime)| < l.maxSize;
    StoredFits(l, w.cache, CacheKey(user), isAdmin, storeTime);
    assert CallInv(w, w.calls[id]);
    forall key | key in w'.cache ensures Accounted(l, w', key) {
      if !stored || key != CacheKey(user) {
        assert key in w.cache && w'.cache[key] == w.cache[key];
        AccountedStays(l, w, w', key);
      }
    }
  }

  lemma StepKeepsInv(l: Limits, w: World, s: Step)
    requires Inv(l, w) && Enabled(w, s)
    ensures Inv(l, Apply(l, w, s))
  {
    var w' := Apply(l, w, s);
    if s.Store? {
      StoreKeepsInv(l, w, s.id);
    } else {
      CacheStays(l, w, s);
      forall key | key in w'.cache ensures Accounted(l, w', key) {
        AccountedStays(l, w, w', key);
      }
    }
    forall id | id in w'.calls ensures CallInv(w', w'.calls[id]) {
      if id in w.calls && w'.calls[id] == w.calls[id] {
        CallStays(w, w', w.calls[id]);
      } else if !s.Store? {
        CallMoves(l, w, s);
      }
    }
  }

  ghost predicate Runs(l: Limits, w: World, steps: seq<Step>, w': World)
    decreases |steps|
  {
    if steps == [] then w == w'
    else Enabled(w, steps[0]) && Runs(l, Apply(l, w, steps[0]), steps[1..], w')
  }

  lemma {:induction false} RunKeepsInv(l: Limits, w: World, steps: seq<Step>, w': World)
    requires Inv(l, w) && Runs(l, w, steps, w')
    ensures Inv(l, w')
    decreases |steps|
  {
    if steps != [] {
      StepKeepsInv(l, w, steps[0]);
      RunKeepsInv(l, Apply(l, w, steps[0]), steps[1..], w');
    }
  }

  function Start(now: int): World {
    World(map[], map[], now, map[], {})
  }

  /** However lookups interleave, the cache never outgrows its bound. */
  lemma NeverTooLarge(l: Limits, now: int, steps: seq<Step>, w: World)
    requires ValidLimits(l) && Runs(l, Start(now), steps, w)
    ensures |w.cache| <= l.maxSize
  {
    RunKeepsInv(l, Start(now), steps, w);
  }

  /**
   A hit returns an answer the delegate gave, for the same key and so for the same user, that was
   stored less than its time to live before.
   */
  lemma HitAgreesWithDelegate(l: Limits, now: int, steps: seq<Step>, w: World, id: nat) returns (o: Origin)
    requires ValidLimits(l) && Runs(l, Start(now), steps, w)
    requires Enabled(w, Look(id)) && Apply(l, w, Look(id)).calls[id].Returned?
    ensures var r := Apply(l, w, Look(id)).calls[id];
            && o.answer in w.answers && o.answer.isAdmin == r.isAdmin && r.at - o.storedAt < TtlOf(l, r.isAdmin)
            && o.answer.at <= o.storedAt <= w.now
            && CacheKey(o.answer.user) == CacheKey(r.user)
            && (NulFree(r.user) && NulFree(o.answer.user) && "" !in r.user.groups && "" !in o.answer.user.groups ==>
                  SameUser(o.answer.user, r.user))
  {
    RunKeepsInv(l, Start(now), steps, w);
    var user := w.calls[id].user;
    assert Accounted(l, w, CacheKey(user));
    o := w.origins[CacheKey(user)];
    var u := o.answer.user;
    if NulFree(user) && NulFree(u) && "" !in user.groups && "" !in u.groups {
      KeyIdentifiesUser(u, user);
    }
  }

  // ---------------------------------------------------------------- one lookup

  datatype CheckError = Cancelled | DelegateFailed

  class CachedAdminChecker {
    const limits: Limits
    var cache: Cache

    constructor (limits: Limits)
      requires ValidLimits(limits)
      ensures this.limits == limits && cache == map[]
    {
      this.limits := limits;
      cache := map[];
    }

    method EvictExpired(now: int)
      modifies this`cache
      ensures cache == Evicted(old(cache), now)
    {
      var todo := cache.Keys;
      while todo != {}
        invariant todo <= old(cache).Keys
        invariant forall k :: k in cache <==> k in old(cache) && (k in todo || old(cache)[k].expiresAt >= now)
        invariant forall k | k in cache :: cache[k] == old(cache)[k]
        decreases todo
      {
        var k :| k in todo;
        todo := todo - {k};
        if now > cache[k].expiresAt {
          cache := cache - {k};
        }
      }
    }

    /** A fresh entry answers; otherwise the delegate does, and a definite answer is kept if it fits. */
    method IsAdmin(user: User, cancelled: bool, now: int, delegated: Result<bool, CheckError>, storeTime: int)
      returns (r: Result<bool, CheckError>)
      requires ValidLimits(limits) && |cache| <= limits.maxSize
      modifies this`cache
      ensures |cache| <= limits.maxSize
      ensures user.username == "" ==> r == Ok(false) && cache == old(cache)
      ensures user.username != "" && cancelled ==> r == Err(Cancelled) && cache == old(cache)
      ensures user.username != "" && !cancelled && Fresh(old(cache), CacheKey(user), now) ==>
                r == Ok(old(cache)[CacheKey(user)].isAdmin) && cache == old(cache)
      ensures user.username != "" && !cancelled && !Fresh(old(cache), CacheKey(user), now) ==>
                && r == delegated
                && cache == if delegated.Err? then old(cache)
                            else Stored(limits, old(cache), CacheKey(user), delegated.value, storeTime)
    {
      if user.username == "" {
        return Ok(false);
      }
      if cancelled {
        return Err(Cancelled);
      }
      var key := CacheKey(user);
      if key in cache && now < cache[key].expiresAt {
        return Ok(cache[key].isAdmin);
      }
      if delegated.Err? {
        return delegated;
      }
      var ttl := limits.ttl;
      if !delegated.value {
        ttl := limits.negativeTtl;
      }
      StoredFits(limits, cache, key, delegated.value, storeTime);
      EvictExpired(storeTime);
      if |cache| < limits.maxSize {
        cache := cache[key := Entry(delegated.value, storeTime + ttl)];
      }
      return delegated;
    }
  }
}
