/**
 The store of API keys.

 `KeyTable` is the in-memory store, `World` any sequence of its operations under a clock that
 never goes back. Times are whole numbers of seconds; SHA-256 hashes are plain strings here.
 */
module KeyStore {
  import opened Wrappers

  datatype Status = Active | Revoked | Expired

  datatype Key = Key(id: string, name: string, username: string, groups: seq<string>, subscription: string,
                     tenant: string, hash: string, expiresAt: Option<int>, lastUsed: Option<int>,
                     ephemeral: bool, status: Status)

  type Keys = map<string, Key>

  datatype StoreError = EmptyID | EmptyName | SubscriptionRequired | KeyNotFound | InvalidKey | ScopeRequired

  const GRACE_SECONDS := 30 * 60

  predicate Past(k: Key, now: int) {
    k.expiresAt.Some? && k.expiresAt.value < now
  }

  /** The status a reader sees: an active key past its expiry counts as expired. */
  function Effective(k: Key, now: int): Status {
    if k.status.Active? && Past(k, now) then Expired else k.status
  }

  predicate Holds(keys: Keys, id: string, hash: string) {
    id in keys && keys[id].hash == hash
  }

  ghost predicate Accepts(keys: Keys, hash: string, now: int) {
    exists id :: Holds(keys, id, hash) && Effective(keys[id], now).Active?
  }

  /** Every hash belongs to one key, as the database's unique index has it. */
  ghost predicate UniqueHashes(keys: Keys) {
    forall i, j | i in keys && j in keys && keys[i].hash == keys[j].hash :: i == j
  }

  // What each operation makes of the table.

  function Aged(k: Key, now: int): Key {
    k.(status := Effective(k, now))
  }

  function Looked(keys: Keys, hash: string, now: int): Keys {
    map id | id in keys :: if keys[id].hash == hash then Aged(keys[id], now) else keys[id]
  }

  datatype Scope = Scope(username: string, subscription: string, tenant: string)

  /** The keys a bulk revocation concerns: an empty user or subscription stands for all. */
  predicate Matches(k: Key, s: Scope, now: int) {
    && Effective(k, now).Active? && k.tenant == s.tenant
    && (s.username == "" || k.username == s.username)
    && (s.subscription == "" || k.subscription == s.subscription)
  }

  function Matched(keys: Keys, s: Scope, now: int): set<string> {
    set id | id in keys && Matches(keys[id], s, now)
  }

  predicate InTenant(k: Key, tenant: string) {
    k.tenant == tenant && k.status.Active?
  }

  function TenantActive(keys: Keys, tenant: string): set<string> {
    set id | id in keys && InTenant(keys[id], tenant)
  }

  function RevokedIn(keys: Keys, ids: set<string>): Keys {
    map id | id in keys :: if id in ids then keys[id].(status := Revoked) else keys[id]
  }

  ghost predicate PartlyRevoked(before: Keys, keys: Keys, ids: set<string>) {
    && keys.Keys == before.Keys
    && forall id | id in keys :: keys[id] == if id in ids then before[id].(status := Revoked) else before[id]
  }

  predicate Disposable(k: Key, now: int) {
    k.ephemeral && k.expiresAt.Some? && (k.status.Expired? || Past(k, now)) && Past(k, now - GRACE_SECONDS)
  }

  function Disposables(keys: Keys, now: int): set<string> {
    set id | id in keys && Disposable(keys[id], now)
  }

  function NewKey(k: Key): Key {
    k.(status := Active, lastUsed := None)
  }

  function AddError(k: Key): Option<StoreError> {
    if k.id == "" then Some(EmptyID)
    else if k.name == "" then Some(EmptyName)
    else if k.subscription == "" then Some(SubscriptionRequired)
    else None
  }

  // ---------------------------------------------------------------- the store

  class KeyTable {
    var keys: Keys

    method AddKey(k: Key) returns (error: Option<StoreError>)
      modifies this
      ensures error == AddError(k)
      ensures keys == if error.Some? then old(keys) else old(keys)[k.id := NewKey(k)]
    {
      if k.id == "" { return Some(EmptyID); }
      if k.name == "" { return Some(EmptyName); }
      if k.subscription == "" { return Some(SubscriptionRequired); }
      keys := keys[k.id := k.(status := Active, lastUsed := None)];
      return None;
    }

    /** Finds the holder of a hash, ages it, and turns it away unless it is still active. */
    method GetByHash(hash: string, now: int) returns (r: Result<Key, StoreError>)
      modifies this
      ensures r == Err(KeyNotFound) <==> forall id :: !Holds(old(keys), id, hash)
      ensures r.Err? ==> r.error.KeyNotFound? || r.error.InvalidKey?
      ensures r.Ok? ==> keys == old(keys) && Effective(r.value, now).Active? && exists id :: Holds(keys, id, hash) && keys[id] == r.value
      ensures UniqueHashes(old(keys)) ==> (r.Ok? <==> Accepts(old(keys), hash, now)) && keys == Looked(old(keys), hash, now)
    {
      var todo := keys.Keys;
      while todo != {}
        invariant todo <= keys.Keys && keys == old(keys)
        invariant forall id | id in keys && id !in todo :: keys[id].hash != hash
        decreases todo
      {
        var id :| id in todo;
        todo := todo - {id};
        if keys[id].hash == hash {
          assert Holds(keys, id, hash);
          var k := keys[id];
          if k.expiresAt.Some? && k.expiresAt.value < now {
            if k.status.Active? {
              keys := keys[id := k.(status := Expired)];
            }
          }
          LookedAtHolder(old(keys), id, now);
          if keys[id].status.Revoked? || keys[id].status.Expired? {
            return Err(InvalidKey);
          }
          return Ok(keys[id]);
        }
      }
      assert keys == Looked(keys, hash, now);
      return Err(KeyNotFound);
    }

    method Revoke(id: string) returns (error: Option<StoreError>)
      modifies this
      ensures error.None? <==> id in old(keys) && old(keys)[id].status.Active?
      ensures error.Some? ==> error.value == KeyNotFound && keys == old(keys)
      ensures error.None? ==> keys == RevokedIn(old(keys), {id})
    {
      if id !in keys || !keys[id].status.Active? {
        return Some(KeyNotFound);
      }
      keys := keys[id := keys[id].(status := Revoked)];
      return None;
    }

    /** Revokes what the scope matches, or only counts it. */
    method BulkRevoke(s: Scope, now: int, dryRun: bool) returns (r: Result<nat, StoreError>)
      modifies this
      ensures r == if s.username == "" && s.subscription == "" then Err(ScopeRequired) else Ok(|Matched(old(keys), s, now)|)
      ensures keys == if dryRun || r.Err? then old(keys) else RevokedIn(old(keys), Matched(old(keys), s, now))
    {
      if s.username == "" && s.subscription == "" {
        return Err(ScopeRequired);
      }
      if dryRun {
        var n := CountMatches(s, now);
        return Ok(n);
      }
      var count := RevokeMatches(s, now);
      return Ok(count);
    }

    method RevokeMatches(s: Scope, now: int) returns (count: nat)
      modifies this
      ensures count == |Matched(old(keys), s, now)|
      ensures keys == RevokedIn(old(keys), Matched(old(keys), s, now))
    {
      count := 0;
      var todo := keys.Keys;
      ghost var hit: set<string> := {};
      while todo != {}
        invariant todo <= old(keys).Keys && count == |hit|
        invariant forall id :: id in hit <==> id in old(keys) && id !in todo && Matches(old(keys)[id], s, now)
        invariant PartlyRevoked(old(keys), keys, hit)
        decreases todo
      {
        var id :| id in todo;
        todo := todo - {id};
        if Matches(keys[id], s, now) {
          keys := keys[id := keys[id].(status := Revoked)];
          count := count + 1;
          hit := hit + {id};
        }
      }
      assert hit == Matched(old(keys), s, now);
    }

    method CountMatches(s: Scope, now: int) returns (count: nat)
      ensures count == |Matched(keys, s, now)|
    {
      count := 0;
      var todo := keys.Keys;
      ghost var hit: set<string> := {};
      while todo != {}
        invariant todo <= keys.Keys && count == |hit|
        invariant forall id :: id in hit <==> id in keys && id !in todo && Matches(keys[id], s, now)
        decreases todo
      {
        var id :| id in todo;
        todo := todo - {id};
        if Matches(keys[id], s, now) {
          count := count + 1;
          hit := hit + {id};
        }
      }
      assert hit == Matched(keys, s, now);
    }

    method InvalidateTenant(tenant: string) returns (count: nat)
      modifies this
      ensures count == |TenantActive(old(keys), tenant)|
      ensures keys == RevokedIn(old(keys), TenantActive(old(keys), tenant))
    {
      count := 0;
      var todo := keys.Keys;
      ghost var hit: set<string> := {};
      while todo != {}
        invariant todo <= old(keys).Keys && count == |hit|
        invariant forall id :: id in hit <==> id in old(keys) && id !in todo && InTenant(old(keys)[id], tenant)
        invariant PartlyRevoked(old(keys), keys, hit)
        decreases todo
      {
        var id :| id in todo;
        todo := todo - {id};
        if keys[id].tenant == tenant && keys[id].status.Active? {
          keys := keys[id := keys[id].(status := Revoked)];
          count := count + 1;
          hit := hit + {id};
        }
      }
      assert hit == TenantActive(old(keys), tenant);
    }

    method UpdateLastUsed(id: string, now: int) returns (error: Option<StoreError>)
      modifies this
      ensures error == if id in old(keys) then None else Some(KeyNotFound)
      ensures keys == if id in old(keys) then old(keys)[id := old(keys)[id].(lastUsed := Some(now))] else old(keys)
    {
      if id !in keys { return Some(KeyNotFound); }
      keys := keys[id := keys[id].(lastUsed := Some(now))];
      return None;
    }

    method DeleteExpiredEphemeral(now: int) returns (count: nat)
      modifies this
      ensures count == |Disposables(old(keys), now)|
      ensures keys == old(keys) - Disposables(old(keys), now)
    {
      count := 0;
      var todo := keys.Keys;
      ghost var hit: set<string> := {};
      while todo != {}
        invariant todo <= old(keys).Keys && count == |hit|
        invariant forall id :: id in hit <==> id in old(keys) && id !in todo && Disposable(old(keys)[id], now)
        invariant forall id :: id in keys <==> id in old(keys) && id !in hit
        invariant forall id | id in keys :: keys[id] == old(keys)[id]
        decreases todo
      {
        var id :| id in todo;
        todo := todo - {id};
        assert id in keys && keys[id] == old(keys)[id];
        if !keys[id].ephemeral { continue; }
        if keys[id].expiresAt.None? { continue; }
        if (keys[id].status.Expired? || keys[id].expiresAt.value < now) && keys[id].expiresAt.value < now - GRACE_SECONDS {
          keys := keys - {id};
          count := count + 1;
          hit := hit + {id};
        }
      }
      assert hit == Disposables(old(keys), now);
    }
  }

  lemma LookedAtHolder(keys: Keys, id: string, now: int)
    requires id in keys
    ensures UniqueHashes(keys) ==> Looked(keys, keys[id].hash, now) == keys[id := Aged(keys[id], now)]
    ensures UniqueHashes(keys) ==> (Accepts(keys, keys[id].hash, now) <==> Effective(keys[id], now).Active?)
  {
    assert Holds(keys, id, keys[id].hash);
  }

  // ---------------------------------------------------------------- bulk operations

  /** A dry run counts what the real run revokes; doing it again finds nothing; the rest is untouched. */
  lemma BulkRevokesExactly(keys: Keys, s: Scope, now: int, later: int)
    requires now <= later
    ensures Matched(RevokedIn(keys, Matched(keys, s, now)), s, later) == {}
    ensures forall id | id in Matched(keys, s, now) :: !Effective(RevokedIn(keys, Matched(keys, s, now))[id], later).Active?
    ensures forall id | id in keys && (keys[id].tenant != s.tenant
                                       || (s.username != "" && keys[id].username != s.username)
                                       || (s.subscription != "" && keys[id].subscription != s.subscription)) ::
              RevokedIn(keys, Matched(keys, s, now))[id] == keys[id]
  {
    var after := RevokedIn(keys, Matched(keys, s, now));
    forall id | id in after ensures !Matches(after[id], s, later) {
      assert id in keys;
      assert Matches(keys[id], s, now) <==> id in Matched(keys, s, now);
    }
  }

  /** Disposing of keys changes no one's acceptance, at that time or later. */
  lemma DisposalUnnoticed(keys: Keys, now: int, later: int, hash: string)
    requires now <= later
    ensures Accepts(keys - Disposables(keys, now), hash, later) <==> Accepts(keys, hash, later)
  {
    var after := keys - Disposables(keys, now);
    if Accepts(keys, hash, later) {
      var id :| Holds(keys, id, hash) && Effective(keys[id], later).Active?;
      assert !Disposable(keys[id], now);
      assert Holds(after, id, hash);
    }
    if Accepts(after, hash, later) {
      var id :| Holds(after, id, hash) && Effective(after[id], later).Active?;
      assert Holds(keys, id, hash);
    }
  }

  /** The extra conditions of the in-memory store add nothing to the one the database uses. */
  lemma DisposableExactly(k: Key, now: int)
    ensures Disposable(k, now) <==> k.ephemeral && Past(k, now - GRACE_SECONDS)
  {
  }

  // ---------------------------------------------------------------- any sequence of operations

  datatype World = World(keys: Keys, now: int, ids: set<string>, hashes: set<string>)

  datatype Op =
    | Add(k: Key)
    | Get(hash: string)
    | Revoke(id: string)
    | Bulk(scope: Scope, dryRun: bool)
    | Invalidate(tenant: string)
    | Touch(id: string)
    | Dispose
    | Tick(to: int)

  /** Ids and hashes are fresh, and the clock does not go back. */
  predicate Enabled(w: World, op: Op) {
    match op
    case Add(k) => k.id !in w.ids && k.hash !in w.hashes
    case Tick(to) => w.now <= to
    case _ => true
  }

  function Apply(w: World, op: Op): World {
    match op
    case Add(k) =>
      if AddError(k).Some? then w
      else w.(keys := w.keys[k.id := NewKey(k)], ids := w.ids + {k.id}, hashes := w.hashes + {k.hash})
    case Get(hash) => w.(keys := Looked(w.keys, hash, w.now))
    case Revoke(id) => w.(keys := if id in w.keys && w.keys[id].status.Active? then RevokedIn(w.keys, {id}) else w.keys)
    case Bulk(s, dryRun) =>
      w.(keys := if dryRun || (s.username == "" && s.subscription == "") then w.keys
                 else RevokedIn(w.keys, Matched(w.keys, s, w.now)))
    case Invalidate(tenant) => w.(keys := RevokedIn(w.keys, TenantActive(w.keys, tenant)))
    case Touch(id) => w.(keys := if id in w.keys then w.keys[id := w.keys[id].(lastUsed := Some(w.now))] else w.keys)
    case Dispose => w.(keys := w.keys - Disposables(w.keys, w.now))
    case Tick(to) => w.(now := to)
  }

  ghost predicate Inv(w: World) {
    && UniqueHashes(w.keys)
    && forall id | id in w.keys :: id in w.ids && w.keys[id].hash in w.hashes && w.keys[id].id == id
  }

  ghost predicate Runs(w: World, ops: seq<Op>, w': World)
    decreases |ops|
  {
    if ops == [] then w == w'
    else Enabled(w, ops[0]) && Runs(Apply(w, ops[0]), ops[1..], w')
  }

  /** All that may become of a key: its status leaves active, or it is used. */
  predicate Descends(k: Key, k': Key) {
    k' == k.(status := k'.status, lastUsed := k'.lastUsed) && (k'.status == k.status || k.status.Active?)
  }

  /** Keys that are still there descend from what they were, and no old id or hash is given out again. */
  ghost predicate Follows(w: World, w': World) {
    && w.now <= w'.now && w.ids <= w'.ids && w.hashes <= w'.hashes
    && (forall id | id in w'.keys && id in w.ids :: id in w.keys && Descends(w.keys[id], w'.keys[id]))
    && (forall id | id in w'.keys && id !in w.ids :: w'.keys[id].hash !in w.hashes)
  }

  /** No key is added, and those that stay descend from what they were. */
  ghost predicate Narrows(keys: Keys, keys': Keys) {
    forall id | id in keys' :: id in keys && Descends(keys[id], keys'[id])
  }

  lemma NarrowsFollows(w: World, w': World)
    requires Inv(w) && Narrows(w.keys, w'.keys) && w'.ids == w.ids && w'.hashes == w.hashes && w.now <= w'.now
    ensures Inv(w') && Follows(w, w')
  {
  }

  lemma OpNarrows(w: World, op: Op)
    requires Inv(w) && !op.Add?
    ensures Narrows(w.keys, Apply(w, op).keys)
  {
    match op
    case Get(hash) =>
    case Revoke(id) =>
    case Bulk(s, dryRun) =>
    case Invalidate(tenant) =>
    case Touch(id) =>
    case Dispose =>
    case Tick(to) =>
  }

  lemma StepFollows(w: World, op: Op)
    requires Inv(w) && Enabled(w, op)
    ensures Inv(Apply(w, op)) && Follows(w, Apply(w, op))
  {
    if !op.Add? {
      OpNarrows(w, op);
      NarrowsFollows(w, Apply(w, op));
    }
  }

  lemma {:induction false} RunFollows(w: World, ops: seq<Op>, w': World)
    requires Inv(w) && Runs(w, ops, w')
    ensures Inv(w') && Follows(w, w')
    decreases |ops|
  {
    if ops != [] {
      var m := Apply(w, ops[0]);
      StepFollows(w, ops[0]);
      RunFollows(m, ops[1..], w');
      forall id | id in w'.keys && id in w.ids ensures id in w.keys && Descends(w.keys[id], w'.keys[id]) {
        assert id in m.keys && Descends(m.keys[id], w'.keys[id]);
      }
      forall id | id in w'.keys && id !in w.ids ensures w'.keys[id].hash !in w.hashes {
        if id in m.ids {
          assert id in m.keys && w'.keys[id].hash == m.keys[id].hash;
        }
      }
    }
  }

  /**
   A key's stored status changes at most once, and only away from active: whatever it is at some
   moment besides active, it is for as long as the key is stored.
   */
  lemma StatusIsOneWay(w: World, ops: seq<Op>, w': World, id: string)
    requires Inv(w) && Runs(w, ops, w') && id in w.keys && id in w'.keys
    ensures w'.keys[id].status == w.keys[id].status || w.keys[id].status.Active?
  {
    RunFollows(w, ops, w');
  }

  lemma FollowsKeepsRejection(w: World, w': World, hash: string)
    requires Follows(w, w') && hash in w.hashes && !Accepts(w.keys, hash, w.now)
    ensures !Accepts(w'.keys, hash, w'.now)
  {
    forall id | Holds(w'.keys, id, hash) ensures !Effective(w'.keys[id], w'.now).Active? {
      assert Holds(w.keys, id, hash);
    }
  }

  /** Once turned away, a hash is turned away for ever: revoked, expired or disposed of alike. */
  lemma RejectionIsForEver(w: World, ops: seq<Op>, w': World, hash: string)
    requires Inv(w) && Runs(w, ops, w') && hash in w.hashes && !Accepts(w.keys, hash, w.now)
    ensures !Accepts(w'.keys, hash, w'.now)
  {
    RunFollows(w, ops, w');
    FollowsKeepsRejection(w, w', hash);
  }

  // ---------------------------------------------------------------- how long a key is accepted

  /** An operation that does not aim at `k`, whenever it runs. */
  predicate Spares(op: Op, k: Key) {
    match op
    case Revoke(id) => id != k.id
    case Bulk(s, dryRun) =>
      || dryRun || (s.username == "" && s.subscription == "") || s.tenant != k.tenant
      || (s.username != "" && s.username != k.username)
      || (s.subscription != "" && s.subscription != k.subscription)
    case Invalidate(tenant) => tenant != k.tenant
    case _ => true
  }

  /** `k` is in force: stored, active, and unchanged but for its last use. */
  predicate InForce(w: World, k: Key) {
    k.id in w.keys && w.keys[k.id].(lastUsed := k.lastUsed) == k
  }

  lemma SparedStaysInForce(w: World, op: Op, k: Key)
    requires Inv(w) && Enabled(w, op) && InForce(w, k) && k.status.Active?
    requires Spares(op, k) && !Past(k, Apply(w, op).now)
    ensures InForce(Apply(w, op), k)
  {
    match op
    case Add(_) =>
    case Get(hash) =>
    case Revoke(id) =>
    case Bulk(s, dryRun) => assert !Matches(w.keys[k.id], s, w.now) || dryRun || (s.username == "" && s.subscription == "");
    case Invalidate(tenant) =>
    case Touch(id) =>
    case Dispose =>
    case Tick(to) =>
  }

  lemma OnlyHolder(w: World, k: Key)
    requires Inv(w) && k.id in w.keys && w.keys[k.id].hash == k.hash
    ensures Accepts(w.keys, k.hash, w.now) <==> Effective(w.keys[k.id], w.now).Active?
  {
    assert Holds(w.keys, k.id, k.hash);
  }

  lemma AimedIsRejected(w: World, op: Op, k: Key)
    requires Inv(w) && InForce(w, k) && k.status.Active? && !Spares(op, k)
    ensures !Accepts(Apply(w, op).keys, k.hash, Apply(w, op).now)
  {
    var w' := Apply(w, op);
    StepFollows(w, op);
    assert k.id in w'.keys && w'.keys[k.id].hash == k.hash;
    if op.Bulk? {
      assert Matches(w.keys[k.id], op.scope, w.now) <==> !Past(k, w.now);
    }
    OnlyHolder(w', k);
  }

  /** A key is accepted exactly until it expires or an operation aims at it. */
  lemma {:induction false} AcceptedExactly(w: World, ops: seq<Op>, w': World, k: Key)
    requires Inv(w) && Runs(w, ops, w') && InForce(w, k) && k.status.Active?
    ensures Accepts(w'.keys, k.hash, w'.now) <==> !Past(k, w'.now) && forall op | op in ops :: Spares(op, k)
    ensures Accepts(w'.keys, k.hash, w'.now) ==> InForce(w', k)
    decreases |ops|
  {
    RunFollows(w, ops, w');
    if ops == [] {
      OnlyHolder(w, k);
    } else {
      var m := Apply(w, ops[0]);
      StepFollows(w, ops[0]);
      RunFollows(m, ops[1..], w');
      assert ops == [ops[0]] + ops[1..];
      if !Spares(ops[0], k) {
        AimedIsRejected(w, ops[0], k);
        FollowsKeepsRejection(m, w', k.hash);
        assert ops[0] in ops;
      } else if Past(k, m.now) {
        ExpiredIsRejected(w, m, k);
        FollowsKeepsRejection(m, w', k.hash);
      } else {
        SparedStaysInForce(w, ops[0], k);
        AcceptedExactly(m, ops[1..], w', k);
      }
    }
  }

  lemma ExpiredIsRejected(w: World, w': World, k: Key)
    requires Inv(w) && Follows(w, w') && InForce(w, k) && Past(k, w'.now)
    ensures !Accepts(w'.keys, k.hash, w'.now)
  {
    forall id | Holds(w'.keys, id, k.hash) ensures !Effective(w'.keys[id], w'.now).Active? {
      assert Holds(w.keys, id, k.hash) && id == k.id;
    }
  }
}
