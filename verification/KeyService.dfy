/**
 Minting an API key and validating it later.

 Random bytes, the new id, the clock and the subscription selector's answer are inputs. Times and
 durations are whole seconds.
 */
module KeyService {
  import opened Wrappers
  import opened Text
  import opened KeyFormat
  import opened KeyStore

  const DEFAULT_MAX_DAYS := 90
  const EPHEMERAL_MAX_SECONDS := 3600
  const SECONDS_PER_DAY := 24 * 3600

  datatype CreateError<E> =
    | BadGroupName(group: string)
    | ExpirationNotPositive
    | ExpirationExceedsMax
    | SelectionFailed(error: E)
    | StoreFailed(storeError: StoreError)

  datatype RequestError = InvalidGroup(name: string) | NotPositive | ExceedsMax

  function RequestRefused<E>(e: RequestError): CreateError<E> {
    match e
    case InvalidGroup(g) => BadGroupName(g)
    case NotPositive => ExpirationNotPositive
    case ExceedsMax => ExpirationExceedsMax
  }

  datatype Request = Request(username: string, groups: seq<string>, name: string, expiresIn: Option<int>,
                             ephemeral: bool, tenant: string)

  datatype Created = Created(plaintext: string, display: string, id: string, subscription: string, expiresAt: int)

  datatype Reason = BadFormat | NotFound | RevokedOrExpired | NoSubscription

  datatype Verdict =
    | Valid(id: string, username: string, name: string, groups: seq<string>, subscription: string, tenant: string)
    | Rejected(reason: Reason)

  datatype ValidateError = MalformedID

  predicate IsGroupChar(c: char) {
    IsDigit62(c) || c in ":._-"
  }

  predicate IsGroupName(s: string) {
    s != "" && forall c | c in s :: IsGroupChar(c)
  }

  function MaxDays(configured: int): int {
    if configured > 0 then configured else DEFAULT_MAX_DAYS
  }

  function Limit(ephemeral: bool, configuredDays: int): int {
    if ephemeral then EPHEMERAL_MAX_SECONDS else MaxDays(configuredDays) * SECONDS_PER_DAY
  }

  /** Keys that ask for no lifetime get the longest allowed. */
  function Lifetime(r: Request, configuredDays: int): int {
    if r.expiresIn.Some? then r.expiresIn.value else Limit(r.ephemeral, configuredDays)
  }

  /** The record of a key with the given text. */
  function Minted(sha: string -> string, r: Request, id: string, text: string, subscription: string,
                  configuredDays: int, now: int): Key {
    Key(id, r.name, r.username, r.groups, subscription, r.tenant, HashAPIKey(sha, text),
        Some(now + Lifetime(r, configuredDays)), None, r.ephemeral, Active)
  }

  predicate Acceptable(r: Request, configuredDays: int) {
    (forall g | g in r.groups :: IsGroupName(g)) && 0 < Lifetime(r, configuredDays) <= Limit(r.ephemeral, configuredDays)
  }

  function VerdictOn(isUuid: string -> bool, k: Key): Result<Verdict, ValidateError> {
    if IsBlank(k.subscription) then Ok(Rejected(NoSubscription))
    else if !isUuid(k.id) then Err(MalformedID)
    else Ok(Valid(k.id, k.username, k.name, k.groups, k.subscription, k.tenant))
  }

  /** `r` is what validating `key` against the stored keys must answer. */
  ghost predicate IsVerdict(sha: string -> string, isUuid: string -> bool, keys: Keys, key: string, now: int,
                            r: Result<Verdict, ValidateError>) {
    var hash := HashAPIKey(sha, key);
    if !IsValidKeyFormat(key) || hash == "" then r == Ok(Rejected(BadFormat))
    else if forall id :: !Holds(keys, id, hash) then r == Ok(Rejected(NotFound))
    else if !Accepts(keys, hash, now) then r == Ok(Rejected(RevokedOrExpired))
    else exists id :: Holds(keys, id, hash) && Effective(keys[id], now).Active? && r == VerdictOn(isUuid, keys[id])
  }

  class Service {
    const store: KeyTable
    const configuredDays: int

    constructor (store: KeyTable, configuredDays: int)
      ensures this.store == store && this.configuredDays == configuredDays
    {
      this.store, this.configuredDays := store, configuredDays;
    }

    /** The lifetime granted, or why there is none: an invalid group name is reported before anything else. */
    method CheckRequest(r: Request) returns (lifetime: Result<int, RequestError>)
      ensures lifetime.Ok? <==> Acceptable(r, configuredDays)
      ensures lifetime.Ok? ==> lifetime.value == Lifetime(r, configuredDays)
      ensures lifetime.Err? && lifetime.error.InvalidGroup? <==> exists g :: g in r.groups && !IsGroupName(g)
      ensures lifetime == Err(NotPositive) ==> Lifetime(r, configuredDays) <= 0
      ensures lifetime == Err(ExceedsMax) ==> Lifetime(r, configuredDays) > Limit(r.ephemeral, configuredDays)
    {
      for i := 0 to |r.groups|
        invariant forall j | 0 <= j < i :: IsGroupName(r.groups[j])
      {
        if !IsGroupName(r.groups[i]) {
          return Err(InvalidGroup(r.groups[i]));
        }
      }
      var maxRegular := MaxDays(configuredDays) * SECONDS_PER_DAY;
      var expiresIn;
      if r.expiresIn.None? {
        expiresIn := if r.ephemeral then EPHEMERAL_MAX_SECONDS else maxRegular;
      } else {
        expiresIn := r.expiresIn.value;
      }
      if expiresIn <= 0 {
        return Err(NotPositive);
      }
      if r.ephemeral {
        if expiresIn > EPHEMERAL_MAX_SECONDS {
          return Err(ExceedsMax);
        }
      } else if expiresIn > maxRegular {
        return Err(ExceedsMax);
      }
      return Ok(expiresIn);
    }

    /** Either stores exactly one new key, or changes nothing. */
    method CreateAPIKey<E>(sha: string -> string, r: Request, id: string, idBytes: seq<Byte>, secretBytes: seq<Byte>,
                           selected: Result<string, E>, now: int) returns (created: Result<Created, CreateError<E>>)
      requires |idBytes| == 12 && |secretBytes| == 32
      modifies store
      ensures created.Ok? <==>
                Acceptable(r, configuredDays) && selected.Ok? && selected.value != "" && id != "" && r.name != ""
      ensures created.Err? ==> store.keys == old(store.keys)
      ensures created.Ok? ==>
                && created.value.plaintext == KeyOf(idBytes, secretBytes)
                && created.value.id == id && created.value.subscription == selected.value
                && created.value.expiresAt == now + Lifetime(r, configuredDays)
                && var k := Minted(sha, r, id, created.value.plaintext, selected.value, configuredDays, now);
                   store.keys == old(store.keys)[id := k]
    {
      var checked := CheckRequest(r);
      if checked.Err? {
        return Err(RequestRefused(checked.error));
      }
      var expiresIn := checked.value;
      var expiresAt := now + expiresIn;
      var plaintext, hash, display := GenerateAPIKey(sha, idBytes, secretBytes);
      if selected.Err? {
        return Err(SelectionFailed(selected.error));
      }
      var error := store.AddKey(Key(id, r.name, r.username, r.groups, selected.value, r.tenant, hash,
                                    Some(expiresAt), None, r.ephemeral, Active));
      if error.Some? {
        return Err(StoreFailed(error.value));
      }
      return Ok(Created(plaintext, display, id, selected.value, expiresAt));
    }

    /** Keys without a subscription fail closed. */
    method ValidateAPIKey(sha: string -> string, isUuid: string -> bool, key: string, now: int)
      returns (r: Result<Verdict, ValidateError>)
      modifies store
      ensures UniqueHashes(old(store.keys)) ==> IsVerdict(sha, isUuid, old(store.keys), key, now, r)
      ensures UniqueHashes(old(store.keys)) ==>
                store.keys == if IsValidKeyFormat(key) && HashAPIKey(sha, key) != ""
                              then Looked(old(store.keys), HashAPIKey(sha, key), now) else old(store.keys)
    {
      if !IsValidKeyFormat(key) {
        return Ok(Rejected(BadFormat));
      }
      var hash := HashAPIKey(sha, key);
      if hash == "" {
        return Ok(Rejected(BadFormat));
      }
      var found := store.GetByHash(hash, now);
      if found.Err? {
        return Ok(Rejected(if found.error.KeyNotFound? then NotFound else RevokedOrExpired));
      }
      var k := found.value;
      var subscription := TrimSpace(k.subscription);
      TrimsToNothing(k.subscription);
      if subscription == "" {
        return Ok(Rejected(NoSubscription));
      }
      if !isUuid(k.id) {
        return Err(MalformedID);
      }
      return Ok(Valid(k.id, k.username, k.name, k.groups, k.subscription, k.tenant));
    }
  }

  // ---------------------------------------------------------------- from minting to validation

  /**
   A key minted under a fresh id and fresh random bytes is, whatever else happens to the store,
   valid exactly as long as it has not expired and nothing has aimed at it, and validation then
   returns the user, groups, subscription and tenant it was minted for.
   */
  lemma MintedKeyValidates(sha: string -> string, isUuid: string -> bool, w: World, r: Request, id: string,
                           idBytes: seq<Byte>, secretBytes: seq<Byte>, subscription: string, configuredDays: int,
                           ops: seq<Op>, w': World, answer: Result<Verdict, ValidateError>)
    requires IsHash(sha) && Inv(w) && id != "" && r.name != "" && subscription != ""
    requires var k := Minted(sha, r, id, KeyOf(idBytes, secretBytes), subscription, configuredDays, w.now);
             Enabled(w, Add(k)) && Runs(Apply(w, Add(k)), ops, w')
    requires IsVerdict(sha, isUuid, w'.keys, KeyOf(idBytes, secretBytes), w'.now, answer)
    ensures var k := Minted(sha, r, id, KeyOf(idBytes, secretBytes), subscription, configuredDays, w.now);
            var standing := w'.now <= w.now + Lifetime(r, configuredDays) && forall op | op in ops :: Spares(op, k);
            && (answer == Ok(Valid(id, r.username, r.name, r.groups, subscription, r.tenant)) <==>
                standing && !IsBlank(subscription) && isUuid(id))
            && (!standing ==> answer == Ok(Rejected(RevokedOrExpired)) || answer == Ok(Rejected(NotFound)))
  {
    var text := KeyOf(idBytes, secretBytes);
    var k := Minted(sha, r, id, text, subscription, configuredDays, w.now);
    var m := Apply(w, Add(k));
    MintedKeyIsValid(idBytes, secretBytes);
    HashIdentifiesKey(sha, text, text);
    StepFollows(w, Add(k));
    assert InForce(m, k);
    AcceptedExactly(m, ops, w', k);
    RunFollows(m, ops, w');
    if Accepts(w'.keys, k.hash, w'.now) {
      assert Holds(w'.keys, id, k.hash);
      assert VerdictOn(isUuid, w'.keys[id]) == VerdictOn(isUuid, k);
    }
  }
}
