/**
 Reference-counted labels on the shared infrastructure namespace.

 Each gateway's listeners ask for labels; an annotation on the namespace lists, per label key,
 the gateways that asked. Patches carry an optimistic lock, so one ensure or one cleanup is one
 atomic change of `Namespace`. `InfraNamespace` is the code, `Run` is many gateways over time.
 */
module GatewayLabels {
  import opened Ordering
  import opened Wrappers

  type Labels = map<string, string>
  type Owners = map<string, seq<string>>

  // ---------------------------------------------------------------- what a gateway asks for

  /** A listener; only those that route by namespace selector ask for labels. */
  datatype Listener = Listener(name: string, fromSelector: bool, selector: Option<Labels>)

  predicate Wants(l: Listener, k: string, v: string) {
    l.fromSelector && l.selector.Some? && k in l.selector.value && l.selector.value[k] == v
  }

  ghost predicate SomeoneWants(listeners: seq<Listener>, k: string, v: string) {
    exists i | 0 <= i < |listeners| :: Wants(listeners[i], k, v)
  }

  predicate Says(labels: Labels, k: string, v: string) {
    k in labels && labels[k] == v
  }

  /** `desired` says exactly what the listeners want between them. */
  ghost predicate IsUnion(listeners: seq<Listener>, desired: Labels) {
    forall k, v :: Says(desired, k, v) <==> SomeoneWants(listeners, k, v)
  }

  ghost predicate Agree(listeners: seq<Listener>) {
    forall k, v, u :: SomeoneWants(listeners, k, v) && SomeoneWants(listeners, k, u) ==> v == u
  }

  /** The labels all listeners ask for together, or a refusal when two of them disagree. */
  method GatewayDesiredLabels(listeners: seq<Listener>) returns (r: Option<Labels>)
    ensures r.Some? <==> Agree(listeners)
    ensures r.Some? ==> IsUnion(listeners, r.value)
  {
    var desired: Labels := map[];
    for i := 0 to |listeners|
      invariant IsUnion(listeners[..i], desired)
    {
      SomeoneMore(listeners, i);
      if !listeners[i].fromSelector || listeners[i].selector.None? {
        continue;
      }
      var wanted := listeners[i].selector.value;
      var todo := wanted.Keys;
      ghost var start := desired;
      while todo != {}
        invariant todo <= wanted.Keys
        invariant forall k, v :: Says(desired, k, v) <==> Says(start, k, v) || (Says(wanted, k, v) && k !in todo)
        decreases todo
      {
        var k :| k in todo;
        if k in desired && desired[k] != wanted[k] {
          assert Says(desired, k, desired[k]) && Wants(listeners[i], k, wanted[k]);
          assert Says(start, k, desired[k]);
          SomeoneStays(listeners, i + 1, k, desired[k]);
          SomeoneStays(listeners, i + 1, k, wanted[k]);
          return None;
        }
        assert forall v :: Says(desired, k, v) ==> v == wanted[k];
        desired := desired[k := wanted[k]];
        todo := todo - {k};
      }
    }
    assert listeners[..|listeners|] == listeners;
    return Some(desired);
  }

  lemma SomeoneMore(listeners: seq<Listener>, i: nat)
    requires i < |listeners|
    ensures forall k, v :: SomeoneWants(listeners[..i + 1], k, v) <==>
                             (SomeoneWants(listeners[..i], k, v) || Wants(listeners[i], k, v))
  {
    forall k, v
      ensures SomeoneWants(listeners[..i + 1], k, v) <==> SomeoneWants(listeners[..i], k, v) || Wants(listeners[i], k, v)
    {
      if Wants(listeners[i], k, v) { assert listeners[..i + 1][i] == listeners[i]; }
      if SomeoneWants(listeners[..i], k, v) {
        var j :| 0 <= j < i && Wants(listeners[..i][j], k, v);
        assert listeners[..i + 1][j] == listeners[..i][j];
      }
    }
  }

  lemma SomeoneStays(listeners: seq<Listener>, i: nat, k: string, v: string)
    requires i <= |listeners| && SomeoneWants(listeners[..i], k, v)
    ensures SomeoneWants(listeners, k, v)
  {
    var j :| 0 <= j < i && Wants(listeners[..i][j], k, v);
    assert listeners[..i][j] == listeners[j];
  }

  // ---------------------------------------------------------------- one change

  datatype Namespace = Namespace(labels: Labels, owners: Owners)

  function OwnersOf(owners: Owners, k: string): seq<string> {
    if k in owners then owners[k] else []
  }

  /** A Go map read: a missing key reads as the empty string. */
  function Lookup(labels: Labels, k: string): string {
    if k in labels then labels[k] else ""
  }

  function Without(s: seq<string>, g: string): (r: seq<string>)
    ensures forall x :: x in r <==> x in s && x != g
  {
    if s == [] then [] else (if s[0] == g then [] else [s[0]]) + Without(s[1..], g)
  }

  function Joined(s: seq<string>, g: string): seq<string> {
    if g in s then s else s + [g]
  }

  /** A wanted label already there with another value blocks, unless `gw` is its only owner. */
  predicate Blocked(ns: Namespace, gw: string, desired: Labels, k: string) {
    k in desired && k in ns.labels && ns.labels[k] != desired[k] && OwnersOf(ns.owners, k) != [gw]
  }

  predicate Refused(ns: Namespace, gw: string, desired: Labels) {
    exists k | k in desired :: Blocked(ns, gw, desired, k)
  }

  function StaleKeys(owners: Owners, gw: string, desired: Labels): set<string> {
    set k | k in owners && gw in owners[k] && k !in desired
  }

  predicate UpToDate(ns: Namespace, gw: string, desired: Labels) {
    && StaleKeys(ns.owners, gw, desired) == {}
    && forall k | k in desired :: Lookup(ns.labels, k) == desired[k] && gw in OwnersOf(ns.owners, k)
  }

  /** The stale keys that have no owner left once `gw` is off them. */
  function Emptied(owners: Owners, gw: string, stale: set<string>): set<string> {
    set k | k in stale && k in owners && Without(owners[k], gw) == []
  }

  /** The keys whose last owner an ensure of `desired` by `gw` removes. */
  function Dropped(owners: Owners, gw: string, desired: Labels): set<string> {
    Emptied(owners, gw, StaleKeys(owners, gw, desired))
  }

  function Ensured(ns: Namespace, gw: string, desired: Labels): Namespace {
    if UpToDate(ns, gw, desired) then ns
    else
      var dropped := Dropped(ns.owners, gw, desired);
      Namespace((ns.labels + desired) - dropped,
                map k | k in (ns.owners.Keys + desired.Keys) - dropped ::
                  if k in desired then Joined(OwnersOf(ns.owners, k), gw)
                  else if gw in ns.owners[k] then Without(ns.owners[k], gw)
                  else ns.owners[k])
  }

  function SoleKeys(owners: Owners, gw: string): set<string> {
    set k | k in owners && gw in owners[k] && |owners[k]| == 1
  }

  function Cleaned(ns: Namespace, gw: string): Namespace {
    var sole := SoleKeys(ns.owners, gw);
    Namespace(ns.labels - sole,
              map k | k in ns.owners.Keys - sole ::
                if gw in ns.owners[k] then Without(ns.owners[k], gw) else ns.owners[k])
  }

  // ---------------------------------------------------------------- the namespace object

  /** The ownership annotation: missing, not JSON, or the owners it spells out. */
  datatype Annotation = Absent | Malformed | Recorded(owners: Owners)

  datatype EnsureError = ListenersDisagree | NamespaceMissing | BadAnnotation | LabelTaken(key: string)

  class InfraNamespace {
    var found: bool
    var labels: Labels
    var annotation: Annotation

    predicate Readable()
      reads this
    {
      found && !annotation.Malformed?
    }

    function Contents(): Namespace
      reads this
    {
      Namespace(labels, if annotation.Recorded? then annotation.owners else map[])
    }

    /** An emptied ownership map removes the annotation altogether. */
    method Write(newLabels: Labels, newOwners: Owners)
      modifies this`labels, this`annotation
      ensures labels == newLabels && !annotation.Malformed? && Contents() == Namespace(newLabels, newOwners)
    {
      labels := newLabels;
      annotation := if newOwners == map[] then Absent else Recorded(newOwners);
    }

    /** Applies what gateway `gw` asks for: refused without a trace, or exactly `Ensured`. */
    method EnsureGatewayLabels(gw: string, listeners: seq<Listener>) returns (r: Result<Labels, EnsureError>)
      modifies this`labels, this`annotation
      ensures r.Err? ==> labels == old(labels) && annotation == old(annotation)
      ensures r.Err? && r.error.ListenersDisagree? <==> !Agree(listeners)
      ensures r.Ok? ==> IsUnion(listeners, r.value)
      ensures r.Ok? && !old(found) ==> r.value == map[] && labels == old(labels) && annotation == old(annotation)
      ensures r.Ok? && old(found) ==>
                && old(Readable()) && Readable() && !Refused(old(Contents()), gw, r.value)
                && Contents() == Ensured(old(Contents()), gw, r.value)
      ensures r.Err? && r.error.NamespaceMissing? ==> !old(found) && exists k, v :: SomeoneWants(listeners, k, v)
      ensures r.Err? && r.error.BadAnnotation? ==> old(annotation).Malformed?
      ensures r.Err? && r.error.LabelTaken? ==>
                exists desired: Labels ::
                  IsUnion(listeners, desired) && Blocked(old(Contents()), gw, desired, r.error.key)
    {
      var wanted := GatewayDesiredLabels(listeners);
      if wanted.None? {
        return Err(ListenersDisagree);
      }
      var desired := wanted.value;
      if !found {
        if desired == map[] {
          return Ok(desired);
        }
        var k :| k in desired;
        assert Says(desired, k, desired[k]);
        return Err(NamespaceMissing);
      }
      if annotation.Malformed? {
        return Err(BadAnnotation);
      }
      var ns := Contents();
      var todo := desired.Keys;
      while todo != {}
        invariant todo <= desired.Keys
        invariant forall k | k in desired.Keys - todo :: !Blocked(ns, gw, desired, k)
        decreases todo
      {
        var k :| k in todo;
        todo := todo - {k};
        if k !in labels || labels[k] == desired[k] {
          continue;
        }
        var owners := OwnersOf(ns.owners, k);
        if |owners| == 0 {
          return Err(LabelTaken(k));
        }
        if |owners| > 1 || owners[0] != gw {
          return Err(LabelTaken(k));
        }
        assert owners == [gw];
      }
      assert !Refused(ns, gw, desired);
      var stale := StaleKeys(ns.owners, gw, desired);
      if stale == {} && forall k | k in desired :: Lookup(labels, k) == desired[k] && gw in OwnersOf(ns.owners, k) {
        return Ok(desired);
      }
      var newLabels, newOwners := AddDesired(ns, gw, desired);
      StaleKeysStay(ns, gw, desired, newOwners);
      newLabels, newOwners := RemoveStale(gw, stale, newLabels, newOwners);
      PatchIsEnsured(ns, gw, desired, newLabels, newOwners);
      Write(newLabels, newOwners);
      return Ok(desired);
    }

    /** Gives every wanted label its value and `gw` its place among the owners. */
    static method AddDesired(ns: Namespace, gw: string, desired: Labels) returns (labels: Labels, owners: Owners)
      ensures labels == ns.labels + desired
      ensures owners.Keys == ns.owners.Keys + desired.Keys
      ensures forall k | k in owners :: owners[k] == if k in desired then Joined(OwnersOf(ns.owners, k), gw) else ns.owners[k]
    {
      labels, owners := ns.labels, ns.owners;
      var todo, done: set<string> := desired.Keys, {};
      while todo != {}
        invariant todo !! done && todo + done == desired.Keys
        invariant forall k :: k in labels <==> k in ns.labels || k in done
        invariant forall k | k in labels :: labels[k] == if k in done then desired[k] else ns.labels[k]
        invariant forall k :: k in owners <==> k in ns.owners || k in done
        invariant forall k | k in owners :: owners[k] == if k in done then Joined(OwnersOf(ns.owners, k), gw) else ns.owners[k]
        decreases todo
      {
        var k :| k in todo;
        todo, done := todo - {k}, done + {k};
        labels := labels[k := desired[k]];
        if gw !in OwnersOf(owners, k) {
          owners := owners[k := OwnersOf(owners, k) + [gw]];
        }
      }
    }

    /** Takes `gw` off the keys it no longer wants, and a key off when no owner is left. */
    static method RemoveStale(gw: string, stale: set<string>, labels0: Labels, owners0: Owners)
      returns (labels: Labels, owners: Owners)
      requires stale <= owners0.Keys
      ensures labels == labels0 - Emptied(owners0, gw, stale)
      ensures owners.Keys == owners0.Keys - Emptied(owners0, gw, stale)
      ensures forall k | k in owners :: owners[k] == if k in stale then Without(owners0[k], gw) else owners0[k]
    {
      labels, owners := labels0, owners0;
      var todo := stale;
      while todo != {}
        invariant todo <= stale
        invariant forall k :: k in labels <==> k in labels0 && (k in todo || k !in Emptied(owners0, gw, stale))
        invariant forall k | k in labels :: labels[k] == labels0[k]
        invariant forall k :: k in owners <==> k in owners0 && (k in todo || k !in Emptied(owners0, gw, stale))
        invariant forall k | k in owners :: owners[k] == if k in stale && k !in todo then Without(owners0[k], gw) else owners0[k]
        decreases todo
      {
        var k :| k in todo;
        todo := todo - {k};
        var left := Without(owners[k], gw);
        owners := owners[k := left];
        if |left| == 0 {
          labels := labels - {k};
          owners := owners - {k};
        }
      }
    }

    /** Adding the wanted labels leaves the stale keys alone. */
    static lemma StaleKeysStay(ns: Namespace, gw: string, desired: Labels, owners: Owners)
      requires owners.Keys == ns.owners.Keys + desired.Keys
      requires forall k | k in owners :: owners[k] == if k in desired then Joined(OwnersOf(ns.owners, k), gw) else ns.owners[k]
      ensures StaleKeys(ns.owners, gw, desired) <= owners.Keys
      ensures Emptied(owners, gw, StaleKeys(ns.owners, gw, desired)) == Dropped(ns.owners, gw, desired)
    {
    }

    static lemma PatchIsEnsured(ns: Namespace, gw: string, desired: Labels, labels: Labels, owners: Owners)
      requires !UpToDate(ns, gw, desired)
      requires var dropped := Dropped(ns.owners, gw, desired);
               && labels == (ns.labels + desired) - dropped
               && owners.Keys == (ns.owners.Keys + desired.Keys) - dropped
      requires forall k | k in owners ::
                 owners[k] == if k in desired then Joined(OwnersOf(ns.owners, k), gw)
                              else if gw in ns.owners[k] then Without(ns.owners[k], gw)
                              else ns.owners[k]
      ensures Namespace(labels, owners) == Ensured(ns, gw, desired)
    {
      assert owners == Ensured(ns, gw, desired).owners;
    }

    /** Takes a departing gateway off every key; an unreadable annotation is left alone. */
    method CleanupGatewayLabels(gw: string)
      modifies this`labels, this`annotation
      ensures !old(Readable()) ==> labels == old(labels) && annotation == old(annotation)
      ensures old(Readable()) ==> Readable() && Contents() == Cleaned(old(Contents()), gw)
    {
      if !found || annotation.Malformed? {
        return;
      }
      var ns := Contents();
      var toRemove, toUnown: set<string> := {}, {};
      var todo := ns.owners.Keys;
      while todo != {}
        invariant todo <= ns.owners.Keys
        invariant toRemove == SoleKeys(ns.owners, gw) - todo
        invariant toUnown == (set k | k in ns.owners && gw in ns.owners[k] && |ns.owners[k]| != 1) - todo
        decreases todo
      {
        var k :| k in todo;
        todo := todo - {k};
        if gw !in ns.owners[k] {
          continue;
        }
        if |ns.owners[k]| == 1 {
          toRemove := toRemove + {k};
        } else {
          toUnown := toUnown + {k};
        }
      }
      if toRemove == {} && toUnown == {} {
        assert Cleaned(ns, gw).owners == ns.owners && Cleaned(ns, gw).labels == ns.labels;
        return;
      }
      var owners := ns.owners - toRemove;
      owners := map k | k in owners :: if k in toUnown then Without(owners[k], gw) else owners[k];
      assert owners == Cleaned(ns, gw).owners;
      Write(labels - toRemove, owners);
    }
  }

  // ---------------------------------------------------------------- many gateways over time

  /** The namespace, and what each gateway asked for the last time an ensure of its went through. */
  datatype Run = Run(ns: Namespace, asked: map<string, Labels>)

  datatype Step =
    | Ensure(gw: string, desired: Labels)
    | Cleanup(gw: string)
    | SetOutside(key: string, value: string)
    | DropOutside(key: string)

  /** Other writers keep off the keys gateways own. */
  predicate Allowed(r: Run, s: Step) {
    (s.SetOutside? || s.DropOutside?) ==> s.key !in r.ns.owners
  }

  function Apply(r: Run, s: Step): Run {
    match s
    case Ensure(gw, desired) =>
      if Refused(r.ns, gw, desired) then r
      else Run(Ensured(r.ns, gw, desired), r.asked[gw := desired])
    case Cleanup(gw) => Run(Cleaned(r.ns, gw), r.asked - {gw})
    case SetOutside(k, v) => r.(ns := r.ns.(labels := r.ns.labels[k := v]))
    case DropOutside(k) => r.(ns := r.ns.(labels := r.ns.labels - {k}))
  }

  /** An owned key is a present label, with the value every one of its owners asked for. */
  ghost predicate KeyInv(r: Run, k: string)
    requires k in r.ns.owners
  {
    && r.ns.owners[k] != [] && NoDuplicates(r.ns.owners[k])
    && k in r.ns.labels
    && forall g | g in r.ns.owners[k] :: g in r.asked && k in r.asked[g] && r.asked[g][k] == r.ns.labels[k]
  }

  ghost predicate Inv(r: Run) {
    && (forall k | k in r.ns.owners :: KeyInv(r, k))
    && (forall g, k | g in r.asked && k in r.asked[g] :: g in OwnersOf(r.ns.owners, k))
  }

  lemma {:induction false} WithoutKeepsDistinct(s: seq<string>, g: string)
    requires NoDuplicates(s)
    ensures NoDuplicates(Without(s, g))
    ensures g !in s ==> Without(s, g) == s
    ensures Without(s, g) == [] <==> (s == [] || s == [g])
  {
    if s != [] {
      assert forall i | 0 <= i < |s[1..]| :: s[1..][i] == s[i + 1];
      WithoutKeepsDistinct(s[1..], g);
      assert s == [s[0]] + s[1..];
      assert s[0] !in Without(s[1..], g);
    }
  }

  /** After an ensure, every owner of a key asked for the value it has. */
  lemma EnsuredOwners(r: Run, gw: string, desired: Labels, k: string, g: string)
    requires Inv(r) && !Refused(r.ns, gw, desired)
    requires var ns' := Ensured(r.ns, gw, desired); k in ns'.owners && g in ns'.owners[k]
    ensures var r' := Apply(r, Ensure(gw, desired));
            g in r'.asked && k in r'.asked[g] && k in r'.ns.labels && r'.asked[g][k] == r'.ns.labels[k]
  {
    assert k in desired ==> !Blocked(r.ns, gw, desired, k);
    if g == gw {
      assert UpToDate(r.ns, gw, desired) && k !in desired ==> k in StaleKeys(r.ns.owners, gw, desired);
      assert k in desired;
    } else {
      assert k in r.ns.owners && KeyInv(r, k);
      assert g in r.ns.owners[k];
    }
  }

  lemma EnsuredDistinct(r: Run, gw: string, desired: Labels, k: string)
    requires Inv(r) && !Refused(r.ns, gw, desired) && k in Ensured(r.ns, gw, desired).owners
    ensures Ensured(r.ns, gw, desired).owners[k] != [] && NoDuplicates(Ensured(r.ns, gw, desired).owners[k])
  {
    if k in r.ns.owners {
      assert KeyInv(r, k);
      WithoutKeepsDistinct(r.ns.owners[k], gw);
    }
  }

  lemma EnsuredKey(r: Run, gw: string, desired: Labels, k: string)
    requires Inv(r) && !Refused(r.ns, gw, desired) && k in Ensured(r.ns, gw, desired).owners
    ensures KeyInv(Apply(r, Ensure(gw, desired)), k)
  {
    var r' := Apply(r, Ensure(gw, desired));
    EnsuredDistinct(r, gw, desired, k);
    assert r'.ns.owners[k][0] in r'.ns.owners[k];
    forall g | g in r'.ns.owners[k]
      ensures g in r'.asked && k in r'.asked[g] && k in r'.ns.labels && r'.asked[g][k] == r'.ns.labels[k]
    {
      EnsuredOwners(r, gw, desired, k, g);
    }
  }

  lemma EnsureKeepsInv(r: Run, gw: string, desired: Labels)
    requires Inv(r)
    ensures Inv(Apply(r, Ensure(gw, desired)))
  {
    var r' := Apply(r, Ensure(gw, desired));
    if !Refused(r.ns, gw, desired) {
      forall k | k in r'.ns.owners ensures KeyInv(r', k) {
        EnsuredKey(r, gw, desired, k);
      }
      forall g, k | g in r'.asked && k in r'.asked[g] ensures g in OwnersOf(r'.ns.owners, k) {
        if g != gw {
          assert g in OwnersOf(r.ns.owners, k);
        }
      }
    }
  }

  lemma CleanupKeepsInv(r: Run, gw: string)
    requires Inv(r)
    ensures Inv(Apply(r, Cleanup(gw)))
  {
    var r' := Apply(r, Cleanup(gw));
    forall k | k in r'.ns.owners ensures KeyInv(r', k) {
      assert KeyInv(r, k);
      WithoutKeepsDistinct(r.ns.owners[k], gw);
    }
    forall g, k | g in r'.asked && k in r'.asked[g] ensures g in OwnersOf(r'.ns.owners, k) {
      assert g in OwnersOf(r.ns.owners, k) && g != gw;
      assert k !in SoleKeys(r.ns.owners, gw);
    }
  }

  lemma StepKeepsInv(r: Run, s: Step)
    requires Inv(r) && Allowed(r, s)
    ensures Inv(Apply(r, s))
  {
    match s
    case Ensure(gw, desired) => EnsureKeepsInv(r, gw, desired);
    case Cleanup(gw) => CleanupKeepsInv(r, gw);
    case _ =>
      forall k | k in r.ns.owners ensures KeyInv(Apply(r, s), k) { assert KeyInv(r, k); }
  }

  ghost predicate AllAllowed(r: Run, steps: seq<Step>)
    decreases |steps|
  {
    steps == [] || (Allowed(r, steps[0]) && AllAllowed(Apply(r, steps[0]), steps[1..]))
  }

  function ApplyAll(r: Run, steps: seq<Step>): Run
    decreases |steps|
  {
    if steps == [] then r else ApplyAll(Apply(r, steps[0]), steps[1..])
  }

  /** From a namespace no gateway has touched, every run of any number of gateways keeps the count right. */
  lemma {:induction false} RunKeepsInv(r: Run, steps: seq<Step>)
    requires Inv(r) && AllAllowed(r, steps)
    ensures Inv(ApplyAll(r, steps))
    decreases |steps|
  {
    if steps != [] {
      StepKeepsInv(r, steps[0]);
      RunKeepsInv(Apply(r, steps[0]), steps[1..]);
    }
  }

  lemma OwnershipIsExact(labels: Labels, steps: seq<Step>)
    requires AllAllowed(Run(Namespace(labels, map[]), map[]), steps)
    ensures var r := ApplyAll(Run(Namespace(labels, map[]), map[]), steps);
            && (forall k | k in r.ns.owners :: KeyInv(r, k))
            && forall g, k :: g in OwnersOf(r.ns.owners, k) <==> g in r.asked && k in r.asked[g]
  {
    var start := Run(Namespace(labels, map[]), map[]);
    RunKeepsInv(start, steps);
    var r := ApplyAll(start, steps);
    forall g, k ensures g in OwnersOf(r.ns.owners, k) <==> g in r.asked && k in r.asked[g] {
      if k in r.ns.owners { assert KeyInv(r, k); }
    }
  }

  /** After an ensure of `gw` goes through, `gw` owns its desired keys and no others, and they are set. */
  lemma EnsureOwnsExactlyDesired(r: Run, gw: string, desired: Labels)
    requires Inv(r) && !Refused(r.ns, gw, desired)
    ensures var ns := Apply(r, Ensure(gw, desired)).ns;
            && (forall k :: gw in OwnersOf(ns.owners, k) <==> k in desired)
            && forall k | k in desired :: k in ns.labels && ns.labels[k] == desired[k]
  {
    EnsureKeepsInv(r, gw, desired);
    var r' := Apply(r, Ensure(gw, desired));
    forall k ensures gw in OwnersOf(r'.ns.owners, k) <==> k in desired {
      if k in r'.ns.owners { assert KeyInv(r', k); }
    }
    forall k | k in desired ensures k in r'.ns.labels && r'.ns.labels[k] == desired[k] {
      assert gw in OwnersOf(r'.ns.owners, k);
      assert KeyInv(r', k);
    }
  }

  /** An ensure is refused exactly when some other gateway, or no gateway at all, stands behind a different value. */
  lemma RefusedExactlyWhenAnotherHoldsTheValue(r: Run, gw: string, desired: Labels)
    requires Inv(r)
    ensures Refused(r.ns, gw, desired) <==>
              exists k | k in desired :: k in r.ns.labels && r.ns.labels[k] != desired[k]
                && (k !in r.ns.owners || exists g | g in r.ns.owners[k] :: g != gw)
  {
    forall k | k in desired && k in r.ns.labels && r.ns.labels[k] != desired[k]
      ensures Blocked(r.ns, gw, desired, k) <==> (k !in r.ns.owners || exists g | g in r.ns.owners[k] :: g != gw)
    {
      if k in r.ns.owners {
        assert KeyInv(r, k);
        var owners := r.ns.owners[k];
        assert owners[0] in owners;
        if owners != [gw] && owners[0] == gw {
          assert owners[1] in owners && owners[1] != gw;
        }
      }
    }
  }

  predicate IsBy(s: Step, g: string) {
    (s.Ensure? || s.Cleanup?) && s.gw == g
  }

  /** No step changes a label, or the ownership, of a gateway that did not take the step. */
  lemma OthersKeepTheirLabels(r: Run, s: Step, g: string, k: string)
    requires Inv(r) && Allowed(r, s) && !IsBy(s, g) && g in OwnersOf(r.ns.owners, k)
    ensures var r' := Apply(r, s);
            g in OwnersOf(r'.ns.owners, k) && k in r'.ns.labels && r'.ns.labels[k] == r.ns.labels[k]
  {
    assert KeyInv(r, k);
    StepKeepsInv(r, s);
    var r' := Apply(r, s);
    assert g in r'.asked && r'.asked[g] == r.asked[g];
    assert KeyInv(r', k);
  }

  /** A key disappears exactly when its last owner leaves it. */
  lemma GoneExactlyWithLastOwner(r: Run, s: Step, k: string)
    requires Inv(r) && Allowed(r, s) && k in r.ns.owners
    ensures k !in Apply(r, s).ns.labels <==>
              (s.Ensure? || s.Cleanup?) && r.ns.owners[k] == [s.gw]
              && (s.Ensure? ==> k !in s.desired && !Refused(r.ns, s.gw, s.desired))
  {
    assert KeyInv(r, k);
    if s.Ensure? && !Refused(r.ns, s.gw, s.desired) {
      WithoutKeepsDistinct(r.ns.owners[k], s.gw);
      assert k in StaleKeys(r.ns.owners, s.gw, s.desired) <==> s.gw in r.ns.owners[k] && k !in s.desired;
    } else if s.Cleanup? {
      assert k in SoleKeys(r.ns.owners, s.gw) <==> r.ns.owners[k] == [s.gw];
    }
  }
}
