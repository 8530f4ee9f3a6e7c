/**
 Exclusive gateway claims.

 A claim is a ConfigMap whose name is derived from the gateway and which only its creator may
 keep. `World` is the shared object store plus one reconcile per AITenant; every API call of
 that reconcile is one `Step`, so calls of different tenants interleave freely. Lists read the
 store as it is, or, among the `LaxStep`s, as it once was; deletes go by name alone. `ClaimStore`
 is the same code run without interference.
 */
module GatewayClaims {
  import opened Wrappers

  datatype Ref = Ref(namespace: string, name: string)

  /** The controller owner reference of a claim. */
  datatype Owner = Owner(kind: string, name: string, uid: string)

  /** An AITenant: the uid tells a recreated tenant from its predecessor of the same name. */
  datatype Tenant = Tenant(name: string, namespace: string, uid: string)

  datatype Claim = Claim(controller: Option<Owner>, annotatedName: string, annotatedNamespace: string,
                         data: Ref, version: nat)

  predicate ValidRef(ref: Ref) {
    ref.namespace != "" && ref.name != ""
  }

  function ControllerOf(t: Tenant): Owner {
    Owner("AITenant", t.name, t.uid)
  }

  function NewClaim(t: Tenant, ref: Ref, version: nat): Claim {
    Claim(Some(ControllerOf(t)), t.name, t.namespace, ref, version)
  }

  predicate AnnotatedFor(c: Claim, t: Tenant) {
    c.annotatedName == t.name && c.annotatedNamespace == t.namespace
  }

  /** Owner references decide when they carry a uid; annotations only speak for older claims. */
  predicate IsOwned(c: Claim, t: Tenant) {
    match c.controller
    case None => AnnotatedFor(c, t)
    case Some(o) =>
      if o.kind != "AITenant" || o.name != t.name then false
      else if t.uid != "" && o.uid != "" then o.uid == t.uid
      else AnnotatedFor(c, t)
  }

  function OwnedNames(claims: map<string, Claim>, t: Tenant): set<string> {
    set n | n in claims && IsOwned(claims[n], t)
  }

  // ---------------------------------------------------------------- interleaved steps

  /** Where a tenant's reconcile stands: which API call comes next, and what it has read so far. */
  datatype Proc =
    | Idle
    | Creating(ref: Ref)
    | Getting(ref: Ref)
    | Updating(ref: Ref, seen: Claim)
    | Listing(ref: Ref)
    | Deleting(ref: Ref, todo: set<string>)
    | ReleaseListing
    | Releasing(todo: set<string>)

  /** `held` records each tenant whose last ensure succeeded, until it retargets, releases or leaves. */
  datatype World = World(claims: map<string, Claim>, nextVersion: nat,
                         procs: map<Tenant, Proc>, held: map<Tenant, Ref>)

  datatype Step =
    | Arrive(t: Tenant)
    | Leave(t: Tenant)
    | StartEnsure(t: Tenant, ref: Ref)
    | StartRelease(t: Tenant)
    | Create(t: Tenant)
    | Get(t: Tenant)
    | Update(t: Tenant)
    | List(t: Tenant)
    | Delete(t: Tenant, name: string)
    | Finish(t: Tenant)
    | Fail(t: Tenant)
    | Collect(name: string)

  ghost predicate Enabled(w: World, s: Step) {
    && (s.Arrive? || s.Collect? || s.t in w.procs)
    && match s
    case Arrive(t) => t.uid != "" && forall o | o in w.procs :: o.name != t.name
    case Leave(t) => w.procs[t].Idle?
    case StartEnsure(t, _) => w.procs[t].Idle?
    case StartRelease(t) => w.procs[t].Idle?
    case Create(t) => w.procs[t].Creating?
    case Get(t) => w.procs[t].Getting?
    case Update(t) => w.procs[t].Updating?
    case List(t) => w.procs[t].Listing? || w.procs[t].ReleaseListing?
    case Delete(t, n) => (w.procs[t].Deleting? || w.procs[t].Releasing?) && n in w.procs[t].todo
    case Finish(t) => (w.procs[t].Deleting? || w.procs[t].Releasing?) && w.procs[t].todo == {}
    case Fail(t) => true
    case Collect(n) =>
      // The garbage collector removes a claim whose owner no longer exists.
      n in w.claims && w.claims[n].controller.Some? && w.claims[n].controller.value.uid != ""
      && forall o | o in w.procs :: o.uid != w.claims[n].controller.value.uid
  }

  function Goto(w: World, t: Tenant, p: Proc): World {
    w.(procs := w.procs[t := p])
  }

  function Apply(nameOf: Ref -> string, w: World, s: Step): World
    requires Enabled(w, s)
  {
    match s
    case Arrive(t) => Goto(w, t, Idle)
    case Leave(t) => w.(procs := w.procs - {t}, held := w.held - {t})
    case StartEnsure(t, ref) =>
      if !ValidRef(ref) then w
      else if t in w.held && w.held[t] != ref then Goto(w.(held := w.held - {t}), t, Creating(ref))
      else Goto(w, t, Creating(ref))
    case StartRelease(t) => Goto(w.(held := w.held - {t}), t, ReleaseListing)
    case Create(t) =>
      var ref := w.procs[t].ref;
      if nameOf(ref) in w.claims then Goto(w, t, Getting(ref))
      else Goto(w.(claims := w.claims[nameOf(ref) := NewClaim(t, ref, w.nextVersion)],
                   nextVersion := w.nextVersion + 1), t, Listing(ref))
    case Get(t) =>
      var ref := w.procs[t].ref;
      if nameOf(ref) !in w.claims then Goto(w, t, Idle)
      else
        var c := w.claims[nameOf(ref)];
        if !IsOwned(c, t) || c.data != ref then Goto(w, t, Idle)
        else if c.controller == Some(ControllerOf(t)) then Goto(w, t, Listing(ref))
        else Goto(w, t, Updating(ref, c))
    case Update(t) =>
      var Updating(ref, seen) := w.procs[t];
      // An update carries the version it was computed from and is refused when that has moved on.
      if nameOf(ref) in w.claims && w.claims[nameOf(ref)].version == seen.version then
        Goto(w.(claims := w.claims[nameOf(ref) := seen.(controller := Some(ControllerOf(t)), version := w.nextVersion)],
                nextVersion := w.nextVersion + 1), t, Listing(ref))
      else Goto(w, t, Idle)
    case List(t) => ListFrom(nameOf, w, t, w.claims)
    case Delete(t, n) =>
      var w' := w.(claims := w.claims - {n});
      if w.procs[t].Deleting? then Goto(w', t, Deleting(w.procs[t].ref, w.procs[t].todo - {n}))
      else Goto(w', t, Releasing(w.procs[t].todo - {n}))
    case Finish(t) =>
      if w.procs[t].Deleting? then Goto(w.(held := w.held[t := w.procs[t].ref]), t, Idle)
      else Goto(w, t, Idle)
    case Fail(t) => Goto(w, t, Idle)
    case Collect(n) => w.(claims := w.claims - {n})
  }

  /** The list call of `t`, answered with the claims in `seen`. */
  function ListFrom(nameOf: Ref -> string, w: World, t: Tenant, seen: map<string, Claim>): World
    requires t in w.procs && (w.procs[t].Listing? || w.procs[t].ReleaseListing?)
  {
    if w.procs[t].Listing? then
      Goto(w, t, Deleting(w.procs[t].ref, OwnedNames(seen, t) - {nameOf(w.procs[t].ref)}))
    else Goto(w, t, Releasing(OwnedNames(seen, t)))
  }

  // ---------------------------------------------------------------- what every step keeps

  /** The store holds the claim for `ref`, under `t`'s own uid and with `ref` as its content. */
  predicate Holds(nameOf: Ref -> string, w: World, t: Tenant, ref: Ref) {
    nameOf(ref) in w.claims
    && w.claims[nameOf(ref)].controller == Some(ControllerOf(t))
    && w.claims[nameOf(ref)].data == ref
  }

  ghost predicate ProcInv(nameOf: Ref -> string, w: World, t: Tenant)
    requires t in w.procs
  {
    match w.procs[t]
    case Updating(ref, seen) =>
      && IsOwned(seen, t) && seen.data == ref && seen.version < w.nextVersion
      && (nameOf(ref) in w.claims && w.claims[nameOf(ref)].version == seen.version ==> w.claims[nameOf(ref)] == seen)
    case Listing(ref) => Holds(nameOf, w, t, ref)
    case Deleting(ref, todo) =>
      Holds(nameOf, w, t, ref) && OwnedNames(w.claims, t) == todo + {nameOf(ref)} && nameOf(ref) !in todo
    case Releasing(todo) => OwnedNames(w.claims, t) == todo
    case _ => true
  }

  ghost predicate HeldInv(nameOf: Ref -> string, w: World, t: Tenant)
    requires t in w.held
  {
    && t in w.procs
    && Holds(nameOf, w, t, w.held[t])
    && OwnedNames(w.claims, t) == {nameOf(w.held[t])}
    && (match w.procs[t]
        case Idle => true
        case ReleaseListing => false
        case Releasing(_) => false
        case p => p.ref == w.held[t])
  }

  /** Names are unique among the tenants that exist, and every one has a uid. */
  ghost predicate Identities(w: World) {
    && (forall t, o | t in w.procs && o in w.procs && t.name == o.name :: t == o)
    && (forall t | t in w.procs :: t.uid != "")
    && w.held.Keys <= w.procs.Keys
  }

  ghost predicate Versioned(w: World) {
    forall n | n in w.claims :: w.claims[n].version < w.nextVersion
  }

  ghost predicate Inv(nameOf: Ref -> string, w: World) {
    && Identities(w)
    && Versioned(w)
    && (forall t | t in w.procs :: ProcInv(nameOf, w, t))
    && (forall t | t in w.held :: HeldInv(nameOf, w, t))
  }

  /** Whatever step one tenant takes, another tenant's claims stay exactly as they were. */
  lemma OthersKeepTheirClaims(nameOf: Ref -> string, w: World, s: Step, o: Tenant)
    requires Inv(nameOf, w) && Enabled(w, s) && o in w.procs
    requires s.Collect? || s.Arrive? || s.t != o
    ensures var w' := Apply(nameOf, w, s);
            && OwnedNames(w'.claims, o) == OwnedNames(w.claims, o)
            && forall n | n in OwnedNames(w.claims, o) :: w'.claims[n] == w.claims[n]
  {
    var w' := Apply(nameOf, w, s);
    match s
    case Create(t) =>
    case Update(t) =>
      var Updating(ref, seen) := w.procs[t];
      assert ProcInv(nameOf, w, t);
      assert !IsOwned(seen, o);
    case Delete(t, n) =>
      assert ProcInv(nameOf, w, t);
      assert n in OwnedNames(w.claims, t);
      assert !IsOwned(w.claims[n], o);
    case Collect(n) =>
      assert !IsOwned(w.claims[n], o);
    case _ =>
  }

  /** The acting tenant's own invariants survive its own step. */
  lemma ActorKeepsInv(nameOf: Ref -> string, w: World, s: Step)
    requires Inv(nameOf, w) && Enabled(w, s) && !s.Arrive? && !s.Collect? && !s.Leave?
    ensures var w' := Apply(nameOf, w, s);
            ProcInv(nameOf, w', s.t) && (s.t in w'.held ==> HeldInv(nameOf, w', s.t))
  {
    var t := s.t;
    match s
    case Create(_) => CreateKeepsInv(nameOf, w, t);
    case Update(_) => UpdateKeepsActor(nameOf, w, t);
    case Delete(_, n) => DeleteKeepsActor(nameOf, w, t, n);
    case Get(_) => LookKeepsActor(nameOf, w, s);
    case List(_) => LookKeepsActor(nameOf, w, s);
    case _ => TurnKeepsActor(nameOf, w, s);
  }

  lemma UpdateKeepsActor(nameOf: Ref -> string, w: World, t: Tenant)
    requires Inv(nameOf, w) && Enabled(w, Update(t))
    ensures var w' := Apply(nameOf, w, Update(t));
            ProcInv(nameOf, w', t) && (t in w'.held ==> HeldInv(nameOf, w', t))
  {
    assert ProcInv(nameOf, w, t);
    if t in w.held { assert HeldInv(nameOf, w, t); }
  }

  lemma DeleteKeepsActor(nameOf: Ref -> string, w: World, t: Tenant, n: string)
    requires Inv(nameOf, w) && Enabled(w, Delete(t, n))
    ensures var w' := Apply(nameOf, w, Delete(t, n));
            ProcInv(nameOf, w', t) && (t in w'.held ==> HeldInv(nameOf, w', t))
  {
    var w' := Apply(nameOf, w, Delete(t, n));
    assert ProcInv(nameOf, w, t);
    assert t in w.held ==> HeldInv(nameOf, w, t);
    assert OwnedNames(w'.claims, t) == OwnedNames(w.claims, t) - {n};
  }

  lemma LookKeepsActor(nameOf: Ref -> string, w: World, s: Step)
    requires Inv(nameOf, w) && Enabled(w, s) && (s.Get? || s.List?)
    ensures var w' := Apply(nameOf, w, s);
            ProcInv(nameOf, w', s.t) && (s.t in w'.held ==> HeldInv(nameOf, w', s.t))
  {
    assert ProcInv(nameOf, w, s.t);
    if s.t in w.held { assert HeldInv(nameOf, w, s.t); }
    match s
    case Get(_) =>
    case List(_) =>
  }

  /** Steps that begin or end a reconcile. */
  lemma TurnKeepsActor(nameOf: Ref -> string, w: World, s: Step)
    requires Inv(nameOf, w) && Enabled(w, s) && (s.StartEnsure? || s.StartRelease? || s.Finish? || s.Fail?)
    ensures var w' := Apply(nameOf, w, s);
            ProcInv(nameOf, w', s.t) && (s.t in w'.held ==> HeldInv(nameOf, w', s.t))
  {
    assert ProcInv(nameOf, w, s.t);
    if s.t in w.held { assert HeldInv(nameOf, w, s.t); }
    match s
    case StartEnsure(_, _) =>
    case StartRelease(_) =>
    case Finish(_) =>
    case Fail(_) =>
  }

  lemma CreateKeepsInv(nameOf: Ref -> string, w: World, t: Tenant)
    requires Inv(nameOf, w) && Enabled(w, Create(t))
    ensures var w' := Apply(nameOf, w, Create(t));
            ProcInv(nameOf, w', t) && (t in w'.held ==> HeldInv(nameOf, w', t))
  {
    if t in w.held { assert HeldInv(nameOf, w, t); }
  }

  /** A step moves only the reconcile of the tenant that takes it. */
  ghost predicate OnlyMoves(w: World, w': World, o: Tenant) {
    && o in w.procs && o in w'.procs && w'.procs[o] == w.procs[o]
    && (o in w.held <==> o in w'.held) && (o in w.held ==> w'.held[o] == w.held[o])
  }

  /** A step rewrites claims only under new versions. */
  ghost predicate FreshWrites(w: World, w': World) {
    && w.nextVersion <= w'.nextVersion
    && forall n | n in w'.claims ::
         (n in w.claims && w'.claims[n] == w.claims[n]) || w.nextVersion <= w'.claims[n].version < w'.nextVersion
  }

  lemma StepOnlyMoves(nameOf: Ref -> string, w: World, s: Step, o: Tenant)
    requires Enabled(w, s) && o in w.procs
    requires s.Collect? || s.Arrive? || s.t != o
    requires s.Arrive? ==> s.t !in w.procs
    ensures OnlyMoves(w, Apply(nameOf, w, s), o)
  {}

  lemma StepWritesFresh(nameOf: Ref -> string, w: World, s: Step)
    requires Enabled(w, s)
    ensures FreshWrites(w, Apply(nameOf, w, s))
  {}

  lemma StepKeepsIdentities(nameOf: Ref -> string, w: World, s: Step)
    requires Enabled(w, s) && Identities(w)
    ensures Identities(Apply(nameOf, w, s))
  {
    var w' := Apply(nameOf, w, s);
    if s.Leave? {
      assert w'.procs.Keys == w.procs.Keys - {s.t};
    } else if s.Arrive? {
      assert w'.procs.Keys == w.procs.Keys + {s.t};
    } else {
      StepKeepsTenants(nameOf, w, s);
    }
  }

  /** Only arriving and leaving change who there is, and only those who are there hold claims. */
  lemma StepKeepsTenants(nameOf: Ref -> string, w: World, s: Step)
    requires Enabled(w, s) && !s.Arrive? && !s.Leave? && w.held.Keys <= w.procs.Keys
    ensures var w' := Apply(nameOf, w, s); w'.procs.Keys == w.procs.Keys && w'.held.Keys <= w.procs.Keys
  {
    var w' := Apply(nameOf, w, s);
    if !s.Collect? {
      assert w.procs[s.t := w'.procs[s.t]].Keys == w.procs.Keys;
    }
    match s
    case StartEnsure(_, _) =>
    case StartRelease(_) =>
    case Create(_) =>
    case Get(_) =>
    case Update(_) =>
    case List(_) =>
    case Delete(_, _) =>
    case Finish(t) => assert w'.held.Keys <= w.held.Keys + {t};
    case Fail(_) =>
    case Collect(_) =>
  }

  lemma UnnoticedKeepsInv(nameOf: Ref -> string, w: World, w': World, o: Tenant)
    requires OnlyMoves(w, w', o) && FreshWrites(w, w') && o.uid != ""
    requires ProcInv(nameOf, w, o) && (o in w.held ==> HeldInv(nameOf, w, o))
    requires OwnedNames(w'.claims, o) == OwnedNames(w.claims, o)
    requires forall n | n in OwnedNames(w.claims, o) :: w'.claims[n] == w.claims[n]
    ensures ProcInv(nameOf, w', o) && (o in w'.held ==> HeldInv(nameOf, w', o))
  {
    assert forall n | n in w.claims && w.claims[n].controller == Some(ControllerOf(o)) :: n in OwnedNames(w.claims, o);
  }

  lemma StepKeepsInv(nameOf: Ref -> string, w: World, s: Step)
    requires Inv(nameOf, w) && Enabled(w, s)
    ensures Inv(nameOf, Apply(nameOf, w, s))
  {
    var w' := Apply(nameOf, w, s);
    StepKeepsIdentities(nameOf, w, s);
    StepWritesFresh(nameOf, w, s);
    forall o | o in w'.procs
      ensures ProcInv(nameOf, w', o) && (o in w'.held ==> HeldInv(nameOf, w', o))
    {
      TenantKeepsInv(nameOf, w, s, o);
    }
  }

  lemma TenantKeepsInv(nameOf: Ref -> string, w: World, s: Step, o: Tenant)
    requires Inv(nameOf, w) && Enabled(w, s) && o in Apply(nameOf, w, s).procs
    ensures var w' := Apply(nameOf, w, s);
            ProcInv(nameOf, w', o) && (o in w'.held ==> HeldInv(nameOf, w', o))
  {
    if !s.Arrive? && !s.Collect? && s.t == o {
      ActorKeepsInv(nameOf, w, s);
    } else if o in w.procs {
      BystanderKeepsInv(nameOf, w, s, o);
    } else {
      NewcomerIsIdle(nameOf, w, s, o);
    }
  }

  lemma NewcomerIsIdle(nameOf: Ref -> string, w: World, s: Step, o: Tenant)
    requires Identities(w) && Enabled(w, s) && o !in w.procs && o in Apply(nameOf, w, s).procs
    ensures Apply(nameOf, w, s).procs[o].Idle? && o !in Apply(nameOf, w, s).held
  {
    assert o !in w.held;
  }

  lemma BystanderKeepsInv(nameOf: Ref -> string, w: World, s: Step, o: Tenant)
    requires Inv(nameOf, w) && Enabled(w, s) && o in w.procs && (s.Arrive? || s.Collect? || s.t != o)
    ensures var w' := Apply(nameOf, w, s);
            o in w'.procs && ProcInv(nameOf, w', o) && (o in w'.held ==> HeldInv(nameOf, w', o))
  {
    assert ProcInv(nameOf, w, o) && (o in w.held ==> HeldInv(nameOf, w, o));
    StepOnlyMoves(nameOf, w, s, o);
    StepWritesFresh(nameOf, w, s);
    OthersKeepTheirClaims(nameOf, w, s, o);
    UnnoticedKeepsInv(nameOf, w, Apply(nameOf, w, s), o);
  }

  // ---------------------------------------------------------------- whole runs

  ghost predicate Runs(nameOf: Ref -> string, w: World, steps: seq<Step>, w': World)
    decreases |steps|
  {
    if steps == [] then w == w'
    else Enabled(w, steps[0]) && Runs(nameOf, Apply(nameOf, w, steps[0]), steps[1..], w')
  }

  /** Tenants may appear over any set of claims, including ones older versions left behind. */
  ghost predicate Initial(w: World) {
    && w.procs == map[] && w.held == map[]
    && forall n | n in w.claims :: w.claims[n].version < w.nextVersion
  }

  lemma {:induction false} RunKeepsInv(nameOf: Ref -> string, w: World, steps: seq<Step>, w': World)
    requires Inv(nameOf, w) && Runs(nameOf, w, steps, w')
    ensures Inv(nameOf, w')
    decreases |steps|
  {
    if steps != [] {
      StepKeepsInv(nameOf, w, steps[0]);
      RunKeepsInv(nameOf, Apply(nameOf, w, steps[0]), steps[1..], w');
    }
  }

  /**
   Mutual exclusion, for any interleaving and any way of naming claims: after any run each
   tenant whose last ensure succeeded has its claim, under its own uid and with the right
   content, owns no other claim, and shares its gateway with no other such tenant.
   */
  lemma Exclusive(nameOf: Ref -> string, w: World, steps: seq<Step>, w': World)
    requires Initial(w) && Runs(nameOf, w, steps, w')
    ensures forall t | t in w'.held :: Holds(nameOf, w', t, w'.held[t]) && OwnedNames(w'.claims, t) == {nameOf(w'.held[t])}
    ensures forall t, o | t in w'.held && o in w'.held && t != o :: w'.held[t] != w'.held[o]
  {
    RunKeepsInv(nameOf, w, steps, w');
    forall t | t in w'.held ensures HeldInv(nameOf, w', t) {}
  }

  /** The steps by which `t` itself gives `ref` up. */
  predicate GivesUp(s: Step, t: Tenant, ref: Ref) {
    || s == StartRelease(t)
    || s == Leave(t)
    || (s.StartEnsure? && s.t == t && ValidRef(s.ref) && s.ref != ref)
  }

  lemma StepKeepsHeld(nameOf: Ref -> string, w: World, s: Step, t: Tenant)
    requires Inv(nameOf, w) && Enabled(w, s) && t in w.held && !GivesUp(s, t, w.held[t])
    ensures var w' := Apply(nameOf, w, s); t in w'.held && w'.held[t] == w.held[t]
  {
    assert HeldInv(nameOf, w, t);
    if s.Collect? || s.Arrive? || s.t != t {
      StepOnlyMoves(nameOf, w, s, t);
    }
  }

  /** Nothing but its own retargeting, release or departure takes a claim from a tenant. */
  lemma {:induction false} KeepsUntilItGivesUp(nameOf: Ref -> string, w: World, steps: seq<Step>, w': World, t: Tenant)
    requires Inv(nameOf, w) && Runs(nameOf, w, steps, w')
    requires t in w.held && forall s | s in steps :: !GivesUp(s, t, w.held[t])
    ensures t in w'.held && w'.held[t] == w.held[t] && Holds(nameOf, w', t, w.held[t])
    decreases |steps|
  {
    if steps == [] {
      assert HeldInv(nameOf, w, t);
    } else {
      StepKeepsInv(nameOf, w, steps[0]);
      StepKeepsHeld(nameOf, w, steps[0], t);
      KeepsUntilItGivesUp(nameOf, Apply(nameOf, w, steps[0]), steps[1..], w', t);
    }
  }

  // ---------------------------------------------------------------- undisturbed runs

  /** An ensure of `ref` by `t` goes through exactly when the claim is free or already its own. */
  predicate Claimable(nameOf: Ref -> string, claims: map<string, Claim>, t: Tenant, ref: Ref) {
    ValidRef(ref) && (nameOf(ref) in claims ==> IsOwned(claims[nameOf(ref)], t) && claims[nameOf(ref)].data == ref)
  }

  /** The claims with `t` in control of the one for `ref`; a claim it already controls is not rewritten. */
  function Controlled(nameOf: Ref -> string, claims: map<string, Claim>, version: nat, t: Tenant, ref: Ref): map<string, Claim> {
    var n := nameOf(ref);
    if n !in claims then claims[n := NewClaim(t, ref, version)]
    else if claims[n].controller == Some(ControllerOf(t)) then claims
    else claims[n := claims[n].(controller := Some(ControllerOf(t)), version := version)]
  }

  lemma {:induction false} RunsAppend(nameOf: Ref -> string, w: World, steps: seq<Step>, m: World, s: Step)
    requires Runs(nameOf, w, steps, m) && Enabled(m, s)
    ensures Runs(nameOf, w, steps + [s], Apply(nameOf, m, s))
    decreases |steps|
  {
    if steps != [] {
      assert (steps + [s])[1..] == steps[1..] + [s];
      RunsAppend(nameOf, Apply(nameOf, w, steps[0]), steps[1..], m, s);
    } else {
      assert Runs(nameOf, Apply(nameOf, m, s), [s][1..], Apply(nameOf, m, s));
    }
  }

  lemma Take(nameOf: Ref -> string, start: World, steps: seq<Step>, w: World, s: Step) returns (w': World, steps': seq<Step>)
    requires Runs(nameOf, start, steps, w) && Enabled(w, s)
    ensures w' == Apply(nameOf, w, s) && steps' == steps + [s] && Runs(nameOf, start, steps', w')
  {
    w', steps' := Apply(nameOf, w, s), steps + [s];
    RunsAppend(nameOf, start, steps, w, s);
  }

  lemma ReachCreating(nameOf: Ref -> string, start: World, before: seq<Step>, w: World, t: Tenant, ref: Ref)
    returns (w': World, steps: seq<Step>)
    requires Runs(nameOf, start, before, w) && t in w.procs && w.procs[t].Idle? && ValidRef(ref)
    ensures Runs(nameOf, start, steps, w')
    ensures w'.claims == w.claims && w'.nextVersion == w.nextVersion
    ensures w'.procs == w.procs[t := Creating(ref)] && w'.held[t := ref] == w.held[t := ref]
  {
    w', steps := Take(nameOf, start, before, w, StartEnsure(t, ref));
  }

  lemma ReachListing(nameOf: Ref -> string, start: World, before: seq<Step>, w: World, t: Tenant, ref: Ref)
    returns (steps: seq<Step>, w': World)
    requires Runs(nameOf, start, before, w) && t in w.procs && w.procs[t].Idle?
    requires Claimable(nameOf, w.claims, t, ref)
    ensures Runs(nameOf, start, steps, w') && t in w'.procs && w'.procs[t] == Listing(ref)
    ensures w'.claims == Controlled(nameOf, w.claims, w.nextVersion, t, ref)
    ensures w'.nextVersion == (if w'.claims == w.claims then w.nextVersion else w.nextVersion + 1)
    ensures w'.procs == w.procs[t := Listing(ref)] && w'.held[t := ref] == w.held[t := ref]
  {
    w', steps := ReachCreating(nameOf, start, before, w, t, ref);
    w', steps := Take(nameOf, start, steps, w', Create(t));
    if nameOf(ref) in w.claims {
      steps, w' := TakeOver(nameOf, start, steps, w', t, ref);
    } else {
      assert nameOf(ref) in w'.claims;
    }
    assert w'.procs == w.procs[t := Listing(ref)];
  }

  lemma TakeOver(nameOf: Ref -> string, start: World, before: seq<Step>, w: World, t: Tenant, ref: Ref)
    returns (steps: seq<Step>, w': World)
    requires Runs(nameOf, start, before, w) && t in w.procs && w.procs[t] == Getting(ref)
    requires nameOf(ref) in w.claims && Claimable(nameOf, w.claims, t, ref)
    ensures Runs(nameOf, start, steps, w') && w'.claims == Controlled(nameOf, w.claims, w.nextVersion, t, ref)
    ensures w'.nextVersion == (if w'.claims == w.claims then w.nextVersion else w.nextVersion + 1)
    ensures w'.procs == w.procs[t := Listing(ref)] && w'.held == w.held
  {
    w', steps := Take(nameOf, start, before, w, Get(t));
    if w.claims[nameOf(ref)].controller != Some(ControllerOf(t)) {
      w', steps := Take(nameOf, start, steps, w', Update(t));
      assert w'.claims[nameOf(ref)] != w.claims[nameOf(ref)];
    }
    assert w'.procs == w.procs[t := Listing(ref)];
  }

  /** With no other tenant taking a step, an ensure ends with `t` holding `ref` and nothing else. */
  lemma UndisturbedEnsure(nameOf: Ref -> string, start: World, before: seq<Step>, w: World, t: Tenant, ref: Ref)
    returns (steps: seq<Step>, w': World)
    requires Runs(nameOf, start, before, w) && t in w.procs && w.procs[t].Idle?
    requires Claimable(nameOf, w.claims, t, ref)
    ensures Runs(nameOf, start, steps, w')
    ensures var controlled := Controlled(nameOf, w.claims, w.nextVersion, t, ref);
            && w'.claims == controlled - (OwnedNames(controlled, t) - {nameOf(ref)})
            && w'.nextVersion == (if controlled == w.claims then w.nextVersion else w.nextVersion + 1)
            && w'.procs == w.procs && w'.held == w.held[t := ref]
  {
    steps, w' := ReachListing(nameOf, start, before, w, t, ref);
    w', steps := Take(nameOf, start, steps, w', List(t));
    w', steps := DeleteAll(nameOf, start, steps, w', t);
    w', steps := Take(nameOf, start, steps, w', Finish(t));
    assert w'.procs == w.procs;
  }

  lemma {:induction false} DeleteAll(nameOf: Ref -> string, start: World, before: seq<Step>, w: World, t: Tenant)
    returns (w': World, steps: seq<Step>)
    requires Runs(nameOf, start, before, w) && t in w.procs && w.procs[t].Deleting?
    ensures Runs(nameOf, start, steps, w')
    ensures w' == Goto(w.(claims := w.claims - w.procs[t].todo), t, Deleting(w.procs[t].ref, {}))
    decreases |w.procs[t].todo|
  {
    w', steps := w, before;
    var todo := w.procs[t].todo;
    if todo == {} {
      assert w.procs[t := Deleting(w.procs[t].ref, {})] == w.procs;
      assert w.claims - todo == w.claims;
    } else {
      var n :| n in todo;
      w', steps := Take(nameOf, start, before, w, Delete(t, n));
      assert w'.claims - (todo - {n}) == w.claims - todo;
      assert w'.procs[t := Deleting(w.procs[t].ref, {})] == w.procs[t := Deleting(w.procs[t].ref, {})];
      w', steps := DeleteAll(nameOf, start, steps, w', t);
    }
  }

  // ---------------------------------------------------------------- lists that lag behind

  /** A step, or a list call answered with whatever claims the store once had. */
  datatype LaxStep = Exact(s: Step) | AnyList(t: Tenant, seen: map<string, Claim>)

  ghost predicate LaxEnabled(w: World, s: LaxStep) {
    match s
    case Exact(e) => Enabled(w, e)
    case AnyList(t, _) => t in w.procs && (w.procs[t].Listing? || w.procs[t].ReleaseListing?)
  }

  function LaxApply(nameOf: Ref -> string, w: World, s: LaxStep): World
    requires LaxEnabled(w, s)
  {
    match s
    case Exact(e) => Apply(nameOf, w, e)
    case AnyList(t, seen) => ListFrom(nameOf, w, t, seen)
  }

  /** `t` has the claim for `ref` and counts on it: it succeeded with it, or is about to. */
  predicate Relies(w: World, t: Tenant, ref: Ref) {
    t in w.procs
    && ((t in w.held && w.held[t] == ref)
        || (w.procs[t].Listing? && w.procs[t].ref == ref) || (w.procs[t].Deleting? && w.procs[t].ref == ref))
  }

  /** Deleting `n` takes a claim that a tenant other than `t` counts on. */
  ghost predicate Hits(nameOf: Ref -> string, w: World, t: Tenant, n: string) {
    exists o, ref :: Relies(w, o, ref) && o != t && nameOf(ref) == n
  }

  ghost predicate SafeProc(nameOf: Ref -> string, w: World, t: Tenant)
    requires t in w.procs
  {
    match w.procs[t]
    case Updating(ref, seen) => ProcInv(nameOf, w, t)
    case Listing(ref) => Holds(nameOf, w, t, ref)
    case Deleting(ref, todo) => Holds(nameOf, w, t, ref) && nameOf(ref) !in todo
    case _ => true
  }

  ghost predicate SafeHeld(nameOf: Ref -> string, w: World, t: Tenant)
    requires t in w.held
  {
    && t in w.procs && Holds(nameOf, w, t, w.held[t])
    && (match w.procs[t]
        case Idle => true
        case ReleaseListing => false
        case Releasing(_) => false
        case p => p.ref == w.held[t])
  }

  /** What exclusion needs, whether or not lists are current: nothing is said of left-over claims. */
  ghost predicate Safe(nameOf: Ref -> string, w: World) {
    && Identities(w) && Versioned(w)
    && (forall t | t in w.procs :: SafeProc(nameOf, w, t))
    && (forall t | t in w.held :: SafeHeld(nameOf, w, t))
  }

  lemma InvIsSafe(nameOf: Ref -> string, w: World)
    requires Inv(nameOf, w)
    ensures Safe(nameOf, w)
  {
    forall t | t in w.procs ensures SafeProc(nameOf, w, t) { assert ProcInv(nameOf, w, t); }
    forall t | t in w.held ensures SafeHeld(nameOf, w, t) { assert HeldInv(nameOf, w, t); }
  }

  lemma ReliedIsHeld(nameOf: Ref -> string, w: World, t: Tenant, ref: Ref)
    requires Safe(nameOf, w) && Relies(w, t, ref)
    ensures Holds(nameOf, w, t, ref)
  {
    assert SafeProc(nameOf, w, t) && (t in w.held ==> SafeHeld(nameOf, w, t));
  }

  /** Whatever one tenant does, short of a delete that hits it, another keeps the claim it counts on. */
  lemma OthersKeepWhatTheyRelyOn(nameOf: Ref -> string, w: World, s: Step, o: Tenant, ref: Ref)
    requires Safe(nameOf, w) && Enabled(w, s) && Relies(w, o, ref) && (s.Collect? || s.Arrive? || s.t != o)
    requires s.Delete? ==> !Hits(nameOf, w, s.t, s.name)
    ensures Holds(nameOf, Apply(nameOf, w, s), o, ref)
  {
    ReliedIsHeld(nameOf, w, o, ref);
    match s
    case Update(t) =>
      assert SafeProc(nameOf, w, t);
      assert !IsOwned(w.procs[t].seen, o);
    case Delete(t, n) => assert n != nameOf(ref);
    case _ =>
  }

  lemma BystanderStaysSafe(nameOf: Ref -> string, w: World, s: Step, o: Tenant)
    requires Safe(nameOf, w) && Enabled(w, s) && o in w.procs && (s.Arrive? || s.Collect? || s.t != o)
    requires s.Delete? ==> !Hits(nameOf, w, s.t, s.name)
    ensures var w' := Apply(nameOf, w, s);
            o in w'.procs && SafeProc(nameOf, w', o) && (o in w'.held ==> SafeHeld(nameOf, w', o))
  {
    assert SafeProc(nameOf, w, o) && (o in w.held ==> SafeHeld(nameOf, w, o));
    StepOnlyMoves(nameOf, w, s, o);
    StepWritesFresh(nameOf, w, s);
    if o in w.held {
      OthersKeepWhatTheyRelyOn(nameOf, w, s, o, w.held[o]);
    }
    if w.procs[o].Listing? || w.procs[o].Deleting? {
      OthersKeepWhatTheyRelyOn(nameOf, w, s, o, w.procs[o].ref);
    }
  }

  lemma ActorStaysSafe(nameOf: Ref -> string, w: World, s: Step)
    requires Safe(nameOf, w) && Enabled(w, s) && !s.Arrive? && !s.Collect? && !s.Leave?
    ensures var w' := Apply(nameOf, w, s);
            SafeProc(nameOf, w', s.t) && (s.t in w'.held ==> SafeHeld(nameOf, w', s.t))
  {
    match s
    case Create(_) => WriterStaysSafe(nameOf, w, s);
    case Update(_) => WriterStaysSafe(nameOf, w, s);
    case Delete(_, _) => WriterStaysSafe(nameOf, w, s);
    case _ => ReaderStaysSafe(nameOf, w, s);
  }

  lemma WriterStaysSafe(nameOf: Ref -> string, w: World, s: Step)
    requires Safe(nameOf, w) && Enabled(w, s) && (s.Create? || s.Update? || s.Delete?)
    ensures var w' := Apply(nameOf, w, s);
            SafeProc(nameOf, w', s.t) && (s.t in w'.held ==> SafeHeld(nameOf, w', s.t))
  {
    assert SafeProc(nameOf, w, s.t) && (s.t in w.held ==> SafeHeld(nameOf, w, s.t));
    match s
    case Create(_) =>
    case Update(_) =>
    case Delete(_, _) =>
  }

  lemma ReaderStaysSafe(nameOf: Ref -> string, w: World, s: Step)
    requires Safe(nameOf, w) && Enabled(w, s)
    requires s.StartEnsure? || s.StartRelease? || s.Get? || s.List? || s.Finish? || s.Fail?
    ensures var w' := Apply(nameOf, w, s);
            SafeProc(nameOf, w', s.t) && (s.t in w'.held ==> SafeHeld(nameOf, w', s.t))
  {
    assert SafeProc(nameOf, w, s.t) && (s.t in w.held ==> SafeHeld(nameOf, w, s.t));
    match s
    case StartEnsure(_, _) =>
    case StartRelease(_) =>
    case Get(_) =>
    case List(_) =>
    case Finish(_) =>
    case Fail(_) =>
  }

  lemma StepStaysSafe(nameOf: Ref -> string, w: World, s: Step)
    requires Safe(nameOf, w) && Enabled(w, s) && (s.Delete? ==> !Hits(nameOf, w, s.t, s.name))
    ensures Safe(nameOf, Apply(nameOf, w, s))
  {
    var w' := Apply(nameOf, w, s);
    StepKeepsIdentities(nameOf, w, s);
    StepWritesFresh(nameOf, w, s);
    forall o | o in w'.procs
      ensures SafeProc(nameOf, w', o) && (o in w'.held ==> SafeHeld(nameOf, w', o))
    {
      if !s.Arrive? && !s.Collect? && s.t == o {
        ActorStaysSafe(nameOf, w, s);
      } else if o in w.procs {
        BystanderStaysSafe(nameOf, w, s, o);
      } else {
        NewcomerIsIdle(nameOf, w, s, o);
      }
    }
  }

  lemma AnyListStaysSafe(nameOf: Ref -> string, w: World, t: Tenant, seen: map<string, Claim>)
    requires Safe(nameOf, w) && LaxEnabled(w, AnyList(t, seen))
    ensures Safe(nameOf, ListFrom(nameOf, w, t, seen))
  {
    var w' := ListFrom(nameOf, w, t, seen);
    assert w'.procs.Keys == w.procs.Keys;
    forall o | o in w'.procs ensures SafeProc(nameOf, w', o) && (o in w'.held ==> SafeHeld(nameOf, w', o)) {
      AnyListLeavesSafe(nameOf, w, t, seen, o);
    }
  }

  lemma AnyListLeavesSafe(nameOf: Ref -> string, w: World, t: Tenant, seen: map<string, Claim>, o: Tenant)
    requires Safe(nameOf, w) && LaxEnabled(w, AnyList(t, seen)) && o in w.procs
    ensures var w' := ListFrom(nameOf, w, t, seen);
            SafeProc(nameOf, w', o) && (o in w'.held ==> SafeHeld(nameOf, w', o))
  {
    assert SafeProc(nameOf, w, o) && (o in w.held ==> SafeHeld(nameOf, w, o));
  }

  lemma HitIsUnsafe(nameOf: Ref -> string, w: World, t: Tenant, n: string)
    requires Enabled(w, Delete(t, n)) && Hits(nameOf, w, t, n)
    ensures !Safe(nameOf, Apply(nameOf, w, Delete(t, n)))
  {
    var w' := Apply(nameOf, w, Delete(t, n));
    var o, ref :| Relies(w, o, ref) && o != t && nameOf(ref) == n;
    assert Relies(w', o, ref) && nameOf(ref) !in w'.claims;
    assert o in w'.held && w'.held[o] == ref ==> !SafeHeld(nameOf, w', o);
    assert !(o in w'.held && w'.held[o] == ref) ==> !SafeProc(nameOf, w', o);
  }

  /** A delete keeps exclusion safe exactly when the claim of that name is none another tenant counts on. */
  lemma DeleteIsSafeExactly(nameOf: Ref -> string, w: World, t: Tenant, n: string)
    requires Safe(nameOf, w) && Enabled(w, Delete(t, n))
    ensures Safe(nameOf, Apply(nameOf, w, Delete(t, n))) <==> !Hits(nameOf, w, t, n)
  {
    if Hits(nameOf, w, t, n) {
      HitIsUnsafe(nameOf, w, t, n);
    } else {
      StepStaysSafe(nameOf, w, Delete(t, n));
    }
  }

  ghost predicate LaxRuns(nameOf: Ref -> string, w: World, steps: seq<LaxStep>, w': World)
    decreases |steps|
  {
    if steps == [] then w == w'
    else LaxEnabled(w, steps[0]) && LaxRuns(nameOf, LaxApply(nameOf, w, steps[0]), steps[1..], w')
  }

  /** No delete of the run hits a claim another tenant counts on at that moment. */
  ghost predicate NoHits(nameOf: Ref -> string, w: World, steps: seq<LaxStep>)
    decreases |steps|
  {
    steps == [] || !LaxEnabled(w, steps[0])
    || ((steps[0].Exact? && steps[0].s.Delete? ==> !Hits(nameOf, w, steps[0].s.t, steps[0].s.name))
        && NoHits(nameOf, LaxApply(nameOf, w, steps[0]), steps[1..]))
  }

  lemma LaxStepStaysSafe(nameOf: Ref -> string, w: World, s: LaxStep)
    requires Safe(nameOf, w) && LaxEnabled(w, s)
    requires s.Exact? && s.s.Delete? ==> !Hits(nameOf, w, s.s.t, s.s.name)
    ensures Safe(nameOf, LaxApply(nameOf, w, s))
  {
    match s {
      case Exact(e) => StepStaysSafe(nameOf, w, e);
      case AnyList(t, seen) => AnyListStaysSafe(nameOf, w, t, seen);
    }
  }

  ghost predicate SafeThroughout(nameOf: Ref -> string, w: World, steps: seq<LaxStep>)
    decreases |steps|
  {
    Safe(nameOf, w)
    && (steps == [] || !LaxEnabled(w, steps[0]) || SafeThroughout(nameOf, LaxApply(nameOf, w, steps[0]), steps[1..]))
  }

  /** With lists answered from any store at all, a run is safe at every moment exactly when no delete hits. */
  lemma {:induction false} SafeThroughoutExactly(nameOf: Ref -> string, w: World, steps: seq<LaxStep>, w': World)
    requires Safe(nameOf, w) && LaxRuns(nameOf, w, steps, w')
    ensures SafeThroughout(nameOf, w, steps) <==> NoHits(nameOf, w, steps)
    ensures NoHits(nameOf, w, steps) ==> Safe(nameOf, w')
    decreases |steps|
  {
    if steps != [] {
      var s := steps[0];
      if s.Exact? && s.s.Delete? && Hits(nameOf, w, s.s.t, s.s.name) {
        HitIsUnsafe(nameOf, w, s.s.t, s.s.name);
      } else {
        LaxStepStaysSafe(nameOf, w, s);
        SafeThroughoutExactly(nameOf, LaxApply(nameOf, w, s), steps[1..], w');
      }
    }
  }

  /**
   Mutual exclusion does not need current lists: with lists answered from any store at all, every
   tenant whose last ensure succeeded has its claim, and its gateway to itself, over every run in
   which no delete hits a claim another tenant counts on.
   */
  lemma ExclusiveWhateverIsListed(nameOf: Ref -> string, w: World, steps: seq<LaxStep>, w': World)
    requires Initial(w) && LaxRuns(nameOf, w, steps, w') && NoHits(nameOf, w, steps)
    ensures forall t | t in w'.held :: Holds(nameOf, w', t, w'.held[t])
    ensures forall t, o | t in w'.held && o in w'.held && t != o :: w'.held[t] != w'.held[o]
  {
    SafeThroughoutExactly(nameOf, w, steps, w');
    forall t | t in w'.held ensures SafeHeld(nameOf, w', t) {}
  }

  /** The names a list answered with `seen` makes `t` delete. */
  function Listed(nameOf: Ref -> string, w: World, t: Tenant, seen: map<string, Claim>): set<string>
    requires t in w.procs && w.procs[t].Listing?
  {
    OwnedNames(seen, t) - {nameOf(w.procs[t].ref)}
  }

  /**
   When the deletes follow the list undisturbed, every other tenant keeps what it counts on exactly
   if the list names none of it. What the list leaves out is a different matter: `t` is left with
   exactly the claims it owns that were not listed, besides its current one.
   */
  lemma ListSparesOthersExactly(nameOf: Ref -> string, w: World, t: Tenant, seen: map<string, Claim>)
    requires Safe(nameOf, w) && t in w.procs && w.procs[t].Listing?
    ensures var claims := w.claims - Listed(nameOf, w, t, seen);
            && ((forall o, ref | Relies(w, o, ref) && o != t :: Holds(nameOf, w.(claims := claims), o, ref)) <==>
                (forall n | n in Listed(nameOf, w, t, seen) :: !Hits(nameOf, w, t, n)))
            && OwnedNames(claims, t) - {nameOf(w.procs[t].ref)}
               == OwnedNames(w.claims, t) - {nameOf(w.procs[t].ref)} - OwnedNames(seen, t)
            && nameOf(w.procs[t].ref) in OwnedNames(claims, t)
  {
    var claims := w.claims - Listed(nameOf, w, t, seen);
    assert SafeProc(nameOf, w, t);
    forall o, ref | Relies(w, o, ref) && o != t
      ensures Holds(nameOf, w.(claims := claims), o, ref) <==> nameOf(ref) !in Listed(nameOf, w, t, seen)
    {
      ReliedIsHeld(nameOf, w, o, ref);
    }
  }

  /** A list of the present claims hits no one. */
  lemma CurrentListHitsNoOne(nameOf: Ref -> string, w: World, t: Tenant, n: string)
    requires Safe(nameOf, w) && t in w.procs && w.procs[t].Listing? && n in Listed(nameOf, w, t, w.claims)
    ensures !Hits(nameOf, w, t, n)
  {
    forall o, ref | Relies(w, o, ref) && o != t ensures nameOf(ref) != n {
      ReliedIsHeld(nameOf, w, o, ref);
    }
  }

  /** Once `a` has moved from `left` to `next` and `b` has claimed `left`. */
  function Moved(nameOf: Ref -> string, a: Tenant, b: Tenant, left: Ref, next: Ref): World {
    World(map[nameOf(next) := NewClaim(a, next, 1), nameOf(left) := NewClaim(b, left, 2)], 3,
          map[a := Idle, b := Idle], map[a := next, b := left])
  }

  lemma MovesOn(nameOf: Ref -> string, before: World, a: Tenant, b: Tenant, left: Ref, next: Ref) returns (steps: seq<Step>)
    requires nameOf(left) != nameOf(next) && a.name != b.name && ValidRef(left) && ValidRef(next)
    requires before == First(nameOf, a, b, left)
    ensures Runs(nameOf, before, steps, Moved(nameOf, a, b, left, next))
  {
    var w;
    steps, w := UndisturbedEnsure(nameOf, before, [], before, a, next);
    var both := map[nameOf(left) := NewClaim(a, left, 0), nameOf(next) := NewClaim(a, next, 1)];
    assert Controlled(nameOf, before.claims, 1, a, next) == both && OwnedNames(both, a) == {nameOf(left), nameOf(next)};
    var mid := World(map[nameOf(next) := NewClaim(a, next, 1)], 2, before.procs, map[a := next]);
    assert w.claims == mid.claims && w.held == mid.held;
    assert w == mid;
    steps := ClaimsLeft(nameOf, before, steps, mid, a, b, left, next);
  }

  lemma ClaimsLeft(nameOf: Ref -> string, before: World, sofar: seq<Step>, mid: World, a: Tenant, b: Tenant, left: Ref, next: Ref)
    returns (steps: seq<Step>)
    requires nameOf(left) != nameOf(next) && a.name != b.name && ValidRef(left) && ValidRef(next)
    requires mid == World(map[nameOf(next) := NewClaim(a, next, 1)], 2, map[a := Idle, b := Idle], map[a := next])
    requires Runs(nameOf, before, sofar, mid)
    ensures Runs(nameOf, before, steps, Moved(nameOf, a, b, left, next))
  {
    var w;
    LeftIsFree(nameOf, a, b, left, next);
    steps, w := UndisturbedEnsure(nameOf, before, sofar, mid, b, left);
    assert w.held == map[a := next, b := left];
    assert w == Moved(nameOf, a, b, left, next);
  }

  /** The claim `a` gave up is `b`'s to take, and takes nothing else with it. */
  lemma LeftIsFree(nameOf: Ref -> string, a: Tenant, b: Tenant, left: Ref, next: Ref)
    requires nameOf(left) != nameOf(next) && a.name != b.name && ValidRef(left)
    ensures var mid, end := map[nameOf(next) := NewClaim(a, next, 1)], Moved(nameOf, a, b, left, next).claims;
            && Claimable(nameOf, mid, b, left) && end != mid && Controlled(nameOf, mid, 2, b, left) == end
            && end - (OwnedNames(end, b) - {nameOf(left)}) == end
  {
    var end := Moved(nameOf, a, b, left, next).claims;
    assert nameOf(left) in end && OwnedNames(end, b) == {nameOf(left)};
  }

  /**
   Exclusion does rest on lists being current. Tenant `a` moves from one gateway to the next,
   `b` claims the gateway it left, and `a` reconciles again with a list from before its move:
   its delete, which names the claim but not the object, removes what `b` still holds.
   */
  lemma StaleListTakesAnothersClaim(nameOf: Ref -> string, a: Tenant, b: Tenant, left: Ref, next: Ref)
    returns (before: World, steps: seq<Step>, w: World, after: World)
    requires a.name != b.name && a.uid != "" && b.uid != ""
    requires ValidRef(left) && ValidRef(next) && nameOf(left) != nameOf(next)
    ensures Inv(nameOf, before) && Runs(nameOf, before, steps, w)
    ensures a in w.procs && w.procs[a] == Listing(next)
    ensures var stale := ListFrom(nameOf, w, a, before.claims);
            Enabled(stale, Delete(a, nameOf(left))) && after == Apply(nameOf, stale, Delete(a, nameOf(left)))
    ensures b in w.held && w.held[b] == left && Holds(nameOf, w, b, left)
    ensures b in after.held && after.held[b] == left && !Holds(nameOf, after, b, left)
  {
    before := First(nameOf, a, b, left);
    FirstHasInv(nameOf, a, b, left);
    steps, w := ListsAgain(nameOf, before, a, b, left, next);
    after := StaleDelete(nameOf, w, a, b, left, next);
  }

  lemma ListsAgain(nameOf: Ref -> string, before: World, a: Tenant, b: Tenant, left: Ref, next: Ref)
    returns (steps: seq<Step>, w: World)
    requires nameOf(left) != nameOf(next) && a.name != b.name && a.uid != "" && ValidRef(left) && ValidRef(next)
    requires before == First(nameOf, a, b, left)
    ensures Runs(nameOf, before, steps, w)
    ensures w.claims == Moved(nameOf, a, b, left, next).claims && w.procs == map[a := Listing(next), b := Idle]
    ensures b in w.held && w.held[b] == left
  {
    var moved := Moved(nameOf, a, b, left, next);
    steps := MovesOn(nameOf, before, a, b, left, next);
    assert moved.procs[a] == Idle && Claimable(nameOf, moved.claims, a, next);
    steps, w := ReachListing(nameOf, before, steps, moved, a, next);
    assert w.claims == moved.claims;
    assert b in w.held[a := next] && w.held[a := next][b] == left;
  }

  function First(nameOf: Ref -> string, a: Tenant, b: Tenant, left: Ref): World {
    World(map[nameOf(left) := NewClaim(a, left, 0)], 1, map[a := Idle, b := Idle], map[a := left])
  }

  lemma FirstHasInv(nameOf: Ref -> string, a: Tenant, b: Tenant, left: Ref)
    requires a.name != b.name && a.uid != "" && b.uid != ""
    ensures Inv(nameOf, First(nameOf, a, b, left))
  {
    var w := First(nameOf, a, b, left);
    assert OwnedNames(w.claims, a) == {nameOf(left)};
    assert HeldInv(nameOf, w, a);
  }

  lemma StaleDelete(nameOf: Ref -> string, w: World, a: Tenant, b: Tenant, left: Ref, next: Ref) returns (after: World)
    requires nameOf(left) != nameOf(next) && a.name != b.name
    requires w.claims == Moved(nameOf, a, b, left, next).claims && w.procs == map[a := Listing(next), b := Idle]
    requires b in w.held && w.held[b] == left
    ensures Holds(nameOf, w, b, left)
    ensures var stale := ListFrom(nameOf, w, a, First(nameOf, a, b, left).claims);
            Enabled(stale, Delete(a, nameOf(left))) && after == Apply(nameOf, stale, Delete(a, nameOf(left)))
    ensures b in after.held && after.held[b] == left && !Holds(nameOf, after, b, left)
  {
    var seen := First(nameOf, a, b, left).claims;
    var stale := ListFrom(nameOf, w, a, seen);
    assert nameOf(left) in OwnedNames(seen, a) - {nameOf(next)};
    after := Apply(nameOf, stale, Delete(a, nameOf(left)));
  }

  // ---------------------------------------------------------------- one reconcile, undisturbed

  datatype ClaimError =
    | InvalidRef
    | CollidingClaim(data: Ref)
    | ClaimedBy(name: string, namespace: string)

  /** Who the error message of a refused claim names. */
  function OwnerShown(c: Claim): string {
    if c.controller.Some? && c.controller.value.kind == "AITenant" then c.controller.value.name else c.annotatedName
  }

  class ClaimStore {
    const nameOf: Ref -> string
    var claims: map<string, Claim>
    var nextVersion: nat

    constructor (nameOf: Ref -> string)
      ensures this.nameOf == nameOf && claims == map[] && nextVersion == 0
    {
      this.nameOf := nameOf;
      claims, nextVersion := map[], 0;
    }

    /**
     Claims `ref` for `t`. It succeeds exactly when the name is free or already `t`'s for that
     gateway; then `t` owns that one claim, everyone else's claims are as before, and a claim
     `t` already controlled is not rewritten. A refusal changes nothing.
     */
    method EnsureGatewayClaim(t: Tenant, ref: Ref) returns (r: Result<(), ClaimError>)
      requires t.uid != ""
      modifies this
      ensures r.Ok? <==> Claimable(nameOf, old(claims), t, ref)
      ensures r.Err? ==> claims == old(claims) && nextVersion == old(nextVersion)
      ensures r.Ok? ==>
                var controlled := Controlled(nameOf, old(claims), old(nextVersion), t, ref);
                && claims == controlled - (OwnedNames(controlled, t) - {nameOf(ref)})
                && OwnedNames(claims, t) == {nameOf(ref)}
                && claims[nameOf(ref)].controller == Some(ControllerOf(t)) && claims[nameOf(ref)].data == ref
                && forall m | m in old(claims) && !IsOwned(old(claims)[m], t) :: m in claims && claims[m] == old(claims)[m]
      ensures r.Err? ==>
                if !ValidRef(ref) then r.error == InvalidRef
                else
                  && nameOf(ref) in old(claims)
                  && var c := old(claims)[nameOf(ref)];
                     r.error == (if IsOwned(c, t) then CollidingClaim(c.data) else ClaimedBy(OwnerShown(c), c.annotatedNamespace))
    {
      if !ValidRef(ref) {
        return Err(InvalidRef);
      }
      var n := nameOf(ref);
      if n !in claims {
        claims, nextVersion := claims[n := NewClaim(t, ref, nextVersion)], nextVersion + 1;
        CleanupStaleClaims(t, ref);
        return Ok(());
      }
      var existing := claims[n];
      if IsOwned(existing, t) {
        if existing.data != ref {
          return Err(CollidingClaim(existing.data));
        }
        if existing.controller != Some(ControllerOf(t)) {
          claims := claims[n := existing.(controller := Some(ControllerOf(t)), version := nextVersion)];
          nextVersion := nextVersion + 1;
        }
        CleanupStaleClaims(t, ref);
        return Ok(());
      }
      return Err(ClaimedBy(OwnerShown(existing), existing.annotatedNamespace));
    }

    /** Deletes the claims `t` has left over from other gateways, and no one else's. */
    method CleanupStaleClaims(t: Tenant, current: Ref)
      modifies this`claims
      ensures claims == old(claims) - (OwnedNames(old(claims), t) - {nameOf(current)})
    {
      var listed := claims;
      var todo := listed.Keys;
      while todo != {}
        invariant todo <= listed.Keys
        invariant claims == listed - (OwnedNames(listed, t) - {nameOf(current)} - todo)
        decreases todo
      {
        var n :| n in todo;
        todo := todo - {n};
        if n == nameOf(current) {
          continue;
        }
        if !IsOwned(listed[n], t) {
          continue;
        }
        claims := claims - {n};
      }
    }

    /** Releases every claim of `t`. */
    method DeleteGatewayClaim(t: Tenant)
      modifies this`claims
      ensures claims == old(claims) - OwnedNames(old(claims), t)
      ensures OwnedNames(claims, t) == {}
    {
      var listed := claims;
      var todo := listed.Keys;
      while todo != {}
        invariant todo <= listed.Keys
        invariant claims == listed - (OwnedNames(listed, t) - todo)
        decreases todo
      {
        var n :| n in todo;
        todo := todo - {n};
        if IsOwned(listed[n], t) {
          claims := claims - {n};
        }
      }
    }
  }
}
