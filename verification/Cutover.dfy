/**
 Upgrading from one policy per model to one policy per gateway.

 A model's legacy policy must stay in force until the replacement can serve. `World` interleaves
 the reconcile passes of all policies of one tenant namespace, each API call a step, with
 everything else that goes on. Legacy policies are named after their model, in its namespace, and
 nobody creates new ones. `CutoverReconciler` is one pass undisturbed.
 */
module Cutover {
  import opened Wrappers

  datatype ModelKey = ModelKey(namespace: string, name: string)

  datatype Policy = Policy(refs: seq<ModelKey>, deleting: bool, active: bool)

  // ---------------------------------------------------------------- readiness

  /** An endpoint without a ready condition counts as ready. */
  datatype Slice = Slice(ports: seq<Option<int>>, endpoints: seq<Option<bool>>)

  datatype Condition = Condition(kind: string, status: string)

  datatype GatewayPolicy = GatewayPolicy(managed: bool, generation: int, observed: Option<int>, conditions: seq<Condition>)

  const TLS_PORT := 8443

  predicate ServesTls(s: Slice) {
    Some(TLS_PORT) in s.ports
  }

  predicate HasReadyEndpoint(s: Slice) {
    None in s.endpoints || Some(true) in s.endpoints
  }

  ghost predicate TargetReady(slices: seq<Slice>) {
    exists s :: s in slices && ServesTls(s) && HasReadyEndpoint(s)
  }

  method TargetMaaSAPIReady(slices: seq<Slice>) returns (ready: bool)
    ensures ready <==> TargetReady(slices)
  {
    for i := 0 to |slices|
      invariant forall j | 0 <= j < i :: !(ServesTls(slices[j]) && HasReadyEndpoint(slices[j]))
    {
      var tls := false;
      for p := 0 to |slices[i].ports|
        invariant tls <==> Some(TLS_PORT) in slices[i].ports[..p]
      {
        assert slices[i].ports[..p + 1] == slices[i].ports[..p] + [slices[i].ports[p]];
        tls := tls || slices[i].ports[p] == Some(TLS_PORT);
      }
      assert slices[i].ports[..|slices[i].ports|] == slices[i].ports;
      if !tls {
        continue;
      }
      for e := 0 to |slices[i].endpoints|
        invariant None !in slices[i].endpoints[..e] && Some(true) !in slices[i].endpoints[..e]
      {
        assert slices[i].endpoints[..e + 1] == slices[i].endpoints[..e] + [slices[i].endpoints[e]];
        if slices[i].endpoints[e].None? || slices[i].endpoints[e].value {
          assert slices[i] in slices && slices[i].endpoints[e] in slices[i].endpoints;
          return true;
        }
      }
      assert slices[i].endpoints[..|slices[i].endpoints|] == slices[i].endpoints;
    }
    return false;
  }

  /** Whether the last condition of that kind, if any, is true. */
  function Holds(conditions: seq<Condition>, kind: string): bool {
    if conditions == [] then false
    else
      var c := conditions[|conditions| - 1];
      if c.kind == kind then c.status == "True" else Holds(conditions[..|conditions| - 1], kind)
  }

  method AcceptedAndEnforced(conditions: seq<Condition>) returns (ready: bool)
    ensures ready <==> Holds(conditions, "Accepted") && Holds(conditions, "Enforced")
  {
    var accepted, enforced := false, false;
    for i := 0 to |conditions|
      invariant accepted == Holds(conditions[..i], "Accepted") && enforced == Holds(conditions[..i], "Enforced")
    {
      assert conditions[..i + 1][..i] == conditions[..i];
      if conditions[i].kind == "Accepted" {
        accepted := conditions[i].status == "True";
      } else if conditions[i].kind == "Enforced" {
        enforced := conditions[i].status == "True";
      }
    }
    assert conditions[..|conditions|] == conditions;
    return accepted && enforced;
  }

  /** In force as it is now: accepted and enforced, as reported for its present generation. */
  predicate InForce(g: Option<GatewayPolicy>) {
    g.Some? && g.value.managed && g.value.observed == Some(g.value.generation)
    && Holds(g.value.conditions, "Accepted") && Holds(g.value.conditions, "Enforced")
  }

  method GatewayAuthPolicyReady(g: Option<GatewayPolicy>) returns (ready: bool)
    ensures ready <==> InForce(g)
  {
    if g.None? { return false; }
    if !g.value.managed { return false; }
    if g.value.observed.None? { return false; }
    if g.value.observed.value != g.value.generation { return false; }
    ready := AcceptedAndEnforced(g.value.conditions);
  }

  // ---------------------------------------------------------------- interleaved passes

  /** The models that policies which are to stay refer to. */
  function Referenced(policies: map<string, Policy>): set<ModelKey> {
    set p, k | p in policies && !policies[p].deleting && k in policies[p].refs :: k
  }

  datatype Cluster = Cluster(policies: map<string, Policy>, legacy: set<ModelKey>, slices: seq<Slice>,
                             gateway: Option<GatewayPolicy>)

  datatype Stage =
    | ListRefs
    | Scan(todo: set<ModelKey>)
    | CheckEndpoint
    | WriteGateway
    | CheckGateway
    | Remove

  /** A pass over one policy: what it read, and the readiness it saw, as it was then. */
  datatype Pass = Pass(copy: Policy, stage: Stage, listed: set<ModelKey>, found: bool,
                       endpointSeen: Option<seq<Slice>>, gatewaySeen: Option<Option<GatewayPolicy>>)

  datatype World = World(now: Cluster, passes: map<string, Pass>)

  datatype Step =
    | Start(p: string)
    | List(p: string)
    | Look(p: string, key: ModelKey)
    | ScanDone(p: string)
    | AskEndpoint(p: string)
    | Write(p: string, changed: bool, gateway: Option<GatewayPolicy>)
    | AskGateway(p: string)
    | Delete(p: string, key: ModelKey)
    | Stop(p: string)
    | FinalizerDelete(p: string, key: ModelKey)
    | SetPolicies(policies: map<string, Policy>)
    | SetSlices(slices: seq<Slice>)
    | SetGateway(gateway: Option<GatewayPolicy>)
    | Vanish(key: ModelKey)

  predicate At(w: World, p: string, stage: Stage) {
    p in w.passes && w.passes[p].stage == stage
  }

  predicate Enabled(w: World, s: Step) {
    match s
    case Start(p) => p in w.now.policies && !w.now.policies[p].deleting
    case List(p) => At(w, p, ListRefs)
    case Look(p, key) => p in w.passes && w.passes[p].stage.Scan? && key in w.passes[p].stage.todo
    case ScanDone(p) => At(w, p, Scan({}))
    case AskEndpoint(p) => At(w, p, CheckEndpoint)
    case Write(p, _, _) => At(w, p, WriteGateway)
    case AskGateway(p) => At(w, p, CheckGateway)
    // Any model: its own references, and those it once had.
    case Delete(p, key) => At(w, p, Remove)
    case Stop(p) => p in w.passes
    // The cleanup of a policy that is on its way out checks nothing.
    case FinalizerDelete(p, key) => p in w.now.policies && w.now.policies[p].deleting
    case _ => true
  }

  function Moved(w: World, p: string, pass: Pass): World {
    w.(passes := w.passes[p := pass])
  }

  function Ended(w: World, p: string): World {
    w.(passes := w.passes - {p})
  }

  /** The gateway policy must prove itself when it changed, when it takes over, and until all was well once. */
  predicate MustCheckGateway(pass: Pass, changed: bool) {
    changed || pass.found || !pass.copy.active
  }

  ghost function Apply(w: World, s: Step): World
    requires Enabled(w, s)
  {
    match s
    case Start(p) => Moved(w, p, Pass(w.now.policies[p], ListRefs, {}, false, None, None))
    case List(p) =>
      var listed := Referenced(w.now.policies);
      Moved(w, p, w.passes[p].(stage := Scan(listed), listed := listed))
    case Look(p, key) =>
      if key in w.now.legacy then Moved(w, p, w.passes[p].(stage := CheckEndpoint, found := true))
      else Moved(w, p, w.passes[p].(stage := Scan(w.passes[p].stage.todo - {key})))
    case ScanDone(p) => Moved(w, p, w.passes[p].(stage := WriteGateway))
    case AskEndpoint(p) =>
      if TargetReady(w.now.slices) then Moved(w, p, w.passes[p].(stage := WriteGateway, endpointSeen := Some(w.now.slices)))
      else Ended(w, p)
    case Write(p, changed, gateway) =>
      var w' := if changed then w.(now := w.now.(gateway := gateway)) else w;
      Moved(w', p, w.passes[p].(stage := if MustCheckGateway(w.passes[p], changed) then CheckGateway else Remove))
    case AskGateway(p) =>
      if InForce(w.now.gateway) then Moved(w, p, w.passes[p].(stage := Remove, gatewaySeen := Some(w.now.gateway)))
      else Ended(w, p)
    case Delete(p, key) => w.(now := w.now.(legacy := w.now.legacy - {key}))
    case Stop(p) => Ended(w, p)
    case FinalizerDelete(p, key) => w.(now := w.now.(legacy := w.now.legacy - {key}))
    case SetPolicies(policies) => w.(now := w.now.(policies := policies))
    case SetSlices(slices) => w.(now := w.now.(slices := slices))
    case SetGateway(gateway) => w.(now := w.now.(gateway := gateway))
    case Vanish(key) => w.(now := w.now.(legacy := w.now.legacy - {key}))
  }

  /** The pass saw the replacement ready: an endpoint, and the gateway policy in force. */
  ghost predicate SawReplacement(pass: Pass) {
    && pass.endpointSeen.Some? && TargetReady(pass.endpointSeen.value)
    && pass.gatewaySeen.Some? && InForce(pass.gatewaySeen.value)
  }

  ghost predicate PassInv(legacy: set<ModelKey>, pass: Pass) {
    && (!pass.found ==> pass.endpointSeen.None?)
    && match pass.stage
       case ListRefs => !pass.found
       case Scan(todo) => !pass.found && legacy !! (pass.listed - todo)
       case CheckEndpoint => pass.found
       case WriteGateway => if pass.found then EndpointSeen(pass) else legacy !! pass.listed
       case CheckGateway => if pass.found then EndpointSeen(pass) else legacy !! pass.listed
       case Remove => if pass.found then SawReplacement(pass) else legacy !! pass.listed
  }

  ghost predicate EndpointSeen(pass: Pass) {
    pass.endpointSeen.Some? && TargetReady(pass.endpointSeen.value)
  }

  ghost predicate Inv(w: World) {
    forall p | p in w.passes :: PassInv(w.now.legacy, w.passes[p])
  }

  lemma FewerLegacy(before: set<ModelKey>, after: set<ModelKey>, pass: Pass)
    requires PassInv(before, pass) && after <= before
    ensures PassInv(after, pass)
  {
  }

  lemma StepKeepsInv(w: World, s: Step)
    requires Inv(w) && Enabled(w, s)
    ensures Inv(Apply(w, s)) && Apply(w, s).now.legacy <= w.now.legacy
  {
    var w' := Apply(w, s);
    assert w'.now.legacy <= w.now.legacy;
    forall p | p in w'.passes ensures PassInv(w'.now.legacy, w'.passes[p]) {
      PassKeepsInv(w, s, p);
    }
  }

  lemma PassKeepsInv(w: World, s: Step, p: string)
    requires Inv(w) && Enabled(w, s) && p in Apply(w, s).passes
    ensures PassInv(Apply(w, s).now.legacy, Apply(w, s).passes[p])
  {
    if p in w.passes {
      FewerLegacy(w.now.legacy, Apply(w, s).now.legacy, w.passes[p]);
    }
  }

  ghost predicate Runs(w: World, steps: seq<Step>, w': World)
    decreases |steps|
  {
    if steps == [] then w == w'
    else Enabled(w, steps[0]) && Runs(Apply(w, steps[0]), steps[1..], w')
  }

  lemma {:induction false} RunKeepsInv(w: World, steps: seq<Step>, w': World)
    requires Inv(w) && Runs(w, steps, w')
    ensures Inv(w')
    decreases |steps|
  {
    if steps != [] {
      StepKeepsInv(w, steps[0]);
      RunKeepsInv(Apply(w, steps[0]), steps[1..], w');
    }
  }

  /**
   However passes interleave, one that deletes the legacy policy of a model referenced when it
   listed the policies has seen a ready endpoint and the gateway policy in force.
   */
  lemma NoCutoverWithoutReplacement(c: Cluster, steps: seq<Step>, w: World, p: string, key: ModelKey)
    requires Runs(World(c, map[]), steps, w) && Enabled(w, Delete(p, key))
    requires key in w.now.legacy && key in w.passes[p].listed
    ensures SawReplacement(w.passes[p])
  {
    RunKeepsInv(World(c, map[]), steps, w);
    assert PassInv(w.now.legacy, w.passes[p]);
  }

  /** The step takes the legacy policy of a model that some policy still refers to. */
  ghost predicate TakesLegacy(w: World, s: Step, key: ModelKey)
    requires Enabled(w, s)
  {
    key in w.now.legacy && key !in Apply(w, s).now.legacy && key in Referenced(w.now.policies)
  }

  /** The step belongs to a pass that has seen the replacement. */
  ghost predicate AfterSighting(w: World, s: Step)
    requires Enabled(w, s)
  {
    s.Delete? && SawReplacement(w.passes[s.p])
  }

  /**
   A legacy policy in use is taken after a sighting of the replacement exactly when the pass that
   takes it had found a legacy policy in its scan; the cleanup of a policy being deleted, and anyone
   else, takes it without. A pass that takes it without had not listed the model.
   */
  lemma ReplacementSeenExactly(c: Cluster, steps: seq<Step>, w: World, s: Step, key: ModelKey)
    requires Runs(World(c, map[]), steps, w) && Enabled(w, s) && TakesLegacy(w, s, key)
    ensures AfterSighting(w, s) <==> s.Delete? && w.passes[s.p].found
    ensures s.Delete? && !w.passes[s.p].found ==> key !in w.passes[s.p].listed
    ensures (s.Delete? && s.key == key) || (s.FinalizerDelete? && s.key == key) || s == Vanish(key)
  {
    RunKeepsInv(World(c, map[]), steps, w);
    if s.Delete? {
      assert PassInv(w.now.legacy, w.passes[s.p]);
    }
  }

  /** The same for every pass at its deletes, whatever it deletes. */
  lemma PassSawReplacementExactly(c: Cluster, steps: seq<Step>, w: World, p: string, key: ModelKey)
    requires Runs(World(c, map[]), steps, w) && Enabled(w, Delete(p, key))
    ensures SawReplacement(w.passes[p]) <==> w.passes[p].found
    ensures w.now.legacy * w.passes[p].listed != {} ==> w.passes[p].found
  {
    RunKeepsInv(World(c, map[]), steps, w);
    assert PassInv(w.now.legacy, w.passes[p]);
  }

  /** A pass's finding is a sighting too: of the legacy policy of a model it had listed. */
  lemma FoundMeansSeen(w: World, s: Step, p: string)
    requires Enabled(w, s) && !s.Start? && p in w.passes && p in Apply(w, s).passes
    ensures Apply(w, s).passes[p].found != w.passes[p].found ==>
              s.Look? && s.p == p && s.key in w.now.legacy && s.key in w.passes[p].stage.todo
  {
  }

  /** What a pass holds in evidence is what the cluster was when it asked. */
  lemma EvidenceIsGenuine(w: World, s: Step, p: string)
    requires Enabled(w, s) && p in w.passes && p in Apply(w, s).passes && !s.Start?
    ensures var pass, pass' := w.passes[p], Apply(w, s).passes[p];
            && (pass'.endpointSeen != pass.endpointSeen ==> s == AskEndpoint(p) && pass'.endpointSeen == Some(w.now.slices))
            && (pass'.gatewaySeen != pass.gatewaySeen ==> s == AskGateway(p) && pass'.gatewaySeen == Some(w.now.gateway))
            && (pass'.listed != pass.listed ==> s == List(p) && pass'.listed == Referenced(w.now.policies))
  {
  }

  lemma {:induction false} RunsAppend(w: World, steps: seq<Step>, m: World, s: Step)
    requires Runs(w, steps, m) && Enabled(m, s)
    ensures Runs(w, steps + [s], Apply(m, s))
    decreases |steps|
  {
    if steps == [] {
      assert [s][1..] == [];
    } else {
      RunsAppend(Apply(w, steps[0]), steps[1..], m, s);
      assert (steps + [s])[1..] == steps[1..] + [s];
    }
  }

  lemma Take(start: World, steps: seq<Step>, w: World, s: Step) returns (w': World, steps': seq<Step>)
    requires Runs(start, steps, w) && Enabled(w, s)
    ensures w' == Apply(w, s) && steps' == steps + [s] && Runs(start, steps', w')
  {
    RunsAppend(start, steps, w, s);
    w', steps' := Apply(w, s), steps + [s];
  }

  /**
   A reference that another policy gains after the list was read is not protected: the pass of a
   policy that once had the model takes its legacy policy away with nothing ready.
   */
  lemma LateReferenceIsMissed(key: ModelKey) returns (steps: seq<Step>, w: World)
    ensures var c := Cluster(map["old" := Policy([], false, true)], {key}, [], None);
            Runs(World(c, map[]), steps, w) && Enabled(w, Delete("old", key))
    ensures key in w.now.legacy && key in Referenced(w.now.policies) && key !in w.passes["old"].listed
    ensures !TargetReady(w.now.slices) && !InForce(w.now.gateway)
  {
    var former := Policy([], false, true);
    var start := World(Cluster(map["old" := former], {key}, [], None), map[]);
    steps, w := [], start;
    w, steps := Take(start, steps, w, Start("old"));
    w, steps := Take(start, steps, w, List("old"));
    assert w.passes["old"].stage.todo == {};
    w, steps := Take(start, steps, w, ScanDone("old"));
    w, steps := Take(start, steps, w, Write("old", false, None));
    var later := Policy([key], false, true);
    w, steps := Take(start, steps, w, SetPolicies(map["old" := former, "new" := later]));
    assert "new" in w.now.policies && key in w.now.policies["new"].refs;
  }

  /** The cleanup of a policy being deleted does not wait either, though another policy still has the model. */
  lemma FinalizerDoesNotWait(key: ModelKey)
    ensures var c := Cluster(map["gone" := Policy([key], true, true), "kept" := Policy([key], false, true)], {key}, [], None);
            var w := World(c, map[]);
            && Enabled(w, FinalizerDelete("gone", key)) && key in Referenced(c.policies)
            && !TargetReady(c.slices) && !InForce(c.gateway)
            && key !in Apply(w, FinalizerDelete("gone", key)).now.legacy
  {
    var policies := map["gone" := Policy([key], true, true), "kept" := Policy([key], false, true)];
    assert "kept" in policies && key in policies["kept"].refs;
  }

  // ---------------------------------------------------------------- one pass undisturbed

  /** A legacy policy, with the policies it was generated from. */
  datatype Legacy = Legacy(owners: set<string>, managed: bool)

  datatype Route = ModelMissing | RouteMissing | RouteIn(namespace: string)

  datatype Outcome = WaitingForEndpoint | WaitingForGateway | Done

  /** Where the policy of a referenced model is looked for; a model without a route is left alone. */
  function TargetOf(r: ModelKey, routes: ModelKey -> Route): Option<ModelKey> {
    match routes(r)
    case ModelMissing => Some(r)
    case RouteMissing => None
    case RouteIn(ns) => Some(ModelKey(ns, r.name))
  }

  ghost predicate OwnTarget(k: ModelKey, refs: seq<ModelKey>, routes: ModelKey -> Route) {
    exists r :: r in refs && TargetOf(r, routes) == Some(k)
  }

  predicate Stale(l: Legacy, k: ModelKey, p: string, refs: seq<ModelKey>) {
    l.managed && k !in refs && p in l.owners
  }

  /** The legacy policies a pass over `p` does away with. */
  ghost function Superseded(legacy: map<ModelKey, Legacy>, p: string, refs: seq<ModelKey>,
                            routes: ModelKey -> Route): set<ModelKey> {
    set k | k in legacy && ((legacy[k].managed && OwnTarget(k, refs, routes)) || Stale(legacy[k], k, p, refs))
  }

  ghost predicate WithoutTargets(before: map<ModelKey, Legacy>, legacy: map<ModelKey, Legacy>, refs: seq<ModelKey>,
                                 routes: ModelKey -> Route) {
    && (forall k :: k in legacy <==> k in before && !(before[k].managed && OwnTarget(k, refs, routes)))
    && (forall k | k in legacy :: legacy[k] == before[k])
  }

  lemma OneMoreTarget(refs: seq<ModelKey>, i: nat, routes: ModelKey -> Route)
    requires i < |refs|
    ensures forall k :: OwnTarget(k, refs[..i + 1], routes) <==>
                          (OwnTarget(k, refs[..i], routes) || TargetOf(refs[i], routes) == Some(k))
  {
    assert refs[..i + 1] == refs[..i] + [refs[i]];
    assert refs[i] in refs[..i + 1];
    forall k
      ensures OwnTarget(k, refs[..i + 1], routes) <==>
                (OwnTarget(k, refs[..i], routes) || TargetOf(refs[i], routes) == Some(k))
    {
      if OwnTarget(k, refs[..i], routes) {
        var r :| r in refs[..i] && TargetOf(r, routes) == Some(k);
        assert r in refs[..i + 1];
      }
    }
  }

  class CutoverReconciler {
    var policies: map<string, Policy>
    var legacy: map<ModelKey, Legacy>
    var slices: seq<Slice>
    var gateway: Option<GatewayPolicy>

    method HasLegacyModelAuthPolicy() returns (found: bool)
      ensures found <==> Referenced(policies) * legacy.Keys != {}
    {
      var checked: set<ModelKey> := {};
      var todo := policies.Keys;
      while todo != {}
        invariant todo <= policies.Keys
        invariant checked !! legacy.Keys
        invariant forall p, k | p in policies && p !in todo && !policies[p].deleting && k in policies[p].refs :: k in checked
        decreases todo
      {
        var p :| p in todo;
        todo := todo - {p};
        if policies[p].deleting {
          continue;
        }
        var refs := policies[p].refs;
        for i := 0 to |refs|
          invariant checked !! legacy.Keys
          invariant forall k | k in refs[..i] :: k in checked
          invariant forall q, k | q in policies && q !in todo && q != p && !policies[q].deleting
                                  && k in policies[q].refs :: k in checked
        {
          assert refs[..i + 1] == refs[..i] + [refs[i]];
          if refs[i] in checked {
            continue;
          }
          if refs[i] in legacy {
            assert refs[i] in policies[p].refs && refs[i] in Referenced(policies);
            return true;
          }
          checked := checked + {refs[i]};
        }
        assert refs[..|refs|] == refs;
      }
      assert Referenced(policies) <= checked;
      return false;
    }

    /** Deletes a model's legacy policy unless it opted out of management. */
    method DeleteModelAuthPolicy(key: ModelKey)
      modifies this`legacy
      ensures legacy == old(legacy) - (if key in old(legacy) && old(legacy)[key].managed then {key} else {})
    {
      if key in legacy && legacy[key].managed {
        legacy := legacy - {key};
      }
    }

    /** Deletes what models the policy refers to, and models it no longer does, still have. */
    method ReconcileModelAuthPolicies(p: string, routes: ModelKey -> Route)
      requires p in policies
      modifies this`legacy
      ensures legacy == old(legacy) - Superseded(old(legacy), p, policies[p].refs, routes)
    {
      ghost var before := legacy;
      var refs := policies[p].refs;
      for i := 0 to |refs|
        invariant WithoutTargets(before, legacy, refs[..i], routes)
      {
        OneMoreTarget(refs, i, routes);
        var target := TargetOf(refs[i], routes);
        if target.None? {
          continue;
        }
        DeleteModelAuthPolicy(target.value);
      }
      assert refs[..|refs|] == refs;
      CleanupStaleAuthPolicies(p);
    }

    /** Deletes the policies of models that `p` once referred to and no longer does. */
    method CleanupStaleAuthPolicies(p: string)
      requires p in policies
      modifies this`legacy
      ensures forall k :: k in legacy <==> k in old(legacy) && !Stale(old(legacy)[k], k, p, policies[p].refs)
      ensures forall k | k in legacy :: legacy[k] == old(legacy)[k]
    {
      var refs := policies[p].refs;
      var listed := legacy;
      var todo := listed.Keys;
      while todo != {}
        invariant todo <= listed.Keys && listed == old(legacy)
        invariant forall k :: k in legacy <==> k in listed && (k in todo || !Stale(listed[k], k, p, refs))
        invariant forall k | k in legacy :: legacy[k] == listed[k]
        decreases todo
      {
        var k :| k in todo;
        todo := todo - {k};
        if k in refs {
          continue;
        }
        if p !in listed[k].owners {
          continue;
        }
        DeleteModelAuthPolicy(k);
      }
    }

    /**
     While legacy policies are in use nothing is deleted before the replacement's endpoint is ready
     and its gateway policy, as just written, is in force.
     */
    method Reconcile(p: string, written: Option<GatewayPolicy>, routes: ModelKey -> Route) returns (outcome: Outcome)
      requires p in policies && !policies[p].deleting
      modifies this`legacy, this`gateway
      ensures var inUse := Referenced(policies) * old(legacy).Keys != {};
              && (outcome.WaitingForEndpoint? <==> inUse && !TargetReady(slices))
              && (outcome.WaitingForGateway? ==> !InForce(gateway))
              && (outcome.Done? && (inUse || written.Some? || !policies[p].active) ==> InForce(gateway))
      ensures legacy == if outcome.Done? then old(legacy) - Superseded(old(legacy), p, policies[p].refs, routes) else old(legacy)
      ensures gateway == if outcome.WaitingForEndpoint? || written.None? then old(gateway) else written
    {
      var found := HasLegacyModelAuthPolicy();
      if found {
        var ready := TargetMaaSAPIReady(slices);
        if !ready {
          return WaitingForEndpoint;
        }
      }
      if written.Some? {
        gateway := written;
      }
      if written.Some? || found || !policies[p].active {
        var ready := GatewayAuthPolicyReady(gateway);
        if !ready {
          return WaitingForGateway;
        }
      }
      ReconcileModelAuthPolicies(p, routes);
      return Done;
    }
  }
}
