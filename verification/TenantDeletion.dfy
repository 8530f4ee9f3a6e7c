/**
 Deleting an AITenant.

 A deletion pass is a sequence of API calls that can stop after any of them and start again from
 a cached copy of the AITenant. `World` interleaves those calls with everything else that may
 happen meanwhile: the revocation Job, the MaasTenantConfig's own cleanup, label requests for any
 gateway, edits. Nobody else hands objects to the tenant being deleted. `DeletionPass` is one pass, undisturbed.
 */
module TenantDeletion {
  import opened Ordering
  import opened Wrappers
  import L = GatewayLabels

  /** `waived` is the annotation that declares the API keys revoked; `revoked` is the status condition. */
  datatype AITenant = AITenant(finalizer: bool, revoked: bool, waived: bool, gateway: string, version: nat)

  datatype Job = Job(uid: string, complete: bool, failed: bool)

  /** An object that names an AITenant as its owner; `held` objects outlive a delete until released. */
  datatype Obj = Obj(owned: bool, deleting: bool, held: bool)

  datatype Child = TenantRoleBinding | TenantRole | AccessRoleBinding | AccessRole

  /** The infrastructure namespace; `Unreadable` when its ownership annotation does not parse. */
  datatype Infra = Missing | Unreadable | Readable(ns: L.Namespace)

  const CHILDREN := [TenantRoleBinding, TenantRole, AccessRoleBinding, AccessRole]

  function Deleted(o: Option<Obj>): Option<Obj> {
    if o.None? || !o.value.held then None else Some(o.value.(deleting := true))
  }

  predicate Gone(o: Option<Obj>) {
    o.None? || !o.value.owned
  }

  /** Nothing left to do for the controller: absent, someone else's, or on its way out. */
  predicate Settled(o: Option<Obj>) {
    Gone(o) || o.value.deleting
  }

  function Lookup<K>(m: map<K, Obj>, k: K): Option<Obj> {
    if k in m then Some(m[k]) else None
  }

  function Replace<K>(m: map<K, Obj>, k: K, o: Option<Obj>): map<K, Obj> {
    if o.Some? then m[k := o.value] else m - {k}
  }

  predicate Owns(infra: Infra, gateway: string, k: string) {
    infra.Readable? && k in infra.ns.owners && gateway in infra.ns.owners[k]
  }

  ghost predicate Unlabelled(infra: Infra, gateway: string) {
    forall k :: !Owns(infra, gateway, k)
  }

  function Unlabel(infra: Infra, gateway: string): Infra {
    if infra.Readable? then Readable(L.Cleaned(infra.ns, gateway)) else infra
  }

  /** The namespace takes a request for labels unless someone else stands behind another value. */
  predicate Accepted(infra: Infra, gateway: string, desired: L.Labels) {
    infra.Readable? && !L.Refused(infra.ns, gateway, desired)
  }

  function Relabel(infra: Infra, gateway: string, desired: L.Labels): Infra {
    if Accepted(infra, gateway, desired) then Readable(L.Ensured(infra.ns, gateway, desired)) else infra
  }

  predicate DeclaredRevoked(t: AITenant) {
    t.waived || t.revoked
  }

  // ---------------------------------------------------------------- interleaved steps

  /** The API call a pass makes next. */
  datatype Call =
    | Idle
    | WriteTerminating
    | GetJob
    | CreateJob
    | DropJob(failed: bool)
    | Mark
    | Report
    | GetConfig
    | GuardConfig
    | DeleteConfig
    | GetChild(todo: seq<Child>)
    | RemoveChild(child: Child, rest: seq<Child>)
    | GetNamespace
    | ReleaseNamespace
    | GetPolicy
    | DeletePolicy
    | ListClaims
    | DeleteClaims(names: set<string>)
    | Unlabelling
    | Finalize
    | ForgetJob

  /**
   The cluster. `past` holds every version of the AITenant since its deletion began, `ran` says that
   a revocation Job carrying its uid has completed, `everWaived` that the annotation was ever set,
   `requested` that the controller asked for the config's deletion, `forced` that the timeout struck,
   and `cleaned` names the gateway whose labels the last pass gave up.
   */
  datatype Cluster = Cluster(uid: string, tenant: AITenant, past: set<AITenant>, job: Option<Job>,
                             config: Option<Obj>, children: map<Child, Obj>, namespace: Option<Obj>,
                             policy: Option<Obj>, claims: map<string, Obj>, infra: Infra,
                             ran: bool, everWaived: bool, requested: bool, forced: bool, cleaned: string)

  /** The cluster and one deletion pass, which keeps its own copy `mem` of the AITenant. */
  datatype World = World(now: Cluster, next: Call, mem: AITenant)

  datatype Step =
    | Read(copy: AITenant)
    | SetTerminating(changed: bool)
    | Next
    | DeleteClaim(name: string)
    | Fail
    | Blocked
    | Foreign(change: Change)

  /** What may happen to the cluster besides the pass; `ForceRemove` is the deletion timeout. */
  datatype Change =
    | ForceRemove
    | JobEnds(complete: bool, failed: bool)
    | JobExpires
    | StrangersJob(job: Job)
    | Edit(gateway: string, waived: bool)
    | Others(config: Option<Obj>, children: map<Child, Obj>, namespace: Option<Obj>,
             policy: Option<Obj>, claims: map<string, Obj>)
    | EnsureLabels(gateway: string, desired: L.Labels)
    | CleanLabels(gateway: string)
    | LoseInfra

  /** Others may delete, release or replace an object, but neither claim it for the tenant nor revive it. */
  predicate NoNewOwner(before: Option<Obj>, after: Option<Obj>) {
    after.Some? && after.value.owned ==>
      before.Some? && before.value.owned && (before.value.deleting ==> after.value.deleting)
  }

  ghost predicate Possible(c: Cluster, e: Change) {
    match e
    case ForceRemove => true
    case JobEnds(complete, failed) =>
      c.job.Some? && (c.job.value.complete ==> complete) && (c.job.value.failed ==> failed)
    case JobExpires => true
    case StrangersJob(job) => c.job.None? && job.uid != c.uid
    case Edit(_, _) => true
    case Others(config, children, namespace, policy, claims) =>
      && NoNewOwner(c.config, config) && NoNewOwner(c.namespace, namespace) && NoNewOwner(c.policy, policy)
      && (forall k :: NoNewOwner(Lookup(c.children, k), Lookup(children, k)))
      && (forall n :: NoNewOwner(Lookup(c.claims, n), Lookup(claims, n)))
    case EnsureLabels(_, _) => true
    case CleanLabels(_) => true
    case LoseInfra => true
  }

  ghost predicate Enabled(w: World, s: Step) {
    match s
    case Read(copy) => w.next.Idle? && copy in w.now.past
    case SetTerminating(_) => w.next.WriteTerminating?
    case Next => Busy(w.next) && !w.next.WriteTerminating? && (w.next.DeleteClaims? ==> w.next.names == {})
    case DeleteClaim(n) => w.next.DeleteClaims? && n in w.next.names
    case Fail => true
    case Blocked => MayReport(w.next)
    case Foreign(e) => Possible(w.now, e)
  }

  /** Calls whose failure is reported in the status before the pass ends. */
  predicate MayReport(n: Call) {
    n.GetJob? || n.CreateJob? || n.DropJob? || n.Mark? || n.GetNamespace? || n.ReleaseNamespace?
  }

  predicate Busy(n: Call) {
    !n.Idle?
  }

  ghost predicate Known(past: set<AITenant>, gateway: string) {
    exists t | t in past :: t.gateway == gateway
  }

  // The writes.

  function Stored(c: Cluster, t: AITenant): Cluster {
    c.(tenant := t, past := c.past + {t})
  }

  /** A status write carries the version it was computed from and is refused when that has moved on. */
  predicate StatusAccepted(c: Cluster, mem: AITenant) {
    mem.version == c.tenant.version
  }

  function StatusOf(c: Cluster, revoked: bool): AITenant {
    c.tenant.(revoked := revoked, version := c.tenant.version + 1)
  }

  /** The finalizer patch takes no version. */
  function Finalized(c: Cluster): Cluster {
    Stored(c, c.tenant.(finalizer := false, version := c.tenant.version + 1))
  }

  function Guarded(o: Option<Obj>): Option<Obj> {
    if o.Some? && !o.value.deleting then Some(o.value.(held := true)) else o
  }

  function Released(o: Option<Obj>): Option<Obj> {
    if o.Some? then Some(o.value.(owned := false)) else None
  }

  function Changed(c: Cluster, e: Change): Cluster
    requires e.JobEnds? ==> c.job.Some?
  {
    match e
    case ForceRemove => Finalized(c).(forced := true, requested := true)
    case JobEnds(complete, failed) =>
      c.(job := Some(Job(c.job.value.uid, complete, failed)), ran := c.ran || (c.job.value.uid == c.uid && complete))
    case JobExpires => c.(job := None)
    case StrangersJob(job) => c.(job := Some(job))
    case Edit(gateway, waived) =>
      var t := c.tenant.(gateway := gateway, waived := waived, version := c.tenant.version + 1);
      Stored(c, t).(everWaived := c.everWaived || waived)
    case Others(config, children, namespace, policy, claims) =>
      c.(config := config, children := children, namespace := namespace, policy := policy, claims := claims)
    case EnsureLabels(g, desired) => c.(infra := Relabel(c.infra, g, desired))
    case CleanLabels(g) => c.(infra := Unlabel(c.infra, g))
    case LoseInfra => c.(infra := Missing)
  }

  // The reads, each answered with the call that follows.

  /** The revocation Job decides: run it, wait for it, drop a stranger's or a failed one, or record its success. */
  function AfterJob(c: Cluster, mem: AITenant): Call {
    if DeclaredRevoked(mem) then GetConfig
    else if c.job.None? then CreateJob
    else if c.job.value.uid != c.uid then DropJob(false)
    else if c.job.value.complete then Mark
    else if c.job.value.failed then DropJob(true)
    else Idle
  }

  function AfterConfig(c: Cluster): Call {
    if Gone(c.config) then GetChild(CHILDREN)
    else if c.config.value.deleting then Idle
    else if !c.config.value.held then GuardConfig
    else DeleteConfig
  }

  function AfterChild(c: Cluster, todo: seq<Child>): Call {
    if todo == [] then GetNamespace
    else if Gone(Lookup(c.children, todo[0])) then GetChild(todo[1..])
    else RemoveChild(todo[0], todo[1..])
  }

  function Owned(claims: map<string, Obj>): set<string> {
    set n | n in claims && claims[n].owned
  }

  /** A call that only reads, or that fails without a trace. */
  function Looked(w: World): Option<Call> {
    match w.next
    case GetJob => Some(AfterJob(w.now, w.mem))
    case GetConfig => Some(AfterConfig(w.now))
    case GetChild(todo) => Some(AfterChild(w.now, todo))
    case GetNamespace => Some(if Settled(w.now.namespace) then GetPolicy else ReleaseNamespace)
    case GetPolicy => Some(if Gone(w.now.policy) then ListClaims else DeletePolicy)
    case ListClaims => Some(DeleteClaims(Owned(w.now.claims)))
    case DeleteClaims(_) => Some(Unlabelling)
    case _ => None
  }

  /** A call that writes to an object other than the AITenant. */
  function Wrote(w: World): Option<(Cluster, Call)> {
    var c := w.now;
    match w.next
    case CreateJob => Some((if c.job.None? then c.(job := Some(Job(c.uid, false, false))) else c, Idle))
    case DropJob(failed) => Some((c.(job := None), if failed then Report else Idle))
    case GuardConfig => Some((c.(config := Guarded(c.config)), Idle))
    case DeleteConfig => Some((c.(config := Deleted(c.config), requested := true), Idle))
    case RemoveChild(child, todo) =>
      Some((c.(children := Replace(c.children, child, Deleted(Lookup(c.children, child)))), GetChild(todo)))
    case ReleaseNamespace => Some((c.(namespace := Released(c.namespace)), GetPolicy))
    case DeletePolicy => Some((c.(policy := Deleted(c.policy)), ListClaims))
    case Unlabelling => Some((c.(infra := Unlabel(c.infra, w.mem.gateway)), Finalize))
    case ForgetJob => Some((c.(job := None), Idle))
    case _ => None
  }

  function Goto(w: World, n: Call): World {
    w.(next := n)
  }

  function WriteStatus(w: World, revoked: bool, n: Call): World {
    var t := StatusOf(w.now, revoked);
    World(Stored(w.now, t), n, t)
  }

  /** The call a pass is about to make, answered by the cluster as it is. */
  function Answered(w: World): World {
    if Looked(w).Some? then Goto(w, Looked(w).value)
    else if Wrote(w).Some? then World(Wrote(w).value.0, Wrote(w).value.1, w.mem)
    else if w.next.Mark? then
      // A failed write of the record leaves it in the copy, which the report writes next.
      if StatusAccepted(w.now, w.mem) then WriteStatus(w, true, GetConfig)
      else Goto(w, Report).(mem := w.mem.(revoked := true))
    else if w.next.Report? then
      if StatusAccepted(w.now, w.mem) then WriteStatus(w, w.mem.revoked, Idle) else Goto(w, Idle)
    else if w.next.Finalize? then World(Finalized(w.now).(cleaned := w.mem.gateway), ForgetJob, w.mem)
    else w
  }

  function Apply(w: World, s: Step): World
    requires Enabled(w, s)
  {
    match s
    case Read(copy) => if copy.finalizer then World(w.now, WriteTerminating, copy) else w
    case SetTerminating(changed) =>
      if !changed then Goto(w, GetJob)
      else if StatusAccepted(w.now, w.mem) then WriteStatus(w, w.mem.revoked, GetJob)
      else Goto(w, Idle)
    case Next => Answered(w)
    case DeleteClaim(n) =>
      World(w.now.(claims := Replace(w.now.claims, n, Deleted(Lookup(w.now.claims, n)))), DeleteClaims(w.next.names - {n}), w.mem)
    case Fail => Goto(w, Idle)
    case Blocked => if w.next.Mark? then Goto(w, Report).(mem := w.mem.(revoked := true)) else Goto(w, Report)
    case Foreign(e) => w.(now := Changed(w.now, e))
  }

  // ---------------------------------------------------------------- what every step keeps

  predicate Recorded(c: Cluster) {
    c.tenant.revoked || c.everWaived
  }

  /** How far along a pass is; 7 means that only the labels and the finalizer are left. */
  function Stage(n: Call): nat {
    match n
    case GetConfig => 2
    case GuardConfig => 2
    case DeleteConfig => 2
    case GetChild(_) => 3
    case RemoveChild(_, _) => 3
    case GetNamespace => 4
    case ReleaseNamespace => 4
    case GetPolicy => 5
    case DeletePolicy => 5
    case ListClaims => 6
    case DeleteClaims(_) => 6
    case Unlabelling => 7
    case Finalize => 7
    case _ => 1
  }

  ghost predicate ChildrenSettled(children: map<Child, Obj>, todo: seq<Child>) {
    forall c: Child :: c in todo || Settled(Lookup(children, c))
  }

  ghost predicate ClaimsSettled(claims: map<string, Obj>, names: set<string>) {
    forall n: string :: n in names || Settled(Lookup(claims, n))
  }

  /** Everything the stages before `stage` are there to achieve. */
  ghost predicate Achieved(c: Cluster, stage: nat) {
    && (stage >= 2 ==> Recorded(c))
    && (stage >= 3 ==> Gone(c.config))
    && (stage >= 4 ==> ChildrenSettled(c.children, []))
    && (stage >= 5 ==> Settled(c.namespace))
    && (stage >= 6 ==> Settled(c.policy))
    && (stage >= 7 ==> ClaimsSettled(c.claims, {}))
  }

  /** The tenant may go only when all is achieved, for the gateway it had in some version. */
  ghost predicate SafelyGone(c: Cluster) {
    Achieved(c, 7) && Known(c.past, c.cleaned)
  }

  ghost predicate PastInv(past: set<AITenant>, tenant: AITenant, everWaived: bool) {
    && tenant in past
    && forall t | t in past ::
         && t.version <= tenant.version
         && (t.version == tenant.version ==> t == tenant)
         && (t.revoked ==> tenant.revoked)
         && (t.waived ==> everWaived)
  }

  ghost predicate ClusterInv(c: Cluster) {
    && PastInv(c.past, c.tenant, c.everWaived)
    && (c.tenant.revoked ==> c.ran)
    && (c.job.Some? && c.job.value.uid == c.uid && c.job.value.complete ==> c.ran)
    && (c.requested ==> Recorded(c) || c.forced)
    && (!c.tenant.finalizer && !c.forced ==> SafelyGone(c))
  }

  /** A pass's copy of the AITenant is an old or the present one. */
  ghost predicate MemInv(c: Cluster, mem: AITenant) {
    && mem.version <= c.tenant.version
    && (mem.version == c.tenant.version && c.tenant.revoked ==> mem.revoked)
    && (mem.revoked ==> c.ran)
    && (mem.waived ==> c.everWaived)
    && Known(c.past, mem.gateway)
  }

  ghost predicate NextInv(c: Cluster, n: Call, mem: AITenant) {
    && (n.WriteTerminating? || n.GetJob? ==> mem.revoked ==> c.tenant.revoked)
    && (n.Mark? ==> c.ran)
    && (n.GetChild? || n.RemoveChild? ==> ChildrenSettled(c.children, if n.GetChild? then n.todo else [n.child] + n.rest))
    && (n.DeleteClaims? ==> ClaimsSettled(c.claims, n.names))
  }

  ghost predicate PassInv(w: World) {
    Busy(w.next) ==> MemInv(w.now, w.mem) && Achieved(w.now, Stage(w.next)) && NextInv(w.now, w.next, w.mem)
  }

  ghost predicate Inv(w: World) {
    ClusterInv(w.now) && PassInv(w)
  }

  /** The AITenant as it is when its deletion begins. */
  ghost predicate Initial(w: World) {
    var c := w.now;
    && c.tenant.finalizer && !c.tenant.revoked && c.past == {c.tenant} && w.next.Idle?
    && c.everWaived == c.tenant.waived && !c.requested && !c.forced
    && (c.job.Some? ==> c.job.value.uid != c.uid)
  }

  ghost predicate StaySettled<K(!new)>(m: map<K, Obj>, m': map<K, Obj>) {
    forall k :: Settled(Lookup(m, k)) ==> Settled(Lookup(m', k))
  }

  /** What is achieved stays so: nothing is handed back to the tenant. */
  ghost predicate Keeps(c: Cluster, c': Cluster) {
    && c.past <= c'.past
    && (Recorded(c) ==> Recorded(c'))
    && (Gone(c.config) ==> Gone(c'.config))
    && StaySettled(c.children, c'.children)
    && (Settled(c.namespace) ==> Settled(c'.namespace))
    && (Settled(c.policy) ==> Settled(c'.policy))
    && StaySettled(c.claims, c'.claims)
  }

  lemma KeepsAchieved(c: Cluster, c': Cluster, stage: nat, gateway: string)
    requires Keeps(c, c') && Achieved(c, stage) && Known(c.past, gateway)
    ensures Achieved(c', stage) && Known(c'.past, gateway)
  {
    var t :| t in c.past && t.gateway == gateway;
    assert t in c'.past;
  }

  /** Writes to anything but the AITenant. */
  ghost predicate Beside(c: Cluster, c': Cluster) {
    && c'.uid == c.uid && c'.tenant == c.tenant && c'.past == c.past && c'.everWaived == c.everWaived
    && c'.forced == c.forced && c'.cleaned == c.cleaned
    && (c.ran ==> c'.ran)
    && (c'.requested ==> c.requested || Recorded(c))
    && (c'.job == c.job || c'.job.None? || (c'.job.value.uid == c.uid && c'.job.value.complete ==> c'.ran))
  }

  lemma BesideKeepsInv(w: World, c': Cluster)
    requires Inv(w) && Beside(w.now, c') && Keeps(w.now, c')
    ensures ClusterInv(c')
    ensures Busy(w.next) ==> MemInv(c', w.mem) && Achieved(c', Stage(w.next))
  {
    var c := w.now;
    if !c.tenant.finalizer && !c.forced {
      KeepsAchieved(c, c', 7, c.cleaned);
    }
    if Busy(w.next) {
      KeepsAchieved(c, c', Stage(w.next), w.mem.gateway);
    }
  }

  lemma SettledStays(c: Cluster, c': Cluster, n: Call, mem: AITenant)
    requires NextInv(c, n, mem) && Keeps(c, c') && c'.tenant.revoked == c.tenant.revoked && (c.ran ==> c'.ran)
    ensures NextInv(c', n, mem)
  {
  }

  // ---------------------------------------------------------------- changes made by others

  lemma OthersKeep(c: Cluster, e: Change)
    requires Possible(c, e) && e.Others?
    ensures Keeps(c, Changed(c, e))
  {
    forall k | Settled(Lookup(c.children, k)) ensures Settled(Lookup(e.children, k)) {
      assert NoNewOwner(Lookup(c.children, k), Lookup(e.children, k));
    }
    forall n | Settled(Lookup(c.claims, n)) ensures Settled(Lookup(e.claims, n)) {
      assert NoNewOwner(Lookup(c.claims, n), Lookup(e.claims, n));
    }
  }

  /** A new version of the AITenant that forgets no revocation. */
  lemma StoreKeeps(c: Cluster, t: AITenant, everWaived: bool)
    requires PastInv(c.past, c.tenant, c.everWaived)
    requires t.version > c.tenant.version && (c.tenant.revoked ==> t.revoked)
    requires (c.everWaived ==> everWaived) && (t.waived ==> everWaived)
    ensures PastInv(c.past + {t}, t, everWaived)
    ensures Keeps(c, Stored(c, t).(everWaived := everWaived))
  {
  }

  lemma ChangeKeeps(c: Cluster, e: Change)
    requires ClusterInv(c) && Possible(c, e)
    ensures Keeps(c, Changed(c, e))
  {
    var c' := Changed(c, e);
    match e
    case ForceRemove => StoreKeeps(c, c'.tenant, c.everWaived);
    case Edit(gateway, waived) => StoreKeeps(c, c'.tenant, c'.everWaived);
    case Others(_, _, _, _, _) => OthersKeep(c, e);
    case _ =>
  }

  lemma ChangeKeepsInv(w: World, e: Change)
    requires Inv(w) && Possible(w.now, e)
    ensures Inv(Apply(w, Foreign(e)))
  {
    var c, c' := w.now, Changed(w.now, e);
    ChangeKeeps(c, e);
    if e.ForceRemove? || e.Edit? {
      VersionKeepsInv(w, e);
    } else {
      ChangeIsBeside(c, e);
      BesideKeepsInv(w, c');
    }
    if Busy(w.next) {
      SettledStays(c, c', w.next, w.mem);
    }
  }

  lemma ChangeIsBeside(c: Cluster, e: Change)
    requires ClusterInv(c) && Possible(c, e) && !e.ForceRemove? && !e.Edit?
    ensures Beside(c, Changed(c, e))
  {
  }

  /** A new version of the AITenant, by an edit or by the timeout. */
  lemma VersionKeepsInv(w: World, e: Change)
    requires Inv(w) && (e.ForceRemove? || e.Edit?) && Keeps(w.now, Changed(w.now, e))
    ensures ClusterInv(Changed(w.now, e))
    ensures Busy(w.next) ==> MemInv(Changed(w.now, e), w.mem) && Achieved(Changed(w.now, e), Stage(w.next))
  {
    var c, c' := w.now, Changed(w.now, e);
    StoreKeeps(c, c'.tenant, c'.everWaived);
    if !c.tenant.finalizer && !c.forced {
      KeepsAchieved(c, c', 7, c.cleaned);
    }
    if Busy(w.next) {
      KeepsAchieved(c, c', Stage(w.next), w.mem.gateway);
    }
  }

  // ---------------------------------------------------------------- the pass's own calls

  lemma LookKeepsInv(w: World)
    requires Inv(w) && Enabled(w, Next) && Looked(w).Some?
    ensures Inv(Goto(w, Looked(w).value))
  {
    match w.next
    case GetConfig => AllChildren(w.now.children);
    case GetChild(todo) => OneChildLess(w.now.children, todo);
    case _ =>
  }

  lemma AllChildren(children: map<Child, Obj>)
    ensures ChildrenSettled(children, CHILDREN)
  {
    forall c: Child ensures c in CHILDREN {
      match c
      case TenantRoleBinding => assert CHILDREN[0] == c;
      case TenantRole => assert CHILDREN[1] == c;
      case AccessRoleBinding => assert CHILDREN[2] == c;
      case AccessRole => assert CHILDREN[3] == c;
    }
  }

  lemma OneChildLess(children: map<Child, Obj>, todo: seq<Child>)
    requires ChildrenSettled(children, todo)
    ensures todo != [] && Settled(Lookup(children, todo[0])) ==> ChildrenSettled(children, todo[1..])
    ensures todo != [] ==> ChildrenSettled(children, [todo[0]] + todo[1..])
  {
    if todo != [] {
      assert todo == [todo[0]] + todo[1..];
      if Settled(Lookup(children, todo[0])) {
        forall c: Child ensures c in todo[1..] || Settled(Lookup(children, c)) {
          assert c in todo ==> c == todo[0] || c in todo[1..];
        }
      }
    }
  }

  lemma ReplaceSettles<K(!new)>(m: map<K, Obj>, k: K, o: Option<Obj>)
    requires Settled(o)
    ensures StaySettled(m, Replace(m, k, o)) && Settled(Lookup(Replace(m, k, o), k))
  {
    assert forall j :: j != k ==> Lookup(Replace(m, k, o), j) == Lookup(m, j);
  }

  lemma WriteKeeps(w: World)
    requires Inv(w) && Wrote(w).Some?
    ensures Keeps(w.now, Wrote(w).value.0)
  {
    var c, c' := w.now, Wrote(w).value.0;
    match w.next
    case RemoveChild(child, _) => ReplaceSettles(c.children, child, Deleted(Lookup(c.children, child)));
    case _ =>
  }

  lemma WriteKeepsInv(w: World)
    requires Inv(w) && Wrote(w).Some?
    ensures Inv(World(Wrote(w).value.0, Wrote(w).value.1, w.mem))
  {
    WriteKeeps(w);
    WriteIsBeside(w);
    BesideKeepsInv(w, Wrote(w).value.0);
    WriteKeepsNext(w);
  }

  lemma WriteIsBeside(w: World)
    requires Inv(w) && Wrote(w).Some?
    ensures Beside(w.now, Wrote(w).value.0)
  {
    match w.next
    case CreateJob =>
    case DropJob(_) =>
    case GuardConfig =>
    case DeleteConfig =>
    case RemoveChild(_, _) =>
    case ReleaseNamespace =>
    case DeletePolicy =>
    case Unlabelling =>
    case ForgetJob =>
  }

  lemma WriteLeavesTenant(w: World)
    requires Wrote(w).Some?
    ensures Wrote(w).value.0.tenant == w.now.tenant && Wrote(w).value.0.past == w.now.past
  {
    match w.next
    case CreateJob =>
    case DropJob(_) =>
    case GuardConfig =>
    case DeleteConfig =>
    case RemoveChild(_, _) =>
    case ReleaseNamespace =>
    case DeletePolicy =>
    case Unlabelling =>
    case ForgetJob =>
  }

  lemma WriteKeepsNext(w: World)
    requires PassInv(w) && Wrote(w).Some?
    requires MemInv(Wrote(w).value.0, w.mem) && Achieved(Wrote(w).value.0, Stage(w.next))
    ensures PassInv(World(Wrote(w).value.0, Wrote(w).value.1, w.mem))
  {
    var c, c' := w.now, Wrote(w).value.0;
    match w.next
    case RemoveChild(child, rest) =>
      ReplaceSettles(c.children, child, Deleted(Lookup(c.children, child)));
      assert [child] + rest != [] && ([child] + rest)[0] == child && ([child] + rest)[1..] == rest;
      OneChildLess(c'.children, [child] + rest);
    case _ =>
  }

  /** An accepted status write leaves the store and the copy equal, and records nothing unproved. */
  lemma StatusKeepsInv(w: World, revoked: bool, n: Call)
    requires Inv(w) && Busy(w.next) && StatusAccepted(w.now, w.mem)
    requires (w.mem.revoked ==> revoked) && (revoked ==> w.now.ran)
    requires n.Idle? || n.GetJob? || (n.GetConfig? && revoked)
    ensures Inv(WriteStatus(w, revoked, n))
  {
    var t, c, c' := StatusOf(w.now, revoked), w.now, WriteStatus(w, revoked, n).now;
    StoreKeeps(c, t, c.everWaived);
    assert c' == c'.(everWaived := c.everWaived);
    if !c.tenant.finalizer && !c.forced {
      KeepsAchieved(c, c', 7, c.cleaned);
    }
    assert t in c'.past;
  }

  lemma FinalizeKeepsInv(w: World)
    requires Inv(w) && w.next.Finalize?
    ensures Inv(Answered(w))
  {
    var c, c' := w.now, Answered(w).now;
    StoreKeeps(c, c'.tenant, c.everWaived);
    assert Keeps(c, c');
    KeepsAchieved(c, c', 7, w.mem.gateway);
  }

  lemma NextKeepsInv(w: World)
    requires Inv(w) && Enabled(w, Next)
    ensures Inv(Answered(w))
  {
    if Looked(w).Some? {
      LookKeepsInv(w);
    } else if Wrote(w).Some? {
      WriteKeepsInv(w);
    } else if w.next.Finalize? {
      FinalizeKeepsInv(w);
    } else if StatusAccepted(w.now, w.mem) {
      if w.next.Mark? {
        StatusKeepsInv(w, true, GetConfig);
      } else {
        StatusKeepsInv(w, w.mem.revoked, Idle);
      }
    }
  }

  lemma DeleteClaimKeepsInv(w: World, n: string)
    requires Inv(w) && Enabled(w, DeleteClaim(n))
    ensures Inv(Apply(w, DeleteClaim(n)))
  {
    var c, c' := w.now, Apply(w, DeleteClaim(n)).now;
    ReplaceSettles(c.claims, n, Deleted(Lookup(c.claims, n)));
    BesideKeepsInv(w, c');
  }

  lemma StepKeepsInv(w: World, s: Step)
    requires Inv(w) && Enabled(w, s)
    ensures Inv(Apply(w, s))
  {
    match s
    case Read(copy) => assert Known(w.now.past, copy.gateway);
    case SetTerminating(changed) =>
      if changed && StatusAccepted(w.now, w.mem) {
        StatusKeepsInv(w, w.mem.revoked, GetJob);
      }
    case Next => NextKeepsInv(w);
    case DeleteClaim(n) => DeleteClaimKeepsInv(w, n);
    case Fail =>
    case Blocked =>
    case Foreign(e) => ChangeKeepsInv(w, e);
  }

  ghost predicate Runs(w: World, steps: seq<Step>, w': World)
    decreases |steps|
  {
    if steps == [] then w == w'
    else Enabled(w, steps[0]) && Runs(Apply(w, steps[0]), steps[1..], w')
  }

  lemma {:induction false} RunKeepsInv(w: World, steps: seq<Step>, w': World)
    requires Inv(w) && Runs(w, steps, w')
    ensures Inv(w')
    decreases |steps|
  {
    if steps != [] {
      StepKeepsInv(w, steps[0]);
      RunKeepsInv(Apply(w, steps[0]), steps[1..], w');
    }
  }

  // ---------------------------------------------------------------- what deletion guarantees

  /**
   However passes stop, restart from cached copies and interleave with everyone else: short of the
   timeout, the AITenant is let go only when its revocation is on record, its config is gone, its
   roles, claims and gateway policy are gone or going, and its namespace is released; and this
   stays so. Labels are another matter: see `LabelsWhenLetGo`.
   */
  lemma LetGoOnlyWhenCleanedUp(w: World, steps: seq<Step>, w': World)
    requires Initial(w) && Runs(w, steps, w')
    requires !w'.now.tenant.finalizer && !w'.now.forced
    ensures w'.now.tenant.revoked || w'.now.everWaived
    ensures Gone(w'.now.config) && Settled(w'.now.namespace) && Settled(w'.now.policy)
    ensures forall c :: Settled(Lookup(w'.now.children, c))
    ensures forall n :: Settled(Lookup(w'.now.claims, n))
    ensures Known(w'.now.past, w'.now.cleaned)
  {
    RunKeepsInv(w, steps, w');
  }

  /** Revocation is on record only after a Job carrying this AITenant's uid has completed. */
  lemma RevocationIsProved(w: World, steps: seq<Step>, w': World)
    requires Initial(w) && Runs(w, steps, w')
    ensures w'.now.tenant.revoked ==> w'.now.ran
    ensures w'.now.requested ==> w'.now.tenant.revoked || w'.now.everWaived || w'.now.forced
  {
    RunKeepsInv(w, steps, w');
  }

  /** Versions are never forgotten, and only a pass's last call, or the timeout, removes the finalizer. */
  lemma PastGrows(w: World, s: Step)
    requires Enabled(w, s)
    ensures w.now.past <= Apply(w, s).now.past
    ensures w.now.tenant.finalizer && !Apply(w, s).now.tenant.finalizer ==>
              s == Foreign(ForceRemove) || (s == Next && w.next.Finalize?)
  {
    if s.Next? && Looked(w).None? && Wrote(w).Some? {
      WriteLeavesTenant(w);
    } else if s.Foreign? {
      ChangeLeavesPast(w.now, s.change);
    }
  }

  lemma ChangeLeavesPast(c: Cluster, e: Change)
    requires Possible(c, e)
    ensures c.past <= Changed(c, e).past
    ensures c.tenant.finalizer && !Changed(c, e).tenant.finalizer ==> e.ForceRemove?
  {
    match e
    case ForceRemove =>
    case JobEnds(_, _) =>
    case JobExpires =>
    case StrangersJob(_) =>
    case Edit(_, _) =>
    case Others(_, _, _, _, _) =>
    case EnsureLabels(_, _) =>
    case CleanLabels(_) =>
    case LoseInfra =>
  }

  /** Nothing unsets the record, whatever stale copy a pass writes from. */
  lemma {:induction false} RevocationStays(w: World, steps: seq<Step>, w': World)
    requires Inv(w) && Runs(w, steps, w') && w.now.tenant.revoked
    ensures w'.now.tenant.revoked
    decreases |steps|
  {
    if steps != [] {
      StepKeepsInv(w, steps[0]);
      PastGrows(w, steps[0]);
      assert w.now.tenant in Apply(w, steps[0]).now.past;
      RevocationStays(Apply(w, steps[0]), steps[1..], w');
    }
  }

  // ---------------------------------------------------------------- who owns labels when the tenant goes

  /** Labels of a gateway the tenant had before an edit are not given up with those of the present one. */
  lemma EarlierGatewayKeepsItsLabels(infra: Infra, present: string, earlier: string, k: string)
    requires earlier != present
    ensures Owns(Unlabel(infra, present), earlier, k) <==> Owns(infra, earlier, k)
  {
    if Owns(infra, earlier, k) {
      var i :| 0 <= i < |infra.ns.owners[k]| && infra.ns.owners[k][i] == earlier;
      assert k !in L.SoleKeys(infra.ns.owners, present);
    }
  }

  lemma UnlabelTakes(infra: Infra, g: string, other: string)
    ensures Unlabelled(Unlabel(infra, g), g)
    ensures other != g ==> (Unlabelled(Unlabel(infra, g), other) <==> Unlabelled(infra, other))
  {
    forall k ensures !Owns(Unlabel(infra, g), g, k) {}
    if other != g {
      forall k ensures Owns(Unlabel(infra, g), other, k) <==> Owns(infra, other, k) {
        EarlierGatewayKeepsItsLabels(infra, g, other, k);
      }
    }
  }

  lemma RelabelOwns(ns: L.Namespace, g: string, desired: L.Labels, other: string, k: string)
    ensures var after := Readable(L.Ensured(ns, g, desired));
            (Owns(after, g, k) <==> k in desired) && (other != g ==> (Owns(after, other, k) <==> Owns(Readable(ns), other, k)))
  {
    if !L.UpToDate(ns, g, desired) {
      assert k in L.Dropped(ns.owners, g, desired) ==> L.Without(ns.owners[k], g) == [];
    } else {
      assert k !in L.StaleKeys(ns.owners, g, desired);
    }
  }

  lemma RelabelGives(infra: Infra, g: string, desired: L.Labels, other: string)
    ensures Accepted(infra, g, desired) ==> (Unlabelled(Relabel(infra, g, desired), g) <==> desired == map[])
    ensures other != g ==> (Unlabelled(Relabel(infra, g, desired), other) <==> Unlabelled(infra, other))
  {
    if Accepted(infra, g, desired) {
      forall k ensures Owns(Relabel(infra, g, desired), g, k) <==> k in desired {
        RelabelOwns(infra.ns, g, desired, other, k);
      }
      forall k ensures other != g ==> (Owns(Relabel(infra, g, desired), other, k) <==> Owns(infra, other, k)) {
        RelabelOwns(infra.ns, g, desired, other, k);
      }
      if desired != map[] {
        var k :| k in desired;
        assert Owns(Relabel(infra, g, desired), g, k);
      }
    }
  }

  /** Whether, going by the requests alone, gateway `g` has labels after step `s`: the last accepted word on it counts. */
  predicate Word(w: World, s: Step, g: string, before: bool) {
    match s
    case Foreign(EnsureLabels(h, desired)) => if h == g && Accepted(w.now.infra, h, desired) then desired != map[] else before
    case Foreign(CleanLabels(h)) => before && h != g
    case Foreign(LoseInfra) => false
    case Next => before && !(w.next.Unlabelling? && w.mem.gateway == g)
    case _ => before
  }

  ghost predicate LastWord(w: World, steps: seq<Step>, g: string, before: bool)
    decreases |steps|
  {
    if steps == [] || !Enabled(w, steps[0]) then before
    else LastWord(Apply(w, steps[0]), steps[1..], g, Word(w, steps[0], g, before))
  }

  lemma InfraMoves(w: World, s: Step)
    requires Enabled(w, s)
    ensures Apply(w, s).now.infra ==
              match s
              case Foreign(e) => Changed(w.now, e).infra
              case Next => if w.next.Unlabelling? then Unlabel(w.now.infra, w.mem.gateway) else w.now.infra
              case _ => w.now.infra
  {
    if s.Next? {
      NextMovesInfra(w);
    }
  }

  lemma NextMovesInfra(w: World)
    ensures Answered(w).now.infra == if w.next.Unlabelling? then Unlabel(w.now.infra, w.mem.gateway) else w.now.infra
  {
    if Looked(w).None? && Wrote(w).Some? {
      WriteMovesInfra(w);
    }
  }

  lemma WriteMovesInfra(w: World)
    requires Wrote(w).Some?
    ensures Wrote(w).value.0.infra == if w.next.Unlabelling? then Unlabel(w.now.infra, w.mem.gateway) else w.now.infra
  {
    match w.next
    case CreateJob =>
    case DropJob(_) =>
    case GuardConfig =>
    case DeleteConfig =>
    case RemoveChild(_, _) =>
    case ReleaseNamespace =>
    case DeletePolicy =>
    case Unlabelling =>
    case ForgetJob =>
  }

  lemma WordIsTrue(w: World, s: Step, g: string)
    requires Enabled(w, s)
    ensures Unlabelled(Apply(w, s).now.infra, g) <==> !Word(w, s, g, !Unlabelled(w.now.infra, g))
  {
    InfraMoves(w, s);
    match s
    case Next => UnlabelTakes(w.now.infra, w.mem.gateway, g);
    case Foreign(e) =>
      match e {
        case EnsureLabels(h, desired) => RelabelGives(w.now.infra, h, desired, g);
        case CleanLabels(h) => UnlabelTakes(w.now.infra, h, g);
        case _ =>
      }
    case _ =>
  }

  lemma {:induction false} LastWordIsTrue(w: World, steps: seq<Step>, w': World, g: string)
    requires Runs(w, steps, w')
    ensures Unlabelled(w'.now.infra, g) <==> !LastWord(w, steps, g, !Unlabelled(w.now.infra, g))
    decreases |steps|
  {
    if steps != [] {
      WordIsTrue(w, steps[0], g);
      LastWordIsTrue(Apply(w, steps[0]), steps[1..], w', g);
    }
  }

  predicate AllForeign(steps: seq<Step>) {
    forall s | s in steps :: s.Foreign?
  }

  /** Follows a pass from its last call until someone else's step is not what comes next, or to the end. */
  lemma {:induction false} WhileFinalizing(w: World, steps: seq<Step>, w': World) returns (n: nat, m: World)
    requires Runs(w, steps, w') && w.next.Finalize?
    ensures n <= |steps| && AllForeign(steps[..n]) && Runs(w, steps[..n], m) && Runs(m, steps[n..], w')
    ensures m.next.Finalize? && m.mem == w.mem && (n == |steps| ==> m == w')
    ensures n < |steps| ==> Enabled(m, steps[n]) && !Apply(m, steps[n]).next.Finalize?
    decreases |steps|
  {
    if steps == [] || !steps[0].Foreign? {
      n, m := 0, w;
      assert steps[..0] == [] && steps[0..] == steps;
    } else {
      n, m := WhileFinalizing(Apply(w, steps[0]), steps[1..], w');
      n := n + 1;
      assert steps[..n] == [steps[0]] + steps[1..][..n - 1] && steps[..n][1..] == steps[1..][..n - 1];
      assert steps[n..] == steps[1..][n - 1..];
      assert n < |steps| ==> steps[n] == steps[1..][n - 1];
    }
  }

  /** Whoever comes to the last call gave up the labels before, and only others have acted since. */
  lemma {:induction false} FinalizeFollowsUnlabelling(w: World, steps: seq<Step>, w': World)
    returns (u: World, since: seq<Step>)
    requires Runs(w, steps, w') && !w.next.Finalize? && w'.next.Finalize?
    ensures u.next.Unlabelling? && u.mem == w'.mem && Enabled(u, Next)
    ensures AllForeign(since) && Runs(Apply(u, Next), since, w') && |since| < |steps|
    ensures steps[|steps| - |since|..] == since && steps[|steps| - |since| - 1] == Next
    decreases |steps|
  {
    var m, rest := Apply(w, steps[0]), steps[1..];
    if !m.next.Finalize? {
      u, since := FinalizeFollowsUnlabelling(m, rest, w');
      assert steps[|steps| - |since|..] == rest[|rest| - |since|..];
      assert steps[|steps| - |since| - 1] == rest[|rest| - |since| - 1];
    } else {
      OnlyUnlabellingLeadsThere(w, steps[0]);
      var n, x := WhileFinalizing(m, rest, w');
      if n == |rest| {
        u, since := w, rest;
        assert rest[..n] == rest;
      } else {
        var later := rest[n..][1..];
        u, since := FinalizeFollowsUnlabelling(Apply(x, rest[n]), later, w');
        assert later == steps[|steps| - |later|..];
        assert steps[|steps| - |since|..] == later[|later| - |since|..];
        assert steps[|steps| - |since| - 1] == later[|later| - |since| - 1];
      }
    }
  }

  lemma OnlyUnlabellingLeadsThere(w: World, s: Step)
    requires Enabled(w, s) && !w.next.Finalize? && Apply(w, s).next.Finalize?
    ensures s == Next && w.next.Unlabelling? && Apply(w, s).mem == w.mem
  {
  }

  lemma LastCall(w: World)
    requires w.next.Finalize?
    ensures var c := Apply(w, Next).now; !c.tenant.finalizer && c.cleaned == w.mem.gateway && c.infra == w.now.infra
  {
  }

  /**
   When a pass lets the AITenant go, its gateway owns no label exactly if the last accepted word on
   it since the pass gave the labels up, if any, was no request for labels: there was none, or it
   asked for nothing, or another clean-up or the loss of the namespace came after it. Requests come
   from any AITenant that names the gateway: labels are ensured before claims.
   */
  lemma LabelsWhenLetGo(w: World, steps: seq<Step>, w': World) returns (u: World, since: seq<Step>)
    requires Initial(w) && Runs(w, steps, w') && w'.next.Finalize?
    ensures u.next.Unlabelling? && Enabled(u, Next) && AllForeign(since) && Runs(Apply(u, Next), since, w')
    ensures |since| < |steps| && steps[|steps| - |since|..] == since && steps[|steps| - |since| - 1] == Next
    ensures !Apply(w', Next).now.tenant.finalizer && Apply(w', Next).now.cleaned == w'.mem.gateway == u.mem.gateway
    ensures Unlabelled(Apply(w', Next).now.infra, w'.mem.gateway) <==> !LastWord(Apply(u, Next), since, w'.mem.gateway, false)
    ensures (forall e | Foreign(e) in since && e.EnsureLabels? && e.gateway == w'.mem.gateway :: e.desired == map[]) ==>
              Unlabelled(Apply(w', Next).now.infra, w'.mem.gateway)
  {
    u, since := FinalizeFollowsUnlabelling(w, steps, w');
    var g, m := w'.mem.gateway, Apply(u, Next);
    WordIsTrue(u, Next, g);
    LastWordIsTrue(m, since, w', g);
    LastCall(w');
    if forall e | Foreign(e) in since && e.EnsureLabels? && e.gateway == g :: e.desired == map[] {
      NoRequestNoWord(m, since, g);
    }
  }

  lemma {:induction false} NoRequestNoWord(w: World, steps: seq<Step>, g: string)
    requires forall e | Foreign(e) in steps && e.EnsureLabels? && e.gateway == g :: e.desired == map[]
    ensures !LastWord(w, steps, g, false)
    decreases |steps|
  {
    if steps != [] && Enabled(w, steps[0]) {
      assert steps[0] in steps;
      assert forall s | s in steps[1..] :: s in steps;
      NoRequestNoWord(Apply(w, steps[0]), steps[1..], g);
    }
  }

  /** One accepted request between the two last calls, and the AITenant goes with its gateway owning labels. */
  lemma RequestBeforeTheLastCallSurvives(w: World, desired: L.Labels)
    requires w.next.Finalize? && !w.now.forced && desired != map[] && Accepted(w.now.infra, w.mem.gateway, desired)
    ensures var m := Apply(w, Foreign(EnsureLabels(w.mem.gateway, desired)));
            var after := Apply(m, Next);
            !after.now.tenant.finalizer && !after.now.forced && !Unlabelled(after.now.infra, after.now.cleaned)
  {
    RelabelGives(w.now.infra, w.mem.gateway, desired, "");
  }

  /**
   A pass that gives the labels up after another AITenant has had labels accepted for the same
   gateway takes them from it: the gateway owns nothing any more, and of the labels it had asked
   for only those stay that some other gateway owns too.
   */
  lemma LateUnlabellingTakesAClaimantsLabels(r: L.Run, g: string, desired: L.Labels)
    requires L.Inv(r) && Accepted(Readable(r.ns), g, desired)
    ensures var asked := L.Apply(r, L.Ensure(g, desired)).ns;
            var left := Unlabel(Readable(asked), g);
            && Unlabelled(left, g)
            && forall k | k in desired ::
                 && (k in left.ns.labels <==> exists h | h in asked.owners[k] :: h != g)
  {
    var r' := L.Apply(r, L.Ensure(g, desired));
    L.EnsureKeepsInv(r, g, desired);
    L.EnsureOwnsExactlyDesired(r, g, desired);
    UnlabelTakes(Readable(r'.ns), g, "");
    forall k | k in desired
      ensures k in Unlabel(Readable(r'.ns), g).ns.labels <==> exists h | h in r'.ns.owners[k] :: h != g
    {
      assert g in L.OwnersOf(r'.ns.owners, k) && L.KeyInv(r', k);
      OthersExactly(r'.ns.owners[k], g);
    }
  }

  lemma OthersExactly(owners: seq<string>, g: string)
    requires NoDuplicates(owners) && g in owners
    ensures |owners| > 1 <==> exists h | h in owners :: h != g
  {
    if |owners| > 1 {
      var h := if owners[0] == g then owners[1] else owners[0];
      assert h in owners && h != g;
    }
  }

  lemma {:induction false} RunsAppend(w: World, steps: seq<Step>, m: World, s: Step)
    requires Runs(w, steps, m) && Enabled(m, s)
    ensures Runs(w, steps + [s], Apply(m, s))
    decreases |steps|
  {
    if steps == [] {
      assert [s][1..] == [];
    } else {
      RunsAppend(Apply(w, steps[0]), steps[1..], m, s);
      assert (steps + [s])[1..] == steps[1..] + [s];
    }
  }

  /** A tenant with its keys declared revoked and nothing else left in the cluster. */
  function Bare(gateway: string): Cluster {
    var t := AITenant(true, false, true, gateway, 0);
    Cluster("uid", t, {t}, None, None, map[], None, None, map[], Readable(L.Namespace(map[], map[])),
            false, true, false, false, "")
  }

  /** How many calls such a pass still makes before its last one. */
  function ToGo(n: Call): nat {
    match n
    case GetJob => 12
    case GetConfig => 11
    case GetChild(todo) => 6 + |todo|
    case GetNamespace => 5
    case GetPolicy => 4
    case ListClaims => 3
    case DeleteClaims(names) => if names == {} then 2 else 0
    case Unlabelling => 1
    case _ => 0
  }

  lemma OneCallLess(w: World)
    requires w.now == Bare(w.mem.gateway) && w.mem == w.now.tenant && ToGo(w.next) > 0
    ensures var w' := Answered(w);
            w'.now == w.now && w'.mem == w.mem && ToGo(w'.next) < ToGo(w.next) && (ToGo(w'.next) > 0 || w'.next.Finalize?)
  {
    if w.next.Unlabelling? {
      assert Unlabel(w.now.infra, w.mem.gateway) == w.now.infra;
    } else if w.next.ListClaims? {
      assert Owned(w.now.claims) == {};
    }
  }

  /** Such a pass comes to its last call by itself. */
  lemma {:induction false} ReachFinalize(start: World, steps: seq<Step>, w: World) returns (steps': seq<Step>, w': World)
    requires Runs(start, steps, w) && w.now == Bare(w.mem.gateway) && w.mem == w.now.tenant
    requires ToGo(w.next) > 0 || w.next.Finalize?
    ensures Runs(start, steps', w') && w'.next.Finalize? && w'.now == w.now && w'.mem == w.mem
    decreases ToGo(w.next)
  {
    if w.next.Finalize? {
      steps', w' := steps, w;
    } else {
      OneCallLess(w);
      RunsAppend(start, steps, w, Next);
      steps', w' := ReachFinalize(start, steps + [Next], Answered(w));
    }
  }

  lemma ReachGetJob(start: World) returns (steps: seq<Step>)
    requires Initial(start)
    ensures Runs(start, steps, World(start.now, GetJob, start.now.tenant))
  {
    var t := start.now.tenant;
    var reading := Apply(start, Read(t));
    RunsAppend(start, [], start, Read(t));
    RunsAppend(start, [Read(t)], reading, SetTerminating(false));
    steps := [Read(t)] + [SetTerminating(false)];
  }

  /** A whole run in which the AITenant goes while its gateway owns a label. */
  lemma LetGoWithALabel(gateway: string, k: string, v: string) returns (steps: seq<Step>, w: World)
    ensures var start := World(Bare(gateway), Idle, Bare(gateway).tenant); Initial(start) && Runs(start, steps, w)
    ensures !w.now.tenant.finalizer && !w.now.forced && w.now.cleaned == gateway && Owns(w.now.infra, gateway, k)
  {
    var start := World(Bare(gateway), Idle, Bare(gateway).tenant);
    steps := ReachGetJob(start);
    steps, w := ReachFinalize(start, steps, World(start.now, GetJob, start.now.tenant));
    steps, w := RequestedThenGone(start, steps, w, map[k := v]);
    RelabelOwns(L.Namespace(map[], map[]), gateway, map[k := v], "", k);
  }

  lemma RequestedThenGone(start: World, before: seq<Step>, m: World, desired: L.Labels) returns (steps: seq<Step>, w: World)
    requires Runs(start, before, m) && m.next.Finalize?
    ensures Runs(start, steps, w) && w.now.cleaned == m.mem.gateway && w.now.forced == m.now.forced
    ensures !w.now.tenant.finalizer && w.now.infra == Relabel(m.now.infra, m.mem.gateway, desired)
  {
    var request := Foreign(EnsureLabels(m.mem.gateway, desired));
    RunsAppend(start, before, m, request);
    RunsAppend(start, before + [request], Apply(m, request), Next);
    steps, w := before + [request] + [Next], Apply(Apply(m, request), Next);
  }

  // ---------------------------------------------------------------- one undisturbed pass

  datatype RevocationError = JobFailed

  class DeletionPass {
    const uid: string
    var tenant: AITenant
    var job: Option<Job>
    var config: Option<Obj>
    var children: map<Child, Obj>
    var namespace: Option<Obj>
    var policy: Option<Obj>
    var claims: map<string, Obj>
    var infra: Infra

    predicate JobProves()
      reads this
    {
      job.Some? && job.value.uid == uid && job.value.complete
    }

    /** True when revocation is on record afterwards; otherwise the Job is created, awaited or dropped. */
    method EnsureTenantAPIKeysRevoked() returns (r: Result<bool, RevocationError>)
      modifies this`tenant, this`job
      ensures r == Ok(true) <==> old(DeclaredRevoked(tenant)) || old(JobProves())
      ensures r == Ok(true) ==> DeclaredRevoked(tenant) && job == old(job)
      ensures tenant.(revoked := false, version := 0) == old(tenant).(revoked := false, version := 0)
      ensures r != Ok(true) ==> tenant == old(tenant) && job == match old(job)
                case None => Some(Job(uid, false, false))
                case Some(j) => if j.uid != uid || j.failed then None else Some(j)
      ensures r.Err? <==> !old(DeclaredRevoked(tenant)) && old(job).Some? && old(job).value.uid == uid
                          && !old(job).value.complete && old(job).value.failed
    {
      if DeclaredRevoked(tenant) {
        return Ok(true);
      }
      if job.None? {
        job := Some(Job(uid, false, false));
        return Ok(false);
      }
      if job.value.uid != uid {
        job := None;
        return Ok(false);
      }
      if job.value.complete {
        tenant := tenant.(revoked := true, version := tenant.version + 1);
        return Ok(true);
      }
      if job.value.failed {
        job := None;
        return Err(JobFailed);
      }
      return Ok(false);
    }

    /** The config is guarded first and deleted on a later pass, so that its own cleanup always runs. */
    method DeleteTenantConfig() returns (gone: bool)
      modifies this`config
      ensures gone <==> Gone(old(config))
      ensures gone || (old(config).Some? && old(config).value.deleting) ==> config == old(config)
      ensures !gone ==> config.Some? && config.value.held == (old(config).value.held || !old(config).value.deleting)
      ensures !gone && !old(config).value.deleting ==> config.value.deleting == old(config).value.held
    {
      if config.None? || !config.value.owned {
        return true;
      }
      if config.value.deleting {
        return false;
      }
      if !config.value.held {
        config := Some(config.value.(held := true));
        return false;
      }
      config := Deleted(config);
      return false;
    }

    method DeleteScopedChildren()
      modifies this`children
      ensures forall c :: Settled(Lookup(children, c))
      ensures forall c | Gone(Lookup(old(children), c)) :: Lookup(children, c) == Lookup(old(children), c)
    {
      AllChildren(children);
      for i := 0 to |CHILDREN|
        invariant ChildrenSettled(children, CHILDREN[i..])
        invariant forall c | Gone(Lookup(old(children), c)) :: Lookup(children, c) == Lookup(old(children), c)
      {
        var c := CHILDREN[i];
        ghost var before := children;
        assert CHILDREN[i..][0] == c && CHILDREN[i..][1..] == CHILDREN[i + 1..];
        if c in children && children[c].owned {
          ReplaceSettles(children, c, Deleted(Lookup(children, c)));
          children := Replace(children, c, Deleted(Lookup(children, c)));
          assert forall k :: k != c ==> Lookup(children, k) == Lookup(before, k);
        }
        OneChildLess(children, CHILDREN[i..]);
      }
    }

    method ReleaseTenantNamespace()
      modifies this`namespace
      ensures Settled(namespace) && (Settled(old(namespace)) ==> namespace == old(namespace))
      ensures namespace.Some? == old(namespace).Some?
    {
      if namespace.None? || !namespace.value.owned || namespace.value.deleting {
        return;
      }
      namespace := Some(namespace.value.(owned := false));
    }

    method DeleteGatewayClaim()
      modifies this`claims
      ensures forall n :: Settled(Lookup(claims, n))
      ensures forall n | Gone(Lookup(old(claims), n)) :: Lookup(claims, n) == Lookup(old(claims), n)
    {
      var todo := Owned(claims);
      while todo != {}
        invariant ClaimsSettled(claims, todo)
        invariant forall n | n in todo :: n in old(claims) && old(claims)[n].owned
        invariant forall n | Gone(Lookup(old(claims), n)) :: Lookup(claims, n) == Lookup(old(claims), n)
        decreases todo
      {
        var n :| n in todo;
        ghost var before := claims;
        ReplaceSettles(claims, n, Deleted(Lookup(claims, n)));
        claims := Replace(claims, n, Deleted(Lookup(claims, n)));
        assert forall k :: k != n ==> Lookup(claims, k) == Lookup(before, k);
        todo := todo - {n};
      }
    }

    /** Left to itself, a pass lets the AITenant go exactly when revocation is proved and the config gone. */
    method ReconcileAITenantDelete() returns (r: Result<bool, RevocationError>)
      requires tenant.finalizer
      modifies this
      ensures !tenant.finalizer <==> (old(DeclaredRevoked(tenant)) || old(JobProves())) && Gone(old(config))
      ensures !tenant.finalizer ==> DeclaredRevoked(tenant) && config == old(config) && job == None && r == Ok(true)
      ensures !tenant.finalizer ==>
                && Settled(namespace) && Settled(policy)
                && (forall c :: Settled(Lookup(children, c))) && (forall n :: Settled(Lookup(claims, n)))
                && infra == Unlabel(old(infra), old(tenant.gateway))
      ensures tenant.finalizer ==>
                && children == old(children) && namespace == old(namespace) && policy == old(policy)
                && claims == old(claims) && infra == old(infra)
      ensures !old(DeclaredRevoked(tenant)) && !old(JobProves()) ==> config == old(config)
    {
      tenant := tenant.(version := tenant.version + 1);
      var revoked := EnsureTenantAPIKeysRevoked();
      if revoked.Err? {
        tenant := tenant.(version := tenant.version + 1);
        return revoked;
      }
      if !revoked.value {
        return revoked;
      }
      var gone := DeleteTenantConfig();
      if !gone {
        return Ok(false);
      }
      DeleteScopedChildren();
      ReleaseTenantNamespace();
      if !Gone(policy) {
        policy := Deleted(policy);
      }
      DeleteGatewayClaim();
      infra := Unlabel(infra, tenant.gateway);
      tenant := tenant.(finalizer := false, version := tenant.version + 1);
      job := None;
      return Ok(true);
    }
  }
}
