/**
 Which subscription a request is served under.

 Subscriptions and models come from informer caches, in no particular order; either list may be
 unavailable. The answer of the authorization policies is an input.
 */
module Selection {
  import opened Wrappers
  import opened Ordering
  import opened Sequences
  import opened Text

  const ACTIVE := "Active"
  const DEGRADED := "Degraded"
  const FAILED := "Failed"

  /** A MaaSModelRef, as far as selection reads it. */
  datatype Model = Model(namespace: string, name: string, annotations: Option<(string, string)>, kind: string, alias: string)

  datatype ModelRef = ModelRef(namespace: string, name: string, modelName: string, displayName: string,
                               description: string, source: string, limits: seq<int>)

  datatype LimitStatus = LimitStatus(model: string, ready: bool)

  datatype Sub = Sub(name: string, namespace: string, groups: seq<string>, users: seq<string>, priority: int,
                     refs: seq<ModelRef>, phase: string, deleting: bool, statuses: seq<LimitStatus>)

  /** The two lists; the models are missing without a lister or when listing fails. */
  datatype Informers = Informers(subs: Option<seq<Sub>>, models: Option<seq<Model>>)

  datatype Caller = Caller(groups: seq<string>, username: string)

  /** The models the policies let the caller use, when there is a policy checker. */
  datatype Access = Unchecked | Authorized(models: set<(string, string)>)

  datatype Reason = SubscriptionNotReady | InvalidModelFormat | RateLimitNotEnforced

  datatype SelectError =
    | NoCaller
    | ListFailed
    | NoSubscription
    | AccessDenied(requested: string)
    | ModelNotInSubscription(requested: string, model: string)
    | ModelUnhealthy(subscription: string, phase: string, reason: Reason)
    | NotFound(requested: string)
    | Multiple(names: seq<string>)

  datatype Response = Response(sub: Sub, resolvedModel: string, accessAllowed: bool)

  // ---------------------------------------------------------------- loading

  function KeyOf(namespace: string, name: string): string {
    namespace + "/" + name
  }

  /** Later models of one key replace earlier ones. */
  function Index(models: seq<Model>): map<string, Model> {
    if models == [] then map[]
    else
      var m := models[|models| - 1];
      Index(models[..|models| - 1])[KeyOf(m.namespace, m.name) := m]
  }

  method BuildModelIndex(models: Option<seq<Model>>) returns (index: Option<map<string, Model>>)
    ensures index == IndexOption(models)
  {
    if models.None? {
      return None;
    }
    var m: map<string, Model> := map[];
    for i := 0 to |models.value|
      invariant m == Index(models.value[..i])
    {
      var u := models.value[i];
      assert models.value[..i + 1][..i] == models.value[..i];
      m := m[KeyOf(u.namespace, u.name) := u];
    }
    assert models.value[..|models.value|] == models.value;
    return Some(m);
  }

  function IndexOption(models: Option<seq<Model>>): Option<map<string, Model>> {
    if models.Some? then Some(Index(models.value)) else None
  }

  /** A reference with what the model it names says about itself. */
  function Enriched(r: ModelRef, index: Option<map<string, Model>>): ModelRef {
    if index.None? || KeyOf(r.namespace, r.name) !in index.value then r
    else
      var u := index.value[KeyOf(r.namespace, r.name)];
      r.(displayName := if u.annotations.Some? then u.annotations.value.0 else r.displayName,
         description := if u.annotations.Some? then u.annotations.value.1 else r.description,
         source := if u.kind == "ExternalModel" then "external"
                   else if u.kind == "LLMInferenceService" then "internal" else r.source,
         modelName := if u.alias != "" then u.alias else r.modelName)
  }

  method EnrichModelRefs(refs: array<ModelRef>, index: Option<map<string, Model>>)
    modifies refs
    ensures forall i | 0 <= i < refs.Length :: refs[i] == Enriched(old(refs[i]), index)
  {
    if index.None? {
      return;
    }
    for i := 0 to refs.Length
      invariant forall j | 0 <= j < i :: refs[j] == Enriched(old(refs[j]), index)
      invariant forall j | i <= j < refs.Length :: refs[j] == old(refs[j])
    {
      var key := KeyOf(refs[i].namespace, refs[i].name);
      if key in index.value {
        var u := index.value[key];
        if u.annotations.Some? {
          refs[i] := refs[i].(displayName := u.annotations.value.0, description := u.annotations.value.1);
        }
        if u.kind == "ExternalModel" {
          refs[i] := refs[i].(source := "external");
        } else if u.kind == "LLMInferenceService" {
          refs[i] := refs[i].(source := "internal");
        }
        if u.alias != "" {
          refs[i] := refs[i].(modelName := u.alias);
        }
      }
    }
  }

  function Enricher(index: Option<map<string, Model>>): Sub -> Sub {
    (s: Sub) => s.(refs := Map(s.refs, r => Enriched(r, index)))
  }

  function Loaded(subs: seq<Sub>, models: Option<seq<Model>>): seq<Sub> {
    Map(subs, Enricher(IndexOption(models)))
  }

  method LoadSubscriptions(informers: Informers) returns (r: Option<seq<Sub>>)
    ensures r == if informers.subs.Some? then Some(Loaded(informers.subs.value, informers.models)) else None
  {
    if informers.subs.None? {
      return None;
    }
    var index := BuildModelIndex(informers.models);
    var objects, subs: seq<Sub> := informers.subs.value, [];
    for i := 0 to |objects|
      invariant subs == Map(objects[..i], Enricher(index))
    {
      var refs := new ModelRef[|objects[i].refs|](j requires 0 <= j < |objects[i].refs| => objects[i].refs[j]);
      EnrichModelRefs(refs, index);
      MapAt(objects[i].refs, r => Enriched(r, index));
      assert refs[..] == Map(objects[i].refs, r => Enriched(r, index));
      assert objects[..i + 1][..i] == objects[..i];
      subs := subs + [objects[i].(refs := refs[..])];
    }
    assert objects[..|objects|] == objects;
    return Some(subs);
  }

  // ---------------------------------------------------------------- questions about one subscription

  predicate UserHasAccess(s: Sub, who: Caller) {
    who.username in s.users
    || exists i, j | 0 <= i < |s.groups| && 0 <= j < |who.groups| :: TrimSpace(who.groups[j]) == s.groups[i]
  }

  function NamedRef(namespace: string, name: string): ModelRef -> bool {
    (r: ModelRef) => r.namespace == namespace && r.name == name
  }

  function AliasedRef(model: string): ModelRef -> bool {
    (r: ModelRef) => (r.modelName != "" && r.modelName == model) || r.name == model
  }

  /** A qualified match wins; otherwise the first reference known by that alias or bare name. */
  function FindModelRef(s: Sub, model: string): Option<ModelRef> {
    var i := IndexOf(model, '/');
    var qualified := if i < |model| then First(s.refs, NamedRef(model[..i], model[i + 1..])) else None;
    if qualified.Some? then qualified else First(s.refs, AliasedRef(model))
  }

  predicate Includes(s: Sub, model: string) {
    model == "" || FindModelRef(s, model).Some?
  }

  function StatusOf(model: string): LimitStatus -> bool {
    (t: LimitStatus) => t.model == model
  }

  /** Without a model, to mint a key; with one, to serve a request. */
  function CheckModelHealth(s: Sub, model: string): Option<Reason> {
    if model == "" then
      if s.phase == "" || s.phase == FAILED then Some(SubscriptionNotReady) else None
    else if s.phase != ACTIVE && s.phase != DEGRADED then Some(SubscriptionNotReady)
    else if s.phase != DEGRADED then None
    else
      match FindModelRef(s, model)
      case None => Some(InvalidModelFormat)
      case Some(r) =>
        if r.limits == [] then None
        else
          match First(s.statuses, StatusOf(r.name))
          case Some(t) => if t.ready then None else Some(RateLimitNotEnforced)
          case None => Some(RateLimitNotEnforced)
  }

  predicate ModelAccessAllowed(s: Sub, model: string, access: Access) {
    model == ""
    || (access.Authorized? && FindModelRef(s, model).Some?
        && var r := FindModelRef(s, model).value; (r.namespace, r.name) in access.models)
  }

  function AliasIs(model: string): Model -> bool {
    (u: Model) => u.alias == model
  }

  function ResolveModelAlias(models: Option<seq<Model>>, model: string): string {
    if models.None? || model == "" then model
    else
      match First(models.value, AliasIs(model))
      case Some(u) => KeyOf(u.namespace, u.name)
      case None => model
  }

  // ---------------------------------------------------------------- the order of subscriptions

  function MaxOf(limits: seq<int>): (m: int)
    ensures m >= 0 && (m == 0 || m in limits) && forall l | l in limits :: l <= m
  {
    if limits == [] then 0
    else
      assert limits == [limits[0]] + limits[1..];
      var m := MaxOf(limits[1..]);
      if limits[0] > m then limits[0] else m
  }

  /** The largest token limit of any of the references, or 0. */
  function MaxLimit(refs: seq<ModelRef>): int {
    if refs == [] then 0
    else
      var m, n := MaxLimit(refs[1..]), MaxOf(refs[0].limits);
      if n > m then n else m
  }

  predicate PriorityLeq(a: Sub, b: Sub) {
    if a.priority != b.priority then a.priority > b.priority
    else if MaxLimit(a.refs) != MaxLimit(b.refs) then MaxLimit(a.refs) > MaxLimit(b.refs)
    else StrLeq(a.name, b.name)
  }

  predicate NameLeq(a: Sub, b: Sub) {
    StrLeq(a.name, b.name)
  }

  ghost predicate UniqueNames(subs: seq<Sub>) {
    forall a, b | a in subs && b in subs && a.name == b.name :: a == b
  }

  lemma PriorityOrder()
    ensures Total(PriorityLeq) && Transitive(PriorityLeq)
  {
    StrOrder();
  }

  lemma NameOrder()
    ensures Total(NameLeq) && Transitive(NameLeq)
  {
    StrOrder();
  }

  lemma NamesSeparate(subs: seq<Sub>)
    requires UniqueNames(subs)
    ensures Separates(PriorityLeq, subs) && Separates(NameLeq, subs)
  {
    StrOrder();
    forall a, b | a in subs && b in subs && StrLeq(a.name, b.name) && StrLeq(b.name, a.name) ensures a == b {
      StrLeqTotal(a.name, b.name);
    }
  }

  // ---------------------------------------------------------------- selection

  function QualifiedIs(requested: string): Sub -> bool {
    (s: Sub) => KeyOf(s.namespace, s.name) == requested
  }

  function NameIs(requested: string): Sub -> bool {
    (s: Sub) => s.name == requested
  }

  function HasAccess(who: Caller): Sub -> bool {
    (s: Sub) => UserHasAccess(s, who)
  }

  function Eligible(who: Caller, model: string): Sub -> bool {
    (s: Sub) => UserHasAccess(s, who) && Includes(s, model)
  }

  function NameOf(): Sub -> string {
    (s: Sub) => s.name
  }

  function Serve(s: Sub, model: string, access: Access): Result<Response, SelectError> {
    match CheckModelHealth(s, model)
    case Some(reason) => Err(ModelUnhealthy(s.name, s.phase, reason))
    case None => Ok(Response(s, model, ModelAccessAllowed(s, model, access)))
  }

  function Judged(s: Sub, who: Caller, requested: string, model: string, access: Access): Result<Response, SelectError> {
    if !UserHasAccess(s, who) then Err(AccessDenied(requested))
    else if !Includes(s, model) then Err(ModelNotInSubscription(requested, model))
    else Serve(s, model, access)
  }

  /** The subscription a request names: by qualified name, or failing that by bare name. */
  function Named(subs: seq<Sub>, requested: string): Option<Sub> {
    var qualified := First(subs, QualifiedIs(requested));
    if qualified.Some? then qualified
    else if '/' in requested then None
    else First(subs, NameIs(requested))
  }

  function Chosen(subs: seq<Sub>, who: Caller, requested: string, model: string, access: Access): Result<Response, SelectError> {
    if requested != "" then
      match Named(subs, requested)
      case Some(s) => Judged(s, who, requested, model, access)
      case None => Err(NotFound(requested))
    else
      var eligible := Filter(subs, Eligible(who, model));
      if |eligible| == 0 then Err(NoSubscription)
      else if |eligible| == 1 then Serve(eligible[0], model, access)
      else Err(Multiple(Map(eligible, NameOf())))
  }

  function Selected(informers: Informers, who: Caller, requested: string, model: string, access: Access)
    : Result<Response, SelectError>
  {
    if |who.groups| == 0 && who.username == "" then Err(NoCaller)
    else if informers.subs.None? then Err(ListFailed)
    else if informers.subs.value == [] then Err(NoSubscription)
    else
      Chosen(SortBy(PriorityLeq, Loaded(informers.subs.value, informers.models)), who, requested,
             ResolveModelAlias(informers.models, model), access)
  }

  method Find(subs: seq<Sub>, p: Sub -> bool) returns (r: Option<Sub>)
    ensures r == First(subs, p)
  {
    for i := 0 to |subs|
      invariant First(subs, p) == First(subs[i..], p)
    {
      assert subs[i..][1..] == subs[i + 1..];
      if p(subs[i]) {
        return Some(subs[i]);
      }
    }
    return None;
  }

  method Keep(subs: seq<Sub>, p: Sub -> bool) returns (kept: seq<Sub>)
    ensures kept == Filter(subs, p)
  {
    kept := [];
    for i := 0 to |subs|
      invariant kept == Filter(subs[..i], p)
    {
      assert subs[..i + 1][..i] == subs[..i];
      if p(subs[i]) {
        kept := kept + [subs[i]];
      }
    }
    assert subs[..|subs|] == subs;
  }

  method Select(informers: Informers, who: Caller, requested: string, model: string, access: Access)
    returns (r: Result<Response, SelectError>)
    ensures r == Selected(informers, who, requested, model, access)
  {
    if |who.groups| == 0 && who.username == "" {
      return Err(NoCaller);
    }
    var resolved := ResolveModelAlias(informers.models, model);
    var loaded := LoadSubscriptions(informers);
    if loaded.None? {
      return Err(ListFailed);
    }
    MapAt(informers.subs.value, Enricher(IndexOption(informers.models)));
    if |loaded.value| == 0 {
      return Err(NoSubscription);
    }
    var subs := SortBy(PriorityLeq, loaded.value);
    if requested != "" {
      var s := Find(subs, QualifiedIs(requested));
      if s.Some? {
        return Judged(s.value, who, requested, resolved, access);
      }
      if '/' !in requested {
        s := Find(subs, NameIs(requested));
        if s.Some? {
          return Judged(s.value, who, requested, resolved, access);
        }
      }
      return Err(NotFound(requested));
    }
    var eligible := Keep(subs, Eligible(who, resolved));
    if |eligible| == 0 {
      return Err(NoSubscription);
    }
    if |eligible| == 1 {
      return Serve(eligible[0], resolved, access);
    }
    return Err(Multiple(Map(eligible, NameOf())));
  }

  function Highest(informers: Informers, who: Caller): Result<Sub, SelectError> {
    if |who.groups| == 0 && who.username == "" then Err(NoCaller)
    else if informers.subs.None? then Err(ListFailed)
    else
      var accessible := Filter(Loaded(informers.subs.value, informers.models), HasAccess(who));
      if accessible == [] then Err(NoSubscription)
      else
        assert |multiset(SortBy(PriorityLeq, accessible))| == |SortBy(PriorityLeq, accessible)|;
        Ok(SortBy(PriorityLeq, accessible)[0])
  }

  method SelectHighestPriority(informers: Informers, who: Caller) returns (r: Result<Sub, SelectError>)
    ensures r == Highest(informers, who)
  {
    if |who.groups| == 0 && who.username == "" {
      return Err(NoCaller);
    }
    var loaded := LoadSubscriptions(informers);
    if loaded.None? {
      return Err(ListFailed);
    }
    if |loaded.value| == 0 {
      return Err(NoSubscription);
    }
    var accessible := Keep(loaded.value, HasAccess(who));
    if |accessible| == 0 {
      return Err(NoSubscription);
    }
    accessible := SortBy(PriorityLeq, accessible);
    assert |multiset(accessible)| == |accessible|;
    return Ok(accessible[0]);
  }

  /** Listed subscriptions are up, and not on their way out. */
  function Listed(who: Caller): Sub -> bool {
    (s: Sub) => UserHasAccess(s, who) && (s.phase == ACTIVE || s.phase == DEGRADED) && !s.deleting
  }

  function AuthorizedRef(models: set<(string, string)>): ModelRef -> bool {
    (r: ModelRef) => (r.namespace, r.name) in models
  }

  function Narrowed(models: set<(string, string)>): Sub -> Sub {
    (s: Sub) => s.(refs := Filter(s.refs, AuthorizedRef(models)))
  }

  function HasModels(): Sub -> bool {
    (s: Sub) => s.refs != []
  }

  function Visible(subs: seq<Sub>, who: Caller, access: Access): seq<Sub> {
    var listed := Filter(subs, Listed(who));
    if access.Unchecked? then listed else Filter(Map(listed, Narrowed(access.models)), HasModels())
  }

  function AllAccessible(informers: Informers, who: Caller, access: Access): Result<seq<Sub>, SelectError> {
    if |who.groups| == 0 && who.username == "" then Err(NoCaller)
    else if informers.subs.None? then Err(ListFailed)
    else Ok(SortBy(NameLeq, Visible(Loaded(informers.subs.value, informers.models), who, access)))
  }

  /** One more subscription, narrowed and kept or dropped. */
  lemma OneMoreNarrowed(all: seq<Sub>, i: nat, models: set<(string, string)>)
    requires i < |all|
    ensures var s := Narrowed(models)(all[i]);
            Filter(Map(all[..i + 1], Narrowed(models)), HasModels())
            == Filter(Map(all[..i], Narrowed(models)), HasModels()) + (if s.refs != [] then [s] else [])
  {
    assert all[..i + 1] == all[..i] + [all[i]];
    MapJoins(all[..i], [all[i]], Narrowed(models));
    FilterJoins(Map(all[..i], Narrowed(models)), Map([all[i]], Narrowed(models)), HasModels());
  }

  /** Narrows every subscription to the authorized models and compacts away those left with none. */
  method NarrowInPlace(a: array<Sub>, models: set<(string, string)>) returns (m: nat)
    modifies a
    ensures m <= a.Length && a[..m] == Filter(Map(old(a[..]), Narrowed(models)), HasModels())
  {
    m := 0;
    ghost var all := a[..];
    for i := 0 to a.Length
      invariant m <= i
      invariant a[..m] == Filter(Map(all[..i], Narrowed(models)), HasModels())
      invariant forall j | i <= j < a.Length :: a[j] == all[j]
    {
      ghost var kept := a[..m];
      OneMoreNarrowed(all, i, models);
      var s := a[i].(refs := Filter(a[i].refs, AuthorizedRef(models)));
      if |s.refs| > 0 {
        a[m] := s;
        m := m + 1;
        assert a[..m] == kept + [s];
      }
    }
    assert all[..a.Length] == all;
  }

  method GetAllAccessible(informers: Informers, who: Caller, access: Access) returns (r: Result<seq<Sub>, SelectError>)
    ensures r == AllAccessible(informers, who, access)
  {
    if |who.groups| == 0 && who.username == "" {
      return Err(NoCaller);
    }
    var loaded := LoadSubscriptions(informers);
    if loaded.None? {
      return Err(ListFailed);
    }
    var accessible := Keep(loaded.value, Listed(who));
    if access.Authorized? {
      var a := new Sub[|accessible|](i requires 0 <= i < |accessible| => accessible[i]);
      assert a[..] == accessible;
      var m := NarrowInPlace(a, access.models);
      accessible := a[..m];
    }
    return Ok(SortBy(NameLeq, accessible));
  }

  // ---------------------------------------------------------------- the lists' order does not matter

  ghost predicate UniqueModels(models: seq<Model>) {
    && (forall a, b | a in models && b in models && KeyOf(a.namespace, a.name) == KeyOf(b.namespace, b.name) :: a == b)
    && (forall a, b | a in models && b in models && a.alias == b.alias && a.alias != "" :: a == b)
  }

  /** The same objects, listed in another order. */
  ghost predicate Reordered(a: Informers, b: Informers) {
    && a.subs.Some? == b.subs.Some? && (a.subs.Some? ==> multiset(a.subs.value) == multiset(b.subs.value))
    && a.models.Some? == b.models.Some? && (a.models.Some? ==> multiset(a.models.value) == multiset(b.models.value))
  }

  ghost predicate Unique(a: Informers) {
    (a.subs.Some? ==> UniqueNames(a.subs.value)) && (a.models.Some? ==> UniqueModels(a.models.value))
  }

  lemma {:induction false} IndexHolds(models: seq<Model>)
    ensures forall k | k in Index(models) ::
              Index(models)[k] in models && KeyOf(Index(models)[k].namespace, Index(models)[k].name) == k
    ensures forall u | u in models :: KeyOf(u.namespace, u.name) in Index(models)
  {
    if models != [] {
      IndexHolds(models[..|models| - 1]);
      assert models == models[..|models| - 1] + [models[|models| - 1]];
    }
  }

  lemma IndexForgetsOrder(a: seq<Model>, b: seq<Model>)
    requires UniqueModels(a) && multiset(a) == multiset(b)
    ensures Index(a) == Index(b)
  {
    SameElements(a, b);
    IndexHolds(a);
    IndexHolds(b);
    forall k ensures k in Index(a) <==> k in Index(b) {
      if k in Index(a) { assert Index(a)[k] in b; }
      if k in Index(b) { assert Index(b)[k] in a; }
    }
  }

  lemma AliasForgetsOrder(a: Informers, b: Informers, model: string)
    requires Unique(a) && Reordered(a, b)
    ensures ResolveModelAlias(a.models, model) == ResolveModelAlias(b.models, model)
  {
    if a.models.Some? && model != "" {
      SameElements(a.models.value, b.models.value);
      FirstPermuted(a.models.value, b.models.value, AliasIs(model));
    }
  }

  lemma LoadForgetsOrder(a: Informers, b: Informers)
    requires Unique(a) && Reordered(a, b) && a.subs.Some?
    ensures multiset(Loaded(a.subs.value, a.models)) == multiset(Loaded(b.subs.value, b.models))
    ensures UniqueNames(Loaded(a.subs.value, a.models))
  {
    if a.models.Some? {
      IndexForgetsOrder(a.models.value, b.models.value);
    }
    MapPermuted(a.subs.value, b.subs.value, Enricher(IndexOption(a.models)));
    LoadedNames(a.subs.value, a.models);
  }

  lemma LoadedNames(subs: seq<Sub>, models: Option<seq<Model>>)
    requires UniqueNames(subs)
    ensures UniqueNames(Loaded(subs, models))
  {
    var f := Enricher(IndexOption(models));
    MapAt(subs, f);
    forall x, y | x in Loaded(subs, models) && y in Loaded(subs, models) && x.name == y.name ensures x == y {
      var a :| a in subs && f(a) == x;
      var b :| b in subs && f(b) == y;
      assert a.name == b.name;
    }
  }

  /** Select answers alike, results and errors, for every order of the two lists. */
  lemma SelectForgetsOrder(a: Informers, b: Informers, who: Caller, requested: string, model: string, access: Access)
    requires Unique(a) && Reordered(a, b)
    ensures Selected(a, who, requested, model, access) == Selected(b, who, requested, model, access)
  {
    if a.subs.Some? {
      LoadForgetsOrder(a, b);
      AliasForgetsOrder(a, b, model);
      var x, y := Loaded(a.subs.value, a.models), Loaded(b.subs.value, b.models);
      NamesSeparate(x);
      PriorityOrder();
      SortForgetsOrder(PriorityLeq, x, y);
      SameElements(a.subs.value, b.subs.value);
    }
  }

  lemma FilterNames(subs: seq<Sub>, p: Sub -> bool)
    requires UniqueNames(subs)
    ensures UniqueNames(Filter(subs, p))
  {
    FilterKeeps(subs, p);
  }

  lemma HighestForgetsOrder(a: Informers, b: Informers, who: Caller)
    requires Unique(a) && Reordered(a, b)
    ensures Highest(a, who) == Highest(b, who)
  {
    if a.subs.Some? {
      LoadForgetsOrder(a, b);
      var x, y := Loaded(a.subs.value, a.models), Loaded(b.subs.value, b.models);
      FilterPermuted(x, y, HasAccess(who));
      FilterNames(x, HasAccess(who));
      var p, q := Filter(x, HasAccess(who)), Filter(y, HasAccess(who));
      NamesSeparate(p);
      PriorityOrder();
      SortForgetsOrder(PriorityLeq, p, q);
      SameElements(p, q);
    }
  }

  lemma VisibleNames(subs: seq<Sub>, who: Caller, access: Access)
    requires UniqueNames(subs)
    ensures UniqueNames(Visible(subs, who, access))
  {
    var listed := Filter(subs, Listed(who));
    FilterNames(subs, Listed(who));
    if access.Authorized? {
      var f := Narrowed(access.models);
      MapAt(listed, f);
      forall x: Sub, y: Sub | x in Map(listed, f) && y in Map(listed, f) && x.name == y.name ensures x == y {
        var a :| a in listed && f(a) == x;
        var b :| b in listed && f(b) == y;
        assert a.name == b.name;
      }
      FilterNames(Map(listed, f), HasModels());
    }
  }

  lemma VisiblePermuted(x: seq<Sub>, y: seq<Sub>, who: Caller, access: Access)
    requires multiset(x) == multiset(y)
    ensures multiset(Visible(x, who, access)) == multiset(Visible(y, who, access))
  {
    FilterPermuted(x, y, Listed(who));
    if access.Authorized? {
      var p, q := Filter(x, Listed(who)), Filter(y, Listed(who));
      MapPermuted(p, q, Narrowed(access.models));
      FilterPermuted(Map(p, Narrowed(access.models)), Map(q, Narrowed(access.models)), HasModels());
    }
  }

  lemma AllAccessibleForgetsOrder(a: Informers, b: Informers, who: Caller, access: Access)
    requires Unique(a) && Reordered(a, b)
    ensures AllAccessible(a, who, access) == AllAccessible(b, who, access)
  {
    if a.subs.Some? {
      LoadForgetsOrder(a, b);
      var x, y := Loaded(a.subs.value, a.models), Loaded(b.subs.value, b.models);
      VisiblePermuted(x, y, who, access);
      VisibleNames(x, who, access);
      NamesSeparate(Visible(x, who, access));
      NameOrder();
      SortForgetsOrder(NameLeq, Visible(x, who, access), Visible(y, who, access));
    }
  }

  // ---------------------------------------------------------------- what is selected deserves it

  lemma SortedElements(leq: (Sub, Sub) -> bool, subs: seq<Sub>)
    ensures forall x :: x in SortBy(leq, subs) <==> x in subs
  {
    SameElements(SortBy(leq, subs), subs);
  }

  lemma ChosenIsSound(subs: seq<Sub>, who: Caller, requested: string, model: string, access: Access)
    requires Chosen(subs, who, requested, model, access).Ok?
    ensures var r := Chosen(subs, who, requested, model, access).value;
            && r.sub in subs
            && UserHasAccess(r.sub, who) && Includes(r.sub, model) && CheckModelHealth(r.sub, model).None?
            && r.resolvedModel == model && r.accessAllowed == ModelAccessAllowed(r.sub, model, access)
            && (requested != "" ==> KeyOf(r.sub.namespace, r.sub.name) == requested || r.sub.name == requested)
  {
    if requested == "" {
      FilterKeeps(subs, Eligible(who, model));
      var eligible := Filter(subs, Eligible(who, model));
      assert eligible[0] in eligible;
    }
  }

  /** A selected subscription is loaded, the caller's, healthy, and has the model asked for. */
  lemma SelectIsSound(informers: Informers, who: Caller, requested: string, model: string, access: Access)
    requires Selected(informers, who, requested, model, access).Ok?
    ensures informers.subs.Some?
    ensures var r := Selected(informers, who, requested, model, access).value;
            var resolved := ResolveModelAlias(informers.models, model);
            && r.sub in Loaded(informers.subs.value, informers.models)
            && UserHasAccess(r.sub, who) && Includes(r.sub, resolved) && CheckModelHealth(r.sub, resolved).None?
            && r.resolvedModel == resolved && r.accessAllowed == ModelAccessAllowed(r.sub, resolved, access)
            && (requested != "" ==> KeyOf(r.sub.namespace, r.sub.name) == requested || r.sub.name == requested)
  {
    var loaded := Loaded(informers.subs.value, informers.models);
    SortedElements(PriorityLeq, loaded);
    ChosenIsSound(SortBy(PriorityLeq, loaded), who, requested, ResolveModelAlias(informers.models, model), access);
  }

  /** Without a name, a selection is the only candidate there is. */
  lemma SelectIsUnambiguous(informers: Informers, who: Caller, model: string, access: Access, other: Sub)
    requires Selected(informers, who, "", model, access).Ok?
    requires informers.subs.Some? && other in Loaded(informers.subs.value, informers.models)
    requires UserHasAccess(other, who) && Includes(other, ResolveModelAlias(informers.models, model))
    ensures other == Selected(informers, who, "", model, access).value.sub
  {
    var loaded := Loaded(informers.subs.value, informers.models);
    SortedElements(PriorityLeq, loaded);
    ChosenIsUnambiguous(SortBy(PriorityLeq, loaded), who, ResolveModelAlias(informers.models, model), access, other);
  }

  lemma ChosenIsUnambiguous(subs: seq<Sub>, who: Caller, model: string, access: Access, other: Sub)
    requires Chosen(subs, who, "", model, access).Ok? && other in subs && UserHasAccess(other, who) && Includes(other, model)
    ensures other == Chosen(subs, who, "", model, access).value.sub
  {
    FilterKeeps(subs, Eligible(who, model));
    assert Eligible(who, model)(other);
  }

  /** The highest comes first, by priority, then token limit, then name, among all the caller may use. */
  lemma HighestIsFirst(informers: Informers, who: Caller, s: Sub)
    requires Highest(informers, who) == Ok(s)
    ensures informers.subs.Some? && s in Loaded(informers.subs.value, informers.models) && UserHasAccess(s, who)
    ensures forall t | t in Loaded(informers.subs.value, informers.models) && UserHasAccess(t, who) ::
              && s.priority >= t.priority
              && (s.priority == t.priority ==> MaxLimit(s.refs) >= MaxLimit(t.refs))
              && (s.priority == t.priority && MaxLimit(s.refs) == MaxLimit(t.refs) ==> StrLeq(s.name, t.name))
  {
    var loaded := Loaded(informers.subs.value, informers.models);
    var accessible := Filter(loaded, HasAccess(who));
    FilterKeeps(loaded, HasAccess(who));
    PriorityOrder();
    SortSorts(PriorityLeq, accessible);
    SortedElements(PriorityLeq, accessible);
    assert SortBy(PriorityLeq, accessible)[0] == s;
    forall t | t in loaded && UserHasAccess(t, who) ensures PriorityLeq(s, t) {
      assert HasAccess(who)(t);
      SortedHead(PriorityLeq, SortBy(PriorityLeq, accessible), t);
    }
  }

  lemma Unslashed(namespace: string, name: string, other: string, otherName: string)
    requires '/' !in namespace && '/' !in other && KeyOf(namespace, name) == KeyOf(other, otherName)
    ensures namespace == other && name == otherName
  {
    assert namespace + ['/'] + name == KeyOf(namespace, name) && other + ['/'] + otherName == KeyOf(other, otherName);
    SplitUnique('/', namespace, name, other, otherName);
  }

  lemma NamedFinds(subs: seq<Sub>, s: Sub, requested: string)
    requires UniqueNames(subs) && s in subs && (forall t | t in subs :: '/' !in t.namespace && '/' !in t.name)
    requires requested == s.name || requested == KeyOf(s.namespace, s.name)
    ensures Named(subs, requested) == Some(s)
  {
    forall t | t in subs ensures QualifiedIs(requested)(t) <==> t == s && requested == KeyOf(s.namespace, s.name) {
      Slashed(t.namespace, t.name);
      if KeyOf(t.namespace, t.name) == KeyOf(s.namespace, s.name) {
        Unslashed(t.namespace, t.name, s.namespace, s.name);
      }
    }
    assert NameIs(s.name)(s);
  }

  lemma Slashed(namespace: string, name: string)
    ensures '/' in KeyOf(namespace, name)
  {
    assert KeyOf(namespace, name)[|namespace|] == '/';
  }

  lemma LoadedUnslashed(subs: seq<Sub>, models: Option<seq<Model>>)
    requires forall t | t in subs :: '/' !in t.namespace && '/' !in t.name
    ensures forall t | t in Loaded(subs, models) :: '/' !in t.namespace && '/' !in t.name
  {
    var f := Enricher(IndexOption(models));
    MapAt(subs, f);
    forall t | t in Loaded(subs, models) ensures '/' !in t.namespace && '/' !in t.name {
      var o :| o in subs && f(o) == t;
    }
  }

  /**
   Asking by name for the subscription that was picked as the highest gives that subscription, or
   says that it is not ready; it is never denied or unknown.
   */
  lemma HighestCanBeSelected(informers: Informers, who: Caller, s: Sub, requested: string, access: Access)
    requires Highest(informers, who) == Ok(s)
    requires UniqueNames(informers.subs.value) && (forall t | t in informers.subs.value :: '/' !in t.namespace && '/' !in t.name)
    requires requested != "" && (requested == s.name || requested == KeyOf(s.namespace, s.name))
    ensures Selected(informers, who, requested, "", access) ==
              if s.phase == "" || s.phase == FAILED then Err(ModelUnhealthy(s.name, s.phase, SubscriptionNotReady))
              else Ok(Response(s, "", true))
  {
    var loaded := Loaded(informers.subs.value, informers.models);
    HighestIsFirst(informers, who, s);
    LoadedNames(informers.subs.value, informers.models);
    LoadedUnslashed(informers.subs.value, informers.models);
    SortedElements(PriorityLeq, loaded);
    NamedFinds(SortBy(PriorityLeq, loaded), s, requested);
  }

  /** The list shows exactly the caller's subscriptions that are up, each with the models allowed, by name. */
  lemma ListIsExact(informers: Informers, who: Caller, access: Access, shown: Sub)
    requires AllAccessible(informers, who, access).Ok?
    ensures informers.subs.Some?
    ensures shown in AllAccessible(informers, who, access).value <==>
              exists s | s in Loaded(informers.subs.value, informers.models) ::
                && UserHasAccess(s, who) && (s.phase == ACTIVE || s.phase == DEGRADED) && !s.deleting
                && (access.Unchecked? ==> shown == s)
                && (access.Authorized? ==> shown == Narrowed(access.models)(s) && shown.refs != [])
    ensures Sorted(NameLeq, AllAccessible(informers, who, access).value)
  {
    var loaded := Loaded(informers.subs.value, informers.models);
    var listed := Filter(loaded, Listed(who));
    FilterKeeps(loaded, Listed(who));
    NameOrder();
    SortSorts(NameLeq, Visible(loaded, who, access));
    SortedElements(NameLeq, Visible(loaded, who, access));
    if access.Authorized? {
      MapAt(listed, Narrowed(access.models));
      FilterKeeps(Map(listed, Narrowed(access.models)), HasModels());
    }
  }
}
