/**
 One list of models out of many subscriptions.

 Every subscription is probed by a goroutine of its own; results are merged as they arrive.
 `arrivals` is the order in which they happened to come in. Cancelled probes are not modelled.
 */
module Aggregation {
  import opened Ordering
  import opened Sequences
  import opened Wrappers

  /** A subscription as the listing shows it. */
  datatype SubInfo = SubInfo(name: string, displayName: string, description: string)

  datatype Model = Model(id: string, url: Option<string>, ownedBy: string, kind: string, ready: bool,
                         details: string, subscriptions: seq<SubInfo>)

  datatype Sub = Sub(info: SubInfo, refs: seq<(string, string)>)

  datatype ProbeResult = ProbeResult(sub: Sub, models: seq<Model>)

  datatype Key = Key(id: string, url: string, ownedBy: string)

  function KeyOf(m: Model): Key {
    Key(m.id, if m.url.Some? then m.url.value else "", m.ownedBy)
  }

  // ---------------------------------------------------------------- what one subscription contributes

  predicate Refers(refs: seq<(string, string)>, owner: string) {
    exists i | 0 <= i < |refs| :: refs[i].0 + "/" + refs[i].1 == owner
  }

  function Referred(refs: seq<(string, string)>): Model -> bool {
    (m: Model) => refs == [] || Refers(refs, m.ownedBy)
  }

  function Servable(): Model -> bool {
    (m: Model) => m.ready && m.kind in {"ExternalModel", "llmisvc", "LLMInferenceService", ""}
  }

  /** No references stand for no restriction. */
  method FilterModelsBySubscription(models: seq<Model>, refs: seq<(string, string)>) returns (kept: seq<Model>)
    ensures kept == Filter(models, Referred(refs))
  {
    if |refs| == 0 {
      FilterAll(models, Referred(refs));
      return models;
    }
    var allowed: set<string> := {};
    for i := 0 to |refs|
      invariant forall o :: o in allowed <==> Refers(refs[..i], o)
    {
      var key := refs[i].0 + "/" + refs[i].1;
      forall o ensures Refers(refs[..i + 1], o) <==> Refers(refs[..i], o) || o == key {
        if Refers(refs[..i], o) {
          var j :| 0 <= j < i && refs[..i][j].0 + "/" + refs[..i][j].1 == o;
          assert refs[..i + 1][j] == refs[..i][j];
        }
        assert refs[..i + 1][i] == refs[i];
      }
      allowed := allowed + {key};
    }
    assert refs[..|refs|] == refs;
    kept := [];
    for i := 0 to |models|
      invariant kept == Filter(models[..i], Referred(refs))
    {
      assert models[..i + 1][..i] == models[..i];
      if models[i].ownedBy in allowed {
        kept := kept + [models[i]];
      }
    }
    assert models[..|models|] == models;
  }

  method FilterModelsByAccess(models: seq<Model>) returns (kept: seq<Model>)
    ensures kept == Filter(models, Servable())
  {
    kept := [];
    for i := 0 to |models|
      invariant kept == Filter(models[..i], Servable())
    {
      assert models[..i + 1][..i] == models[..i];
      if models[i].kind == "ExternalModel" {
        if models[i].ready {
          kept := kept + [models[i]];
        }
      } else if models[i].kind == "llmisvc" || models[i].kind == "LLMInferenceService" || models[i].kind == "" {
        if models[i].ready {
          kept := kept + [models[i]];
        }
      }
    }
    assert models[..|models|] == models;
  }

  function Probed(models: seq<Model>, sub: Sub): ProbeResult {
    ProbeResult(sub, Filter(Filter(models, Referred(sub.refs)), Servable()))
  }

  method Probe(models: seq<Model>, sub: Sub) returns (r: ProbeResult)
    ensures r == Probed(models, sub)
  {
    var checked := models;
    if |sub.refs| > 0 {
      checked := FilterModelsBySubscription(models, sub.refs);
    } else {
      FilterAll(models, Referred(sub.refs));
    }
    var kept := FilterModelsByAccess(checked);
    r := ProbeResult(sub, kept);
  }

  // ---------------------------------------------------------------- merging

  type Merged = map<Key, Model>

  predicate Shows(m: Model, name: string) {
    exists i | 0 <= i < |m.subscriptions| :: m.subscriptions[i].name == name
  }

  function WithSubscription(m: Model, info: SubInfo): Model {
    if Shows(m, info.name) then m else m.(subscriptions := m.subscriptions + [info])
  }

  function Added(merged: Merged, info: SubInfo, m: Model): Merged {
    merged[KeyOf(m) := if KeyOf(m) in merged then WithSubscription(merged[KeyOf(m)], info) else m.(subscriptions := [info])]
  }

  type Listing = (SubInfo, Model)

  /** What the results say, one model of one subscription after the other. */
  function Listings(arrivals: seq<ProbeResult>): seq<Listing> {
    if arrivals == [] then []
    else Listings(arrivals[..|arrivals| - 1]) + Paired(arrivals[|arrivals| - 1])
  }

  function Paired(r: ProbeResult): seq<Listing> {
    Map(r.models, Pairer(r.sub.info))
  }

  function Pairer(info: SubInfo): Model -> Listing {
    (m: Model) => (info, m)
  }

  function MergeAll(listings: seq<Listing>): Merged {
    if listings == [] then map[]
    else
      var x := listings[|listings| - 1];
      Added(MergeAll(listings[..|listings| - 1]), x.0, x.1)
  }

  method AddSubscriptionIfNew(m: Model, info: SubInfo) returns (r: Model)
    ensures r == WithSubscription(m, info)
  {
    for i := 0 to |m.subscriptions|
      invariant forall j | 0 <= j < i :: m.subscriptions[j].name != info.name
    {
      if m.subscriptions[i].name == info.name {
        return m;
      }
    }
    r := m.(subscriptions := m.subscriptions + [info]);
  }

  predicate KeyLeq(a: Key, b: Key) {
    if a.id != b.id then StrLeq(a.id, b.id)
    else if a.url != b.url then StrLeq(a.url, b.url)
    else StrLeq(a.ownedBy, b.ownedBy)
  }

  lemma KeyOrder()
    ensures Total(KeyLeq) && Transitive(KeyLeq)
    ensures forall a, b :: KeyLeq(a, b) && KeyLeq(b, a) ==> a == b
  {
    StrOrder();
    forall x: string, y: string | StrLeq(x, y) && StrLeq(y, x) ensures x == y {
      StrLeqTotal(x, y);
    }
  }

  predicate Listed(merged: Merged, m: Model) {
    KeyOf(m) in merged && merged[KeyOf(m)] == m
  }

  /** Every merged model once, by strictly rising key. */
  ghost predicate IsListing(merged: Merged, list: seq<Model>) {
    && (forall i | 0 <= i < |list| :: Listed(merged, list[i]))
    && (forall i, j | 0 <= i < j < |list| :: KeyLeq(KeyOf(list[i]), KeyOf(list[j])) && KeyOf(list[i]) != KeyOf(list[j]))
    && (forall k | k in merged :: merged[k] in list)
  }

  method MergeResults(arrivals: seq<ProbeResult>) returns (merged: Merged)
    ensures merged == MergeAll(Listings(arrivals))
  {
    merged := map[];
    for i := 0 to |arrivals|
      invariant merged == MergeAll(Listings(arrivals[..i]))
    {
      var r := arrivals[i];
      ghost var before := Listings(arrivals[..i]);
      assert before + Map(r.models[..0], Pairer(r.sub.info)) == before;
      for j := 0 to |r.models|
        invariant merged == MergeAll(before + Map(r.models[..j], Pairer(r.sub.info)))
      {
        var m := r.models[j];
        OneMoreListing(before, r, j);
        if KeyOf(m) in merged {
          var updated := AddSubscriptionIfNew(merged[KeyOf(m)], r.sub.info);
          merged := merged[KeyOf(m) := updated];
        } else {
          merged := merged[KeyOf(m) := m.(subscriptions := [r.sub.info])];
        }
      }
      assert r.models[..|r.models|] == r.models;
      assert arrivals[..i + 1][..i] == arrivals[..i];
    }
    assert arrivals[..|arrivals|] == arrivals;
  }

  lemma OneMoreListing(before: seq<Listing>, r: ProbeResult, j: nat)
    requires j < |r.models|
    ensures var x := before + Map(r.models[..j], Pairer(r.sub.info));
            var y := before + Map(r.models[..j + 1], Pairer(r.sub.info));
            y == x + [(r.sub.info, r.models[j])]
            && MergeAll(y) == Added(MergeAll(x), r.sub.info, r.models[j])
  {
    var x := before + Map(r.models[..j], Pairer(r.sub.info));
    var y := before + Map(r.models[..j + 1], Pairer(r.sub.info));
    assert r.models[..j + 1][..j] == r.models[..j];
    assert y == x + [(r.sub.info, r.models[j])];
    assert y[..|y| - 1] == x;
  }

  method SortedKeys(merged: Merged) returns (sorted: seq<Key>)
    ensures Sorted(KeyLeq, sorted) && NoDuplicates(sorted)
    ensures forall k :: k in sorted <==> k in merged
  {
    var keys: seq<Key> := [];
    var todo := merged.Keys;
    while todo != {}
      invariant todo <= merged.Keys && NoDuplicates(keys)
      invariant forall k :: k in keys <==> k in merged && k !in todo
      decreases todo
    {
      var k :| k in todo;
      todo := todo - {k};
      keys := keys + [k];
    }
    KeyOrder();
    SortSorts(KeyLeq, keys);
    sorted := SortBy(KeyLeq, keys);
    SameDistinctness(keys, sorted);
    SameElements(keys, sorted);
  }

  /** The list `GET /v1/models` returns: the map's entries by id, url and owner. */
  method Aggregate(arrivals: seq<ProbeResult>) returns (list: seq<Model>)
    ensures IsListing(MergeAll(Listings(arrivals)), list)
  {
    var merged := MergeResults(arrivals);
    MergedKeys(Listings(arrivals));
    var sorted := SortedKeys(merged);
    list := Lookups(merged, sorted);
    LookedUp(merged, sorted, list);
  }

  method Lookups(merged: Merged, keys: seq<Key>) returns (list: seq<Model>)
    requires forall k | k in keys :: k in merged
    ensures |list| == |keys| && forall j | 0 <= j < |keys| :: keys[j] in merged && list[j] == merged[keys[j]]
  {
    list := [];
    for i := 0 to |keys|
      invariant |list| == i && forall j | 0 <= j < i :: keys[j] in merged && list[j] == merged[keys[j]]
    {
      list := list + [merged[keys[i]]];
    }
  }

  lemma LookedUp(merged: Merged, sorted: seq<Key>, list: seq<Model>)
    requires forall k | k in merged :: KeyOf(merged[k]) == k
    requires Sorted(KeyLeq, sorted) && NoDuplicates(sorted) && forall k :: k in sorted <==> k in merged
    requires |list| == |sorted| && forall j | 0 <= j < |list| :: sorted[j] in merged && list[j] == merged[sorted[j]]
    ensures IsListing(merged, list)
  {
    forall i | 0 <= i < |list| ensures Listed(merged, list[i]) && KeyOf(list[i]) == sorted[i] {}
    forall k | k in merged ensures merged[k] in list {
      var i :| 0 <= i < |sorted| && sorted[i] == k;
      assert list[i] == merged[k];
    }
  }

  // ---------------------------------------------------------------- what the merge contains

  /** The subscription lists a model of that key. */
  ghost predicate Says(listings: seq<Listing>, k: Key, info: SubInfo) {
    exists x | x in listings :: KeyOf(x.1) == k && x.0 == info
  }

  function Bare(m: Model): Model {
    m.(subscriptions := [])
  }

  lemma SaysMore(front: seq<Listing>, x: Listing, k: Key, info: SubInfo)
    ensures Says(front + [x], k, info) <==> Says(front, k, info) || (KeyOf(x.1) == k && x.0 == info)
  {
    if Says(front, k, info) {
      var y :| y in front && KeyOf(y.1) == k && y.0 == info;
      assert y in front + [x];
    }
    if KeyOf(x.1) == k && x.0 == info {
      assert x in front + [x];
    }
  }

  lemma {:induction false} MergedKeys(listings: seq<Listing>)
    ensures forall k | k in MergeAll(listings) :: KeyOf(MergeAll(listings)[k]) == k
    ensures forall k :: k in MergeAll(listings) <==> exists x | x in listings :: KeyOf(x.1) == k
  {
    if listings != [] {
      var n := |listings| - 1;
      var front, x := listings[..n], listings[n];
      MergedKeys(front);
      assert listings == front + [x];
      assert x in listings;
    }
  }

  lemma {:induction false} MergedBare(listings: seq<Listing>, k: Key)
    requires k in MergeAll(listings)
    ensures SaysBare(listings, MergeAll(listings)[k])
  {
    var n := |listings| - 1;
    var front := listings[..n];
    assert listings[n] in listings;
    if k in MergeAll(front) {
      MergedBare(front, k);
      var y :| y in front && Bare(y.1) == Bare(MergeAll(front)[k]);
      assert y in listings && Bare(y.1) == Bare(MergeAll(listings)[k]);
    }
  }

  /** Some listing is of that model, subscriptions aside. */
  ghost predicate SaysBare(listings: seq<Listing>, m: Model) {
    exists x | x in listings :: Bare(x.1) == Bare(m)
  }

  /** Subscriptions of one name are one. */
  ghost predicate NamesIdentify(listings: seq<Listing>) {
    forall x, y | x in listings && y in listings && x.0.name == y.0.name :: x.0 == y.0
  }

  ghost predicate DistinctNames(infos: seq<SubInfo>) {
    forall i, j | 0 <= i < j < |infos| :: infos[i].name != infos[j].name
  }

  /** Under each key are exactly the subscriptions that list it, each once. */
  lemma {:induction false} MergedSubscriptions(listings: seq<Listing>, k: Key)
    requires NamesIdentify(listings) && k in MergeAll(listings)
    ensures DistinctNames(MergeAll(listings)[k].subscriptions)
    ensures forall info :: info in MergeAll(listings)[k].subscriptions <==> Says(listings, k, info)
  {
    var n := |listings| - 1;
    var front, x := listings[..n], listings[n];
    assert listings == front + [x];
    assert forall y | y in front :: y in listings;
    assert x in listings;
    var before, after := MergeAll(front), MergeAll(listings);
    if k in before {
      MergedSubscriptions(front, k);
      if KeyOf(x.1) == k {
        ShownInfo(listings, front, x, k, before[k]);
      }
    } else {
      MergedKeys(front);
    }
    forall info ensures info in after[k].subscriptions <==> Says(listings, k, info) {
      SaysMore(front, x, k, info);
    }
  }

  /** A subscription is added unless it is there already, and then under the same name as itself alone. */
  lemma ShownInfo(listings: seq<Listing>, front: seq<Listing>, x: Listing, k: Key, m: Model)
    requires NamesIdentify(listings) && x in listings && forall y | y in front :: y in listings
    requires DistinctNames(m.subscriptions) && forall info | info in m.subscriptions :: Says(front, k, info)
    ensures DistinctNames(WithSubscription(m, x.0).subscriptions)
    ensures forall info :: info in WithSubscription(m, x.0).subscriptions <==> info in m.subscriptions || info == x.0
  {
    if Shows(m, x.0.name) {
      var i :| 0 <= i < |m.subscriptions| && m.subscriptions[i].name == x.0.name;
      SaidInfo(front, k, m.subscriptions[i]);
    }
  }

  lemma SaidInfo(listings: seq<Listing>, k: Key, info: SubInfo)
    requires Says(listings, k, info)
    ensures exists x | x in listings :: x.0 == info
  {
  }

  // ---------------------------------------------------------------- arrival order does not matter

  lemma {:induction false} ListingsHold(arrivals: seq<ProbeResult>)
    ensures forall x :: x in Listings(arrivals) <==> exists r | r in arrivals :: x in Paired(r)
  {
    if arrivals != [] {
      var n := |arrivals| - 1;
      ListingsHold(arrivals[..n]);
      assert arrivals == arrivals[..n] + [arrivals[n]];
      forall x ensures x in Listings(arrivals) <==> exists r | r in arrivals :: x in Paired(r) {
        if x in Paired(arrivals[n]) {
          assert arrivals[n] in arrivals;
        }
      }
    }
  }

  lemma ListingsPermuted(a: seq<ProbeResult>, b: seq<ProbeResult>)
    requires multiset(a) == multiset(b)
    ensures forall x :: x in Listings(a) <==> x in Listings(b)
  {
    SameElements(a, b);
    ListingsHold(a);
    ListingsHold(b);
  }

  /** A key stands for one model of the list probed. */
  ghost predicate KeysIdentify(listings: seq<Listing>) {
    forall x, y | x in listings && y in listings && KeyOf(x.1) == KeyOf(y.1) :: Bare(x.1) == Bare(y.1)
  }

  function KeyFn(): Model -> Key {
    (m: Model) => KeyOf(m)
  }

  /** The same model, under the same subscriptions in some order. */
  ghost predicate Alike(m: Model, n: Model) {
    Bare(m) == Bare(n) && multiset(m.subscriptions) == multiset(n.subscriptions)
  }

  lemma MergedAlike(a: seq<Listing>, b: seq<Listing>, k: Key)
    requires (forall x :: x in a <==> x in b) && NamesIdentify(a) && KeysIdentify(a)
    requires k in MergeAll(a) && k in MergeAll(b)
    ensures Alike(MergeAll(a)[k], MergeAll(b)[k])
  {
    MergedKeys(a);
    MergedKeys(b);
    MergedBare(a, k);
    MergedBare(b, k);
    MergedSubscriptions(a, k);
    MergedSubscriptions(b, k);
    var s, t := MergeAll(a)[k].subscriptions, MergeAll(b)[k].subscriptions;
    forall info ensures info in s <==> info in t {
      assert Says(a, k, info) <==> Says(b, k, info);
    }
    SameMultiset(s, t);
    var x :| x in a && Bare(x.1) == Bare(MergeAll(a)[k]);
    var y :| y in b && Bare(y.1) == Bare(MergeAll(b)[k]);
    assert KeyOf(x.1) == k && KeyOf(y.1) == k;
  }

  lemma ListingKeys(merged: Merged, list: seq<Model>)
    requires IsListing(merged, list) && forall k | k in merged :: KeyOf(merged[k]) == k
    ensures var keys := Map(list, KeyFn()); Sorted(KeyLeq, keys) && NoDuplicates(keys) && forall k :: k in keys <==> k in merged
  {
    MapAt(list, KeyFn());
    var keys := Map(list, KeyFn());
    forall k ensures k in keys <==> k in merged {
      if k in merged {
        var i :| 0 <= i < |list| && list[i] == merged[k];
        assert keys[i] == k;
      }
    }
  }

  lemma MergesAlike(a: seq<ProbeResult>, b: seq<ProbeResult>, listA: seq<Model>, listB: seq<Model>)
    requires multiset(a) == multiset(b) && NamesIdentify(Listings(a)) && KeysIdentify(Listings(a))
    requires IsListing(MergeAll(Listings(a)), listA) && IsListing(MergeAll(Listings(b)), listB)
    ensures |listA| == |listB| && forall i | 0 <= i < |listA| :: Alike(listA[i], listB[i])
  {
    var x, y := Listings(a), Listings(b);
    ListingsPermuted(a, b);
    SamePlaces(x, y, listA, listB);
    forall i | 0 <= i < |listA| ensures Alike(listA[i], listB[i]) {
      MergedAlike(x, y, KeyOf(listA[i]));
    }
  }

  lemma SamePlaces(a: seq<Listing>, b: seq<Listing>, listA: seq<Model>, listB: seq<Model>)
    requires forall x :: x in a <==> x in b
    requires IsListing(MergeAll(a), listA) && IsListing(MergeAll(b), listB)
    ensures |listA| == |listB|
    ensures forall i | 0 <= i < |listA| ::
              KeyOf(listA[i]) == KeyOf(listB[i]) && Listed(MergeAll(a), listA[i]) && Listed(MergeAll(b), listB[i])
  {
    MergedKeys(a);
    MergedKeys(b);
    assert forall k :: k in MergeAll(a) <==> k in MergeAll(b);
    SameKeys(MergeAll(a), MergeAll(b), listA, listB);
    MapAt(listA, KeyFn());
    MapAt(listB, KeyFn());
    forall i | 0 <= i < |listA| ensures KeyOf(listA[i]) == KeyOf(listB[i]) {
      assert Map(listA, KeyFn())[i] == Map(listB, KeyFn())[i];
    }
  }

  lemma SameKeys(a: Merged, b: Merged, listA: seq<Model>, listB: seq<Model>)
    requires IsListing(a, listA) && IsListing(b, listB) && forall k :: k in a <==> k in b
    requires (forall k | k in a :: KeyOf(a[k]) == k) && (forall k | k in b :: KeyOf(b[k]) == k)
    ensures Map(listA, KeyFn()) == Map(listB, KeyFn())
  {
    ListingKeys(a, listA);
    ListingKeys(b, listB);
    KeyOrder();
    SameMultiset(Map(listA, KeyFn()), Map(listB, KeyFn()));
    SortedUnique(KeyLeq, Map(listA, KeyFn()), Map(listB, KeyFn()));
  }

  function Prober(models: seq<Model>): Sub -> ProbeResult {
    (s: Sub) => Probed(models, s)
  }

  ghost predicate DistinctSubs(subs: seq<Sub>) {
    forall s, t | s in subs && t in subs && s.info.name == t.info.name :: s == t
  }

  lemma ProbesListed(models: seq<Model>, subs: seq<Sub>, arrivals: seq<ProbeResult>, x: Listing)
    requires multiset(arrivals) == multiset(Map(subs, Prober(models)))
    ensures x in Listings(arrivals) <==> exists s | s in subs :: x.0 == s.info && x.1 in Probed(models, s).models
  {
    SameElements(arrivals, Map(subs, Prober(models)));
    ListingsHold(arrivals);
    MapAt(subs, Prober(models));
    if x in Listings(arrivals) {
      var r :| r in arrivals && x in Paired(r);
      var s :| s in subs && Prober(models)(s) == r;
      PairedHolds(r, x);
    }
    if s :| s in subs && x.0 == s.info && x.1 in Probed(models, s).models {
      assert Prober(models)(s) == Probed(models, s);
      PairedHolds(Probed(models, s), x);
    }
  }

  lemma PairedHolds(r: ProbeResult, x: Listing)
    ensures x in Paired(r) <==> x.0 == r.sub.info && x.1 in r.models
  {
    MapAt(r.models, Pairer(r.sub.info));
    assert x.0 == r.sub.info ==> Pairer(r.sub.info)(x.1) == x;
  }

  /** Each key stands for one model of the list that is probed. */
  ghost predicate UniqueKeys(models: seq<Model>) {
    forall m, n | m in models && n in models && KeyOf(m) == KeyOf(n) :: Bare(m) == Bare(n)
  }

  lemma ProbesIdentify(models: seq<Model>, subs: seq<Sub>, arrivals: seq<ProbeResult>)
    requires DistinctSubs(subs) && multiset(arrivals) == multiset(Map(subs, Prober(models)))
    ensures NamesIdentify(Listings(arrivals))
    ensures UniqueKeys(models) ==> KeysIdentify(Listings(arrivals))
  {
    var listings := Listings(arrivals);
    forall x, y | x in listings && y in listings
      ensures x.0.name == y.0.name ==> x.0 == y.0
      ensures UniqueKeys(models) && KeyOf(x.1) == KeyOf(y.1) ==> Bare(x.1) == Bare(y.1)
    {
      ListedModelIsProbed(models, subs, arrivals, x);
      ListedModelIsProbed(models, subs, arrivals, y);
    }
  }

  lemma ListedModelIsProbed(models: seq<Model>, subs: seq<Sub>, arrivals: seq<ProbeResult>, x: Listing)
    requires multiset(arrivals) == multiset(Map(subs, Prober(models))) && x in Listings(arrivals)
    ensures x.1 in models && exists s | s in subs :: x.0 == s.info
  {
    ProbesListed(models, subs, arrivals, x);
    var s :| s in subs && x.0 == s.info && x.1 in Probed(models, s).models;
    FilterKeeps(Filter(models, Referred(s.refs)), Servable());
    FilterKeeps(models, Referred(s.refs));
  }

  /**
   In whatever two orders the probes of the same subscriptions arrive, the list has the same models
   in the same places; only the order within each model's subscriptions can differ.
   */
  lemma Confluent(models: seq<Model>, subs: seq<Sub>, a: seq<ProbeResult>, b: seq<ProbeResult>,
                  listA: seq<Model>, listB: seq<Model>)
    requires UniqueKeys(models) && DistinctSubs(subs)
    requires multiset(a) == multiset(Map(subs, Prober(models))) == multiset(b)
    requires IsListing(MergeAll(Listings(a)), listA) && IsListing(MergeAll(Listings(b)), listB)
    ensures |listA| == |listB| && forall i | 0 <= i < |listA| :: Alike(listA[i], listB[i])
  {
    ProbesIdentify(models, subs, a);
    MergesAlike(a, b, listA, listB);
  }

  /** A subscription stands under a model exactly when its own filtered list has that model. */
  lemma ListedExactly(models: seq<Model>, subs: seq<Sub>, arrivals: seq<ProbeResult>, list: seq<Model>, s: Sub, m: Model)
    requires DistinctSubs(subs) && multiset(arrivals) == multiset(Map(subs, Prober(models)))
    requires IsListing(MergeAll(Listings(arrivals)), list) && s in subs && m in list
    ensures Shows(m, s.info.name) <==> exists x | x in Probed(models, s).models :: KeyOf(x) == KeyOf(m)
  {
    var listings, k := Listings(arrivals), KeyOf(m);
    ProbesIdentify(models, subs, arrivals);
    MergedSubscriptions(listings, k);
    if Shows(m, s.info.name) {
      var i :| 0 <= i < |m.subscriptions| && m.subscriptions[i].name == s.info.name;
      assert Says(listings, k, m.subscriptions[i]);
      var x :| x in listings && KeyOf(x.1) == k && x.0 == m.subscriptions[i];
      ProbesListed(models, subs, arrivals, x);
    }
    if x :| x in Probed(models, s).models && KeyOf(x) == k {
      ProbesListed(models, subs, arrivals, (s.info, x));
      assert (s.info, x) in listings;
      assert Says(listings, k, s.info);
      assert s.info in m.subscriptions;
    }
  }

  /** Every model that some subscription may serve is listed, and nothing else is. */
  lemma NothingIsLost(models: seq<Model>, subs: seq<Sub>, arrivals: seq<ProbeResult>, list: seq<Model>, k: Key)
    requires multiset(arrivals) == multiset(Map(subs, Prober(models)))
    requires IsListing(MergeAll(Listings(arrivals)), list)
    ensures (exists m | m in list :: KeyOf(m) == k)
       <==> (exists s, x | s in subs && x in Probed(models, s).models :: KeyOf(x) == k)
  {
    var listings := Listings(arrivals);
    MergedKeys(listings);
    if m :| m in list && KeyOf(m) == k {
      var y :| y in listings && KeyOf(y.1) == k;
      ProbesListed(models, subs, arrivals, y);
    }
    if s, x :| s in subs && x in Probed(models, s).models && KeyOf(x) == k {
      ProbesListed(models, subs, arrivals, (s.info, x));
      assert (s.info, x) in listings;
      assert k in MergeAll(listings) && MergeAll(listings)[k] in list;
    }
  }
}
