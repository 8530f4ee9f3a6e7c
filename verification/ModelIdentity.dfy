/**
 Models that answer to the same alias.

 Each model's status says which other models of its namespace share its alias. The controller
 does not recompute everything on a change: a change event enqueues the models it may concern.
 `World` interleaves changes, event deliveries in any order, and reconciles.
 */
module ModelIdentity {
  import opened Ordering

  datatype Key = Key(namespace: string, name: string)

  /** What the ModelIdentityUnique condition says. */
  datatype Verdict = Unchecked | AliasNotResolved | Unique | SharedWith(names: set<string>)

  datatype Model = Model(alias: string, verdict: Verdict, deleting: bool)

  type Models = map<Key, Model>

  /** The other models of the namespace that share the model's alias. */
  function Conflicts(models: Models, key: Key): set<string>
    requires key in models
  {
    set k | k in models && k.namespace == key.namespace && k.name != key.name
            && models[k].alias == models[key].alias :: k.name
  }

  function Recomputed(models: Models, key: Key): Verdict
    requires key in models
  {
    if models[key].alias == "" then AliasNotResolved
    else if Conflicts(models, key) == {} then Unique
    else SharedWith(Conflicts(models, key))
  }

  // ---------------------------------------------------------------- incremental recomputation

  datatype Event =
    | Created(key: Key, alias: string)
    | Changed(key: Key, before: string, alias: string)
    | Deleted(key: Key, alias: string)

  datatype World = World(models: Models, queue: set<Key>, events: multiset<Event>)

  datatype Step =
    | Create(key: Key, alias: string)
    | MarkDeleting(key: Key)
    | Remove(key: Key)
    | Enqueue(key: Key)
    | Deliver(e: Event)
    | Reconcile(key: Key, resolved: string)
    | ReturnEarly(key: Key)

  predicate Enabled(w: World, s: Step) {
    match s
    case Create(key, _) => key !in w.models
    case MarkDeleting(key) => key in w.models
    case Remove(key) => key in w.models
    case Enqueue(_) => true
    case Deliver(e) => e in w.events
    case Reconcile(key, _) => key in w.queue
    case ReturnEarly(key) => key in w.queue
  }

  /** The siblings of `key` whose present alias is `alias` or `before`; empty aliases concern no one. */
  function Siblings(models: Models, key: Key, alias: string, before: string): set<Key> {
    set k | k in models && k.namespace == key.namespace && k.name != key.name
            && ((alias != "" && models[k].alias == alias) || (before != "" && models[k].alias == before))
  }

  /** What the watch handlers enqueue. */
  function Concerned(models: Models, e: Event): set<Key> {
    match e
    case Created(key, alias) => {key} + Siblings(models, key, alias, "")
    case Changed(key, before, alias) => if before != alias then Siblings(models, key, alias, before) else {}
    case Deleted(key, alias) => Siblings(models, key, alias, "")
  }

  /** A reconcile that gets as far as the conflict check; an unresolved alias leaves the old one. */
  function Reconciled(w: World, key: Key, resolved: string): World
    requires key in w.models
  {
    var m := w.models[key];
    var alias := if resolved != "" then resolved else m.alias;
    var models := w.models[key := m.(alias := alias)];
    World(models[key := models[key].(verdict := Recomputed(models, key))], w.queue - {key},
          w.events + multiset{Changed(key, m.alias, alias)})
  }

  function Apply(w: World, s: Step): World
    requires Enabled(w, s)
  {
    match s
    case Create(key, alias) =>
      w.(models := w.models[key := Model(alias, Unchecked, false)], events := w.events + multiset{Created(key, alias)})
    case MarkDeleting(key) =>
      w.(models := w.models[key := w.models[key].(deleting := true)], queue := w.queue + {key})
    case Remove(key) =>
      w.(models := w.models - {key}, events := w.events + multiset{Deleted(key, w.models[key].alias)})
    case Enqueue(key) => w.(queue := w.queue + {key})
    case Deliver(e) => w.(queue := w.queue + Concerned(w.models, e), events := w.events - multiset{e})
    case Reconcile(key, resolved) =>
      if key !in w.models || w.models[key].deleting then w.(queue := w.queue - {key})
      else Reconciled(w, key, resolved)
    case ReturnEarly(key) => w.(queue := w.queue - {key})
  }

  // ---------------------------------------------------------------- it agrees with recomputing everything

  predicate Exact(models: Models, key: Key)
    requires key in models
  {
    models[key].verdict == Recomputed(models, key)
  }

  ghost predicate Covered(w: World, key: Key)
    requires key in w.models
  {
    exists e | e in w.events :: key in Concerned(w.models, e)
  }

  /** Due a verdict: not on its way out, and with an alias to compare. */
  predicate Due(models: Models, key: Key) {
    key in models && !models[key].deleting && models[key].alias != ""
  }

  /** A model due a verdict is queued, covered by an undelivered event, or has the right verdict. */
  ghost predicate InvAt(w: World, key: Key) {
    Due(w.models, key) ==> key in w.queue || Covered(w, key) || Exact(w.models, key)
  }

  lemma SameConflicts(a: Models, b: Models, key: Key, touched: Key)
    requires key in a && key in b && a[key] == b[key] && key != touched
    requires a - {touched} == b - {touched}
    requires (touched in a && touched in b && a[touched].alias == b[touched].alias)
             || ((touched in a && touched.namespace == key.namespace ==> a[touched].alias != a[key].alias)
                 && (touched in b && touched.namespace == key.namespace ==> b[touched].alias != b[key].alias))
    ensures Conflicts(a, key) == Conflicts(b, key)
  {
    forall k | k != touched ensures k in a <==> k in b {
      assert k in a - {touched} <==> k in b - {touched};
    }
    forall k | k in a && k != touched ensures a[k] == b[k] {
      assert (a - {touched})[k] == (b - {touched})[k];
    }
  }

  /** A change to one model leaves any other due model queued, covered, or with the right verdict. */
  lemma ChangeKeepsInvAt(w: World, w': World, touched: Key, e: Event, key: Key)
    requires InvAt(w, key) && key != touched && w.queue - {touched} <= w'.queue && w'.events == w.events + multiset{e}
    requires w'.models - {touched} == w.models - {touched}
    requires e.key == touched
    requires touched in w.models && touched in w'.models ==>
               e == Changed(touched, w.models[touched].alias, w'.models[touched].alias)
    requires touched in w.models && touched !in w'.models ==> e == Deleted(touched, w.models[touched].alias)
    requires touched !in w.models && touched in w'.models ==> e == Created(touched, w'.models[touched].alias)
    ensures InvAt(w', key)
  {
    if Due(w'.models, key) {
      assert key in w'.models - {touched};
      assert key in w.models && w.models[key] == w'.models[key];
      if key !in w.queue {
        if Covered(w, key) {
          var d :| d in w.events && key in Concerned(w.models, d);
          assert d in w'.events && key in Concerned(w'.models, d);
        } else if key in Concerned(w'.models, e) {
          assert e in w'.events;
        } else {
          SameConflicts(w.models, w'.models, key, touched);
        }
      }
    }
  }

  lemma DeliveryKeepsInvAt(w: World, e: Event, key: Key)
    requires InvAt(w, key) && e in w.events
    ensures InvAt(Apply(w, Deliver(e)), key)
  {
    var w' := Apply(w, Deliver(e));
    if Due(w'.models, key) && key !in w'.queue && Covered(w, key) {
      var d :| d in w.events && key in Concerned(w.models, d);
      assert d != e && d in w'.events;
    }
  }

  lemma MarkKeepsInvAt(w: World, marked: Key, key: Key)
    requires InvAt(w, key) && marked in w.models
    ensures InvAt(Apply(w, MarkDeleting(marked)), key)
  {
    var w' := Apply(w, MarkDeleting(marked));
    if Due(w'.models, key) {
      assert key != marked && Due(w.models, key);
      assert Conflicts(w'.models, key) == Conflicts(w.models, key);
      if Covered(w, key) {
        var d :| d in w.events && key in Concerned(w.models, d);
        assert key in Concerned(w'.models, d);
      }
    }
  }

  /** Taking `other` off the queue, or putting it on, is nothing to `key`. */
  lemma QueueKeepsInvAt(w: World, w': World, other: Key, key: Key)
    requires InvAt(w, key) && w' == w.(queue := w'.queue)
    requires key in w.queue ==> key in w'.queue
    ensures InvAt(w', key)
  {
    assert Due(w.models, key) ==> (Covered(w, key) <==> Covered(w', key));
  }

  /** A reconcile that reaches the check puts its own model right, whatever went before. */
  lemma FullReconcileSetsRight(w: World, key: Key, resolved: string)
    requires key in w.models && !w.models[key].deleting
    ensures Exact(Reconciled(w, key, resolved).models, key) && InvAt(Reconciled(w, key, resolved), key)
  {
    var w' := Reconciled(w, key, resolved);
    var mid := w.models[key := w.models[key].(alias := w'.models[key].alias)];
    assert Conflicts(w'.models, key) == Conflicts(mid, key);
  }

  lemma ReconcileKeepsInvAt(w: World, other: Key, resolved: string, key: Key)
    requires InvAt(w, key) && other in w.queue
    ensures InvAt(Apply(w, Reconcile(other, resolved)), key)
  {
    var w' := Apply(w, Reconcile(other, resolved));
    if other !in w.models || w.models[other].deleting {
      assert key == other ==> !Due(w.models, key);
      if key != other {
        QueueKeepsInvAt(w, w', other, key);
      }
    } else if key == other {
      FullReconcileSetsRight(w, key, resolved);
    } else {
      ChangeKeepsInvAt(w, w', other, Changed(other, w.models[other].alias, w'.models[other].alias), key);
    }
  }

  /** Every step keeps a model covered but one: its own reconcile stopping before the check. */
  lemma StepKeepsInvAt(w: World, s: Step, key: Key)
    requires InvAt(w, key) && Enabled(w, s) && s != ReturnEarly(key)
    ensures InvAt(Apply(w, s), key)
  {
    var w' := Apply(w, s);
    match s
    case Create(k, alias) =>
      if key == k {
        assert Created(k, alias) in w'.events && k in Concerned(w'.models, Created(k, alias));
      } else {
        ChangeKeepsInvAt(w, w', k, Created(k, alias), key);
      }
    case MarkDeleting(k) => MarkKeepsInvAt(w, k, key);
    case Remove(k) =>
      if key != k {
        ChangeKeepsInvAt(w, w', k, Deleted(k, w.models[k].alias), key);
      }
    case Enqueue(k) => QueueKeepsInvAt(w, w', k, key);
    case Deliver(e) => DeliveryKeepsInvAt(w, e, key);
    case Reconcile(k, resolved) => ReconcileKeepsInvAt(w, k, resolved, key);
    case ReturnEarly(k) => QueueKeepsInvAt(w, w', k, key);
  }

  ghost predicate Runs(w: World, steps: seq<Step>, w': World)
    decreases |steps|
  {
    if steps == [] then w == w'
    else Enabled(w, steps[0]) && Runs(Apply(w, steps[0]), steps[1..], w')
  }

  lemma {:induction false} RunKeepsInvAt(w: World, steps: seq<Step>, w': World, key: Key)
    requires InvAt(w, key) && Runs(w, steps, w') && ReturnEarly(key) !in steps
    ensures InvAt(w', key)
    decreases |steps|
  {
    if steps != [] {
      StepKeepsInvAt(w, steps[0], key);
      RunKeepsInvAt(Apply(w, steps[0]), steps[1..], w', key);
    }
  }

  function Start(): World {
    World(map[], {}, multiset{})
  }

  /**
   However changes, deliveries and reconciles interleave, and however often the reconciles of other
   models stop early: a model whose own reconcile never does is, when due, queued, covered by an
   event not yet delivered, or has the verdict a full recomputation would give it.
   */
  lemma NothingIsForgotten(steps: seq<Step>, w': World, key: Key)
    requires Runs(Start(), steps, w') && ReturnEarly(key) !in steps
    ensures InvAt(w', key)
    ensures w'.queue == {} && w'.events == multiset{} && Due(w'.models, key) ==> Exact(w'.models, key)
  {
    RunKeepsInvAt(Start(), steps, w', key);
  }

  /**
   Once the queue and the events have run dry, a model has the right verdict unless its own
   reconcile stopped early after the last one that reached the check. Nothing is asked of what
   went before that one.
   */
  lemma AgreesWhenQuiet(w: World, key: Key, resolved: string, steps: seq<Step>, w': World)
    requires Enabled(w, Reconcile(key, resolved)) && key in w.models && !w.models[key].deleting
    requires Runs(Apply(w, Reconcile(key, resolved)), steps, w') && ReturnEarly(key) !in steps
    ensures InvAt(w', key)
    ensures w'.queue == {} && w'.events == multiset{} && Due(w'.models, key) ==> Exact(w'.models, key)
  {
    FullReconcileSetsRight(w, key, resolved);
    RunKeepsInvAt(Apply(w, Reconcile(key, resolved)), steps, w', key);
  }

  // ---------------------------------------------------------------- reconciles that stop early

  /** A reconcile of `key` that reaches the check. */
  predicate Checks(w: World, s: Step, key: Key) {
    s.Reconcile? && s.key == key && key in w.models && !w.models[key].deleting
  }

  /** A run in which the model goes on existing and none of its reconciles reaches the check. */
  ghost predicate WithoutCheck(w: World, steps: seq<Step>, key: Key)
    decreases |steps|
  {
    steps == []
    || (Enabled(w, steps[0]) && !Checks(w, steps[0], key) && steps[0] != Remove(key)
        && WithoutCheck(Apply(w, steps[0]), steps[1..], key))
  }

  lemma {:induction false} VerdictStands(w: World, steps: seq<Step>, w': World, key: Key)
    requires Runs(w, steps, w') && WithoutCheck(w, steps, key) && key in w.models
    ensures key in w'.models && w'.models[key].verdict == w.models[key].verdict && w'.models[key].alias == w.models[key].alias
    decreases |steps|
  {
    if steps != [] {
      VerdictStandsAt(w, steps[0], key);
      VerdictStands(Apply(w, steps[0]), steps[1..], w', key);
    }
  }

  lemma VerdictStandsAt(w: World, s: Step, key: Key)
    requires Enabled(w, s) && !Checks(w, s, key) && s != Remove(key) && key in w.models
    ensures var m := Apply(w, s).models; key in m && m[key].verdict == w.models[key].verdict && m[key].alias == w.models[key].alias
  {
  }

  /**
   Whatever has happened since the last reconcile that reached the check, early returns included,
   the verdict is right exactly when the models sharing the alias are the ones that shared it then.
   */
  lemma VerdictIsRightExactly(w: World, key: Key, resolved: string, steps: seq<Step>, w': World)
    requires Enabled(w, Reconcile(key, resolved)) && Checks(w, Reconcile(key, resolved), key)
    requires Runs(Apply(w, Reconcile(key, resolved)), steps, w') && WithoutCheck(Apply(w, Reconcile(key, resolved)), steps, key)
    ensures key in w'.models && key in Apply(w, Reconcile(key, resolved)).models
    ensures Exact(w'.models, key) <==>
              w'.models[key].alias == "" || Conflicts(w'.models, key) == Conflicts(Apply(w, Reconcile(key, resolved)).models, key)
  {
    FullReconcileSetsRight(w, key, resolved);
    VerdictStands(Apply(w, Reconcile(key, resolved)), steps, w', key);
  }

  /** A model whose route is missing when its rival goes away goes on reporting the rival until it is enqueued again. */
  lemma EarlyReturnLeavesStaleVerdict(ns: string, a: string, b: string, alias: string) returns (w: World)
    requires a != b && alias != ""
    ensures var models := map[Key(ns, a) := Model(alias, SharedWith({b}), false),
                              Key(ns, b) := Model(alias, SharedWith({a}), false)];
            var start := World(models, {}, multiset{});
            (forall key :: InvAt(start, key)) && Runs(start, [Remove(Key(ns, b)), Deliver(Deleted(Key(ns, b), alias)), ReturnEarly(Key(ns, a))], w)
    ensures w.queue == {} && w.events == multiset{} && Key(ns, a) in w.models
    ensures w.models[Key(ns, a)].verdict == SharedWith({b}) && Recomputed(w.models, Key(ns, a)) == Unique
  {
    var ka, kb := Key(ns, a), Key(ns, b);
    var models := map[ka := Model(alias, SharedWith({b}), false), kb := Model(alias, SharedWith({a}), false)];
    var start := World(models, {}, multiset{});
    assert Conflicts(models, ka) == {b} by { assert kb in models; }
    assert Conflicts(models, kb) == {a} by { assert ka in models; }
    forall key ensures InvAt(start, key) {
      assert Due(models, key) ==> Exact(models, key);
    }
    var w1 := Apply(start, Remove(kb));
    assert w1.models == map[ka := models[ka]] && w1.events == multiset{Deleted(kb, alias)};
    var w2 := Apply(w1, Deliver(Deleted(kb, alias)));
    assert w2.queue == {ka} && w2.events == multiset{};
    w := Apply(w2, ReturnEarly(ka));
    assert Conflicts(w.models, ka) == {};
    assert [ReturnEarly(ka)][1..] == [];
    assert Runs(w2, [ReturnEarly(ka)], w);
    var rest := [Deliver(Deleted(kb, alias)), ReturnEarly(ka)];
    assert rest[1..] == [ReturnEarly(ka)];
    assert Runs(w1, rest, w);
    assert [Remove(kb), Deliver(Deleted(kb, alias)), ReturnEarly(ka)][1..] == rest;
  }

  // ---------------------------------------------------------------- the controller's own loops

  class ModelController {
    var models: Models
    var queue: set<Key>

    /** The names that share the model's alias, sorted; none while the alias is unresolved. */
    method FindModelAliasConflicts(key: Key) returns (conflicts: seq<string>)
      requires key in models
      ensures Sorted(StrLeq, conflicts) && NoDuplicates(conflicts)
      ensures (set n | n in conflicts) == if models[key].alias == "" then {} else Conflicts(models, key)
    {
      if models[key].alias == "" {
        return [];
      }
      var found: seq<string> := [];
      var todo := models.Keys;
      while todo != {}
        invariant todo <= models.Keys
        invariant forall n :: n in found <==>
                    (Key(key.namespace, n) in models && Key(key.namespace, n) !in todo
                     && n in Conflicts(models, key))
        invariant NoDuplicates(found)
        decreases todo
      {
        var k :| k in todo;
        todo := todo - {k};
        if k.namespace != key.namespace || k.name == key.name {
          continue;
        }
        if models[k].alias == models[key].alias {
          assert k == Key(key.namespace, k.name);
          found := found + [k.name];
        }
      }
      StrOrder();
      SortSorts(StrLeq, found);
      conflicts := SortBy(StrLeq, found);
      SameElements(conflicts, found);
      SameDistinctness(found, conflicts);
    }

    /** Sets the condition; afterwards it says what a recomputation would. */
    method CheckModelIdentityConflict(key: Key)
      requires key in models
      modifies this`models
      ensures models == old(models)[key := old(models)[key].(verdict := Recomputed(old(models), key))]
      ensures Exact(models, key)
    {
      if models[key].alias == "" {
        models := models[key := models[key].(verdict := AliasNotResolved)];
        return;
      }
      var conflicts := FindModelAliasConflicts(key);
      ghost var before := models;
      assert (set n | n in conflicts) == Conflicts(before, key);
      if conflicts == [] {
        assert Conflicts(before, key) == {};
        models := models[key := models[key].(verdict := Unique)];
      } else {
        assert conflicts[0] in Conflicts(before, key);
        models := models[key := models[key].(verdict := SharedWith(set n | n in conflicts))];
      }
      assert Conflicts(models, key) == Conflicts(before, key);
    }

    /** Adds to the work queue the siblings the change may concern, and no one else. */
    method EnqueueSiblingsWithAlias(changed: Key, newAlias: string, oldAlias: string)
      modifies this`queue
      ensures queue == old(queue) + Siblings(models, changed, newAlias, oldAlias)
    {
      if newAlias == "" && oldAlias == "" {
        return;
      }
      var todo := models.Keys;
      while todo != {}
        invariant todo <= models.Keys
        invariant queue == old(queue) + (Siblings(models, changed, newAlias, oldAlias) - todo)
        decreases todo
      {
        var k :| k in todo;
        todo := todo - {k};
        if k.namespace != changed.namespace || k.name == changed.name {
          continue;
        }
        if (newAlias != "" && models[k].alias == newAlias) || (oldAlias != "" && models[k].alias == oldAlias) {
          queue := queue + {k};
        }
      }
    }
  }
}
