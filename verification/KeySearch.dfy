/**
 Searching API keys: the WHERE clause the database store builds, and the in-memory filter it
 must agree with.

 A clause is kept as what it says rather than as text; `Holds` gives each its SQL meaning on a
 row. Rows come in one agreed order: sorting, and where it puts missing timestamps, is not modelled.
 */
module KeySearch {
  import opened Wrappers
  import opened Text
  import opened KeyStore
  import opened Sequences

  type Labels = map<string, string>

  datatype Row = Row(key: Key, labels: Option<Labels>)

  datatype Filters = Filters(statuses: seq<string>, subscription: Option<string>,
                             includeEphemeral: Option<bool>, labelsContain: Labels)

  // ---------------------------------------------------------------- the clause language

  datatype Arg = TextArg(text: string) | LabelsArg(labels: Labels) | NumberArg(number: int)

  /** Conditions on one row; numbers are placeholders, `$1` being the first argument. */
  datatype Clause =
    | TenantIs(placeholder: nat)
    | NotEphemeral
    | UsernameIs(placeholder: nat)
    | EffectiveStatusIn(placeholders: seq<nat>)
    | SubscriptionIs(placeholder: nat)
    | LabelsInclude(placeholder: nat)
    | StatusActive
    | NoExpiryOrLater

  function StatusName(s: Status): string {
    match s
    case Active => "active"
    case Revoked => "revoked"
    case Expired => "expired"
  }

  function ArgAt(args: seq<Arg>, placeholder: nat): Option<Arg> {
    if 1 <= placeholder <= |args| then Some(args[placeholder - 1]) else None
  }

  /** JSON containment: a row without labels contains nothing, not even the empty object. */
  predicate Includes(have: Option<Labels>, want: Labels) {
    have.Some? && forall k | k in want :: k in have.value && have.value[k] == want[k]
  }

  predicate Holds(c: Clause, args: seq<Arg>, row: Row, now: int) {
    match c
    case TenantIs(p) => ArgAt(args, p) == Some(TextArg(row.key.tenant))
    case NotEphemeral => !row.key.ephemeral
    case UsernameIs(p) => ArgAt(args, p) == Some(TextArg(row.key.username))
    case EffectiveStatusIn(ps) => NamesStatus(ps, args, StatusName(Effective(row.key, now)))
    case SubscriptionIs(p) => ArgAt(args, p) == Some(TextArg(row.key.subscription))
    case LabelsInclude(p) =>
      var arg := ArgAt(args, p);
      arg.Some? && arg.value.LabelsArg? && Includes(row.labels, arg.value.labels)
    case StatusActive => row.key.status.Active?
    case NoExpiryOrLater => row.key.expiresAt.None? || row.key.expiresAt.value > now
  }

  predicate NamesStatus(ps: seq<nat>, args: seq<Arg>, status: string) {
    exists i | 0 <= i < |ps| :: ArgAt(args, ps[i]) == Some(TextArg(status))
  }

  predicate Selects(clauses: seq<Clause>, args: seq<Arg>, row: Row, now: int) {
    forall i | 0 <= i < |clauses| :: Holds(clauses[i], args, row, now)
  }

  function PlaceholdersOf(c: Clause): seq<nat> {
    match c
    case TenantIs(p) => [p]
    case UsernameIs(p) => [p]
    case EffectiveStatusIn(ps) => ps
    case SubscriptionIs(p) => [p]
    case LabelsInclude(p) => [p]
    case _ => []
  }

  function Placeholders(clauses: seq<Clause>): seq<nat> {
    if clauses == [] then [] else Placeholders(clauses[..|clauses| - 1]) + PlaceholdersOf(clauses[|clauses| - 1])
  }

  function UpTo(n: nat): (s: seq<nat>)
    ensures |s| == n && forall i | 0 <= i < n :: s[i] == i + 1
  {
    seq(n, i => i + 1)
  }

  /** The clauses use the arguments one by one, in order and without gaps. */
  ghost predicate Numbered(clauses: seq<Clause>, args: seq<Arg>) {
    Placeholders(clauses) == UpTo(|args|)
  }

  /** The clauses select exactly the rows that `p` describes. */
  ghost predicate Means(clauses: seq<Clause>, args: seq<Arg>, p: (Row, int) -> bool) {
    forall row, now :: Selects(clauses, args, row, now) <==> p(row, now)
  }

  function Both(p: (Row, int) -> bool, q: (Row, int) -> bool): (Row, int) -> bool {
    (row, now) => p(row, now) && q(row, now)
  }

  lemma PlaceholdersInRange(clauses: seq<Clause>, n: nat, i: nat)
    requires Placeholders(clauses) == UpTo(n) && i < |clauses|
    ensures forall p | p in PlaceholdersOf(clauses[i]) :: 1 <= p <= n
  {
    PlaceholdersPart(clauses, i);
  }

  lemma {:induction false} PlaceholdersPart(clauses: seq<Clause>, i: nat)
    requires i < |clauses|
    ensures forall p | p in PlaceholdersOf(clauses[i]) :: p in Placeholders(clauses)
  {
    if i < |clauses| - 1 {
      PlaceholdersPart(clauses[..|clauses| - 1], i);
    }
  }

  lemma MoreArgs(c: Clause, args: seq<Arg>, more: seq<Arg>, row: Row, now: int)
    requires forall p | p in PlaceholdersOf(c) :: 1 <= p <= |args|
    ensures Holds(c, args + more, row, now) <==> Holds(c, args, row, now)
  {
    if c.EffectiveStatusIn? {
      forall i | 0 <= i < |c.placeholders| ensures ArgAt(args + more, c.placeholders[i]) == ArgAt(args, c.placeholders[i]) {
        assert c.placeholders[i] in PlaceholdersOf(c);
      }
    } else if PlaceholdersOf(c) != [] {
      assert c.placeholder in PlaceholdersOf(c);
    }
  }

  /** Appending a clause with its own arguments narrows the meaning by that clause, and by nothing else. */
  lemma AppendClause(clauses: seq<Clause>, args: seq<Arg>, p: (Row, int) -> bool, c: Clause,
                     more: seq<Arg>, q: (Row, int) -> bool)
    requires Numbered(clauses, args) && Means(clauses, args, p)
    requires PlaceholdersOf(c) == UpTo(|args| + |more|)[|args|..]
    requires forall row, now :: Holds(c, args + more, row, now) <==> q(row, now)
    ensures Numbered(clauses + [c], args + more)
    ensures Means(clauses + [c], args + more, Both(p, q))
  {
    var all := clauses + [c];
    assert all[..|all| - 1] == clauses;
    assert UpTo(|args| + |more|) == UpTo(|args|) + UpTo(|args| + |more|)[|args|..];
    forall row, now ensures Selects(all, args + more, row, now) <==> p(row, now) && q(row, now) {
      forall i | 0 <= i < |clauses| ensures Holds(all[i], args + more, row, now) <==> Holds(clauses[i], args, row, now) {
        PlaceholdersInRange(clauses, |args|, i);
        MoreArgs(clauses[i], args, more, row, now);
      }
      assert all[|clauses|] == c;
      if Selects(all, args + more, row, now) {
        assert forall i | 0 <= i < |clauses| :: Holds(all[i], args + more, row, now);
      }
    }
  }

  // ---------------------------------------------------------------- what a search asks for

  predicate EphemeralWanted(f: Filters) {
    f.includeEphemeral == Some(true)
  }

  predicate StatusWanted(f: Filters, status: string) {
    exists i | 0 <= i < |f.statuses| :: TrimSpace(f.statuses[i]) == status
  }

  /** The in-memory store's test, labels aside. */
  predicate Wanted(row: Row, username: string, tenant: string, f: Filters, now: int) {
    && row.key.tenant == tenant
    && (EphemeralWanted(f) || !row.key.ephemeral)
    && (username == "" || row.key.username == username)
    && (f.statuses == [] || StatusWanted(f, StatusName(Effective(row.key, now))))
    && (f.subscription.None? || f.subscription.value == "" || row.key.subscription == TrimSpace(f.subscription.value))
  }

  /** The in-memory label test: a missing label reads as the empty string. */
  predicate LabelsContain(have: Option<Labels>, want: Labels) {
    want == map[]
    || (have.Some? && forall k | k in want :: (if k in have.value then have.value[k] else "") == want[k])
  }

  predicate MockSelects(row: Row, username: string, tenant: string, f: Filters, now: int) {
    Wanted(row, username, tenant, f, now) && LabelsContain(row.labels, f.labelsContain)
  }

  predicate DatabaseSelects(row: Row, username: string, tenant: string, f: Filters, now: int) {
    Wanted(row, username, tenant, f, now) && (f.labelsContain == map[] || Includes(row.labels, f.labelsContain))
  }

  // ---------------------------------------------------------------- the builder

  method StatusPlaceholders(statuses: seq<string>, argPos: nat, args: seq<Arg>)
    returns (placeholders: seq<nat>, more: seq<Arg>, next: nat)
    requires argPos == |args| + 1
    ensures |more| == |statuses| && next == argPos + |statuses|
    ensures forall i | 0 <= i < |statuses| :: more[i] == TextArg(TrimSpace(statuses[i]))
    ensures placeholders == UpTo(|args| + |more|)[|args|..]
  {
    placeholders, more, next := [], [], argPos;
    for i := 0 to |statuses|
      invariant |more| == |placeholders| == i && next == argPos + i
      invariant forall j | 0 <= j < i :: more[j] == TextArg(TrimSpace(statuses[j])) && placeholders[j] == argPos + j
    {
      placeholders := placeholders + [next];
      more := more + [TextArg(TrimSpace(statuses[i]))];
      next := next + 1;
    }
  }

  lemma StatusClause(f: Filters, args: seq<Arg>, placeholders: seq<nat>, more: seq<Arg>, status: string)
    requires |more| == |f.statuses| && placeholders == UpTo(|args| + |more|)[|args|..]
    requires forall i | 0 <= i < |f.statuses| :: more[i] == TextArg(TrimSpace(f.statuses[i]))
    ensures NamesStatus(placeholders, args + more, status) <==> StatusWanted(f, status)
  {
    forall i | 0 <= i < |placeholders| ensures ArgAt(args + more, placeholders[i]) == Some(more[i]) {
      assert placeholders[i] == |args| + i + 1;
      assert (args + more)[|args| + i] == more[i];
    }
    if NamesStatus(placeholders, args + more, status) {
      var i :| 0 <= i < |placeholders| && ArgAt(args + more, placeholders[i]) == Some(TextArg(status));
      assert more[i] == TextArg(status);
    }
  }

  /** A query under construction. */
  datatype Query = Query(clauses: seq<Clause>, args: seq<Arg>, argPos: nat)

  ghost predicate Built(q: Query, p: (Row, int) -> bool) {
    q.argPos == |q.args| + 1 && Numbered(q.clauses, q.args) && Means(q.clauses, q.args, p)
  }

  /** Adds a clause on one argument, under the next free placeholder. */
  method WithArg(q: Query, c: Clause, arg: Arg, ghost p: (Row, int) -> bool, ghost t: (Row, int) -> bool) returns (r: Query)
    requires Built(q, p) && PlaceholdersOf(c) == [q.argPos]
    requires forall args, row, now | ArgAt(args, q.argPos) == Some(arg) :: Holds(c, args, row, now) <==> t(row, now)
    ensures Built(r, Both(p, t))
  {
    assert ArgAt(q.args + [arg], q.argPos) == Some(arg);
    assert UpTo(|q.args| + 1)[|q.args|..] == [q.argPos];
    AppendClause(q.clauses, q.args, p, c, [arg], t);
    r := Query(q.clauses + [c], q.args + [arg], q.argPos + 1);
  }

  method WithoutArg(q: Query, c: Clause, ghost p: (Row, int) -> bool, ghost t: (Row, int) -> bool) returns (r: Query)
    requires Built(q, p) && PlaceholdersOf(c) == []
    requires forall args, row, now :: Holds(c, args, row, now) <==> t(row, now)
    ensures Built(r, Both(p, t))
  {
    AppendClause(q.clauses, q.args, p, c, [], t);
    assert q.args + [] == q.args;
    r := q.(clauses := q.clauses + [c]);
  }

  lemma SameMeaning(q: Query, p: (Row, int) -> bool, t: (Row, int) -> bool)
    requires Built(q, p) && forall row, now :: p(row, now) <==> t(row, now)
    ensures Built(q, t)
  {
  }

  function TenantTest(tenant: string): (Row, int) -> bool {
    (row: Row, now: int) => row.key.tenant == tenant
  }

  function EphemeralTest(f: Filters): (Row, int) -> bool {
    (row: Row, now: int) => EphemeralWanted(f) || !row.key.ephemeral
  }

  function UserTest(username: string): (Row, int) -> bool {
    (row: Row, now: int) => username == "" || row.key.username == username
  }

  function StatusTest(f: Filters): (Row, int) -> bool {
    (row: Row, now: int) => f.statuses == [] || StatusWanted(f, StatusName(Effective(row.key, now)))
  }

  function SubscriptionTest(f: Filters): (Row, int) -> bool {
    (row: Row, now: int) =>
      f.subscription.None? || f.subscription.value == "" || row.key.subscription == TrimSpace(f.subscription.value)
  }

  function LabelsTest(f: Filters): (Row, int) -> bool {
    (row: Row, now: int) => f.labelsContain == map[] || Includes(row.labels, f.labelsContain)
  }

  method WhereTenant(tenant: string) returns (q: Query)
    ensures Built(q, TenantTest(tenant))
  {
    ghost var all := (row: Row, now: int) => true;
    q := Query([], [], 1);
    assert UpTo(0) == [];
    q := WithArg(q, TenantIs(1), TextArg(tenant), all, TenantTest(tenant));
    SameMeaning(q, Both(all, TenantTest(tenant)), TenantTest(tenant));
  }

  method WhereEphemeral(q: Query, f: Filters, ghost p: (Row, int) -> bool) returns (r: Query)
    requires Built(q, p)
    ensures Built(r, Both(p, EphemeralTest(f)))
  {
    if f.includeEphemeral.None? || !f.includeEphemeral.value {
      r := WithoutArg(q, NotEphemeral, p, EphemeralTest(f));
    } else {
      SameMeaning(q, p, Both(p, EphemeralTest(f)));
      r := q;
    }
  }

  method WhereUser(q: Query, username: string, ghost p: (Row, int) -> bool) returns (r: Query)
    requires Built(q, p)
    ensures Built(r, Both(p, UserTest(username)))
  {
    if username != "" {
      r := WithArg(q, UsernameIs(q.argPos), TextArg(username), p, UserTest(username));
    } else {
      SameMeaning(q, p, Both(p, UserTest(username)));
      r := q;
    }
  }

  method WhereStatus(q: Query, f: Filters, ghost p: (Row, int) -> bool) returns (r: Query)
    requires Built(q, p)
    ensures Built(r, Both(p, StatusTest(f)))
  {
    if |f.statuses| > 0 {
      var placeholders, more, next := StatusPlaceholders(f.statuses, q.argPos, q.args);
      forall status ensures NamesStatus(placeholders, q.args + more, status) <==> StatusWanted(f, status) {
        StatusClause(f, q.args, placeholders, more, status);
      }
      AppendClause(q.clauses, q.args, p, EffectiveStatusIn(placeholders), more, StatusTest(f));
      r := Query(q.clauses + [EffectiveStatusIn(placeholders)], q.args + more, next);
    } else {
      SameMeaning(q, p, Both(p, StatusTest(f)));
      r := q;
    }
  }

  method WhereSubscription(q: Query, f: Filters, ghost p: (Row, int) -> bool) returns (r: Query)
    requires Built(q, p)
    ensures Built(r, Both(p, SubscriptionTest(f)))
  {
    if f.subscription.Some? && f.subscription.value != "" {
      r := WithArg(q, SubscriptionIs(q.argPos), TextArg(TrimSpace(f.subscription.value)), p, SubscriptionTest(f));
    } else {
      SameMeaning(q, p, Both(p, SubscriptionTest(f)));
      r := q;
    }
  }

  method WhereLabels(q: Query, f: Filters, ghost p: (Row, int) -> bool) returns (r: Query)
    requires Built(q, p)
    ensures Built(r, Both(p, LabelsTest(f)))
  {
    if f.labelsContain != map[] {
      r := WithArg(q, LabelsInclude(q.argPos), LabelsArg(f.labelsContain), p, LabelsTest(f));
    } else {
      SameMeaning(q, p, Both(p, LabelsTest(f)));
      r := q;
    }
  }

  /**
   The search query: its placeholders number the arguments without a gap, limit and offset come
   last, and its conditions select exactly the rows asked for.
   */
  method SearchQuery(tenant: string, username: string, f: Filters, limit: nat, offset: nat)
    returns (clauses: seq<Clause>, args: seq<Arg>, limitPos: nat, offsetPos: nat)
    ensures |args| >= 2 && Numbered(clauses, args[..|args| - 2])
    ensures ArgAt(args, limitPos) == Some(NumberArg(limit + 1)) && ArgAt(args, offsetPos) == Some(NumberArg(offset))
    ensures forall row, now :: Selects(clauses, args, row, now) <==> DatabaseSelects(row, username, tenant, f, now)
  {
    var q := WhereTenant(tenant);
    ghost var p := TenantTest(tenant);
    q := WhereEphemeral(q, f, p);
    p := Both(p, EphemeralTest(f));
    q := WhereUser(q, username, p);
    p := Both(p, UserTest(username));
    q := WhereStatus(q, f, p);
    p := Both(p, StatusTest(f));
    q := WhereSubscription(q, f, p);
    p := Both(p, SubscriptionTest(f));
    q := WhereLabels(q, f, p);
    p := Both(p, LabelsTest(f));
    AllTests(tenant, username, f);
    clauses, args := q.clauses, q.args + [NumberArg(limit + 1), NumberArg(offset)];
    limitPos, offsetPos := q.argPos, q.argPos + 1;
    assert args[..|args| - 2] == q.args;
    MoreArgsSelect(clauses, q.args, [NumberArg(limit + 1), NumberArg(offset)]);
  }

  lemma AllTests(tenant: string, username: string, f: Filters)
    ensures var start := Both(Both(TenantTest(tenant), EphemeralTest(f)), UserTest(username));
            var p := Both(Both(Both(start, StatusTest(f)), SubscriptionTest(f)), LabelsTest(f));
            forall row, now :: p(row, now) <==> DatabaseSelects(row, username, tenant, f, now)
  {
  }

  lemma MoreArgsSelect(clauses: seq<Clause>, args: seq<Arg>, more: seq<Arg>)
    requires Numbered(clauses, args)
    ensures forall row, now :: Selects(clauses, args + more, row, now) <==> Selects(clauses, args, row, now)
  {
    forall row, now ensures Selects(clauses, args + more, row, now) <==> Selects(clauses, args, row, now) {
      forall i | 0 <= i < |clauses| ensures Holds(clauses[i], args + more, row, now) <==> Holds(clauses[i], args, row, now) {
        PlaceholdersInRange(clauses, |args|, i);
        MoreArgs(clauses[i], args, more, row, now);
      }
    }
  }

  // ---------------------------------------------------------------- the in-memory filter

  /** Compacts in place: the first `m` elements become those of `a` that pass, in their order. */
  method KeepMatching<T>(a: array<T>, p: T -> bool) returns (m: nat)
    modifies a
    ensures m <= a.Length && a[..m] == Filter(old(a[..]), p)
  {
    m := 0;
    for i := 0 to a.Length
      invariant m <= i
      invariant a[..m] == Filter(old(a[..])[..i], p)
      invariant a[i..] == old(a[..])[i..]
    {
      assert old(a[..])[..i + 1][..i] == old(a[..])[..i];
      assert a[i] == a[i..][0] == old(a[..])[i];
      if p(a[i]) {
        ghost var kept := a[..m];
        a[m] := a[i];
        m := m + 1;
        assert a[..m] == kept + [old(a[..])[i]];
      }
      assert a[i + 1..] == old(a[..])[i..][1..];
    }
    assert old(a[..])[..a.Length] == old(a[..]);
  }

  function FirstTests(username: string, tenant: string, f: Filters, now: int): Row -> bool {
    (row: Row) =>
      && row.key.tenant == tenant
      && (EphemeralWanted(f) || !row.key.ephemeral)
      && (username == "" || row.key.username == username)
      && (f.statuses == [] || StatusWanted(f, StatusName(Effective(row.key, now))))
  }

  function SubscriptionMatches(f: Filters): Row -> bool {
    (row: Row) => f.subscription.None? || f.subscription.value == "" || row.key.subscription == TrimSpace(f.subscription.value)
  }

  function LabelsMatch(f: Filters): Row -> bool {
    (row: Row) => LabelsContain(row.labels, f.labelsContain)
  }

  function MockTest(username: string, tenant: string, f: Filters, now: int): Row -> bool {
    (row: Row) => MockSelects(row, username, tenant, f, now)
  }

  function DatabaseTest(username: string, tenant: string, f: Filters, now: int): Row -> bool {
    (row: Row) => DatabaseSelects(row, username, tenant, f, now)
  }

  /** Filters the rows as the in-memory store does: one pass, then two compactions. */
  method FilterRows(rows: array<Row>, username: string, tenant: string, f: Filters, now: int) returns (kept: seq<Row>)
    modifies rows
    ensures kept == Filter(old(rows[..]), MockTest(username, tenant, f, now))
  {
    ghost var all := rows[..];
    var first, second, third := FirstTests(username, tenant, f, now), SubscriptionMatches(f), LabelsMatch(f);
    var n := KeepMatching(rows, first);
    kept := rows[..n];
    if f.subscription.Some? && f.subscription.value != "" {
      kept := Compacted(kept, second);
    } else {
      FilterAll(kept, second);
    }
    FilterTwice(all, first, second);
    if f.labelsContain != map[] {
      kept := Compacted(kept, third);
    } else {
      FilterAll(kept, third);
    }
    FilterTwice(all, Conj(first, second), third);
    FilterSame(all, Conj(Conj(first, second), third), MockTest(username, tenant, f, now));
  }

  method Compacted(rows: seq<Row>, p: Row -> bool) returns (kept: seq<Row>)
    ensures kept == Filter(rows, p)
  {
    var a := new Row[|rows|](i requires 0 <= i < |rows| => rows[i]);
    assert a[..] == rows;
    var n := KeepMatching(a, p);
    kept := a[..n];
  }

  // ---------------------------------------------------------------- where the two agree

  /** The row has labels, but lacks one that is wanted with the empty value. */
  predicate WantsMissingAsEmpty(row: Row, f: Filters) {
    row.labels.Some? && exists k | k in f.labelsContain :: f.labelsContain[k] == "" && k !in row.labels.value
  }

  /** The stores disagree on a row exactly when it would pass but for a wanted empty label it lacks. */
  lemma StoresDisagreeExactly(row: Row, username: string, tenant: string, f: Filters, now: int)
    ensures DatabaseSelects(row, username, tenant, f, now) ==> MockSelects(row, username, tenant, f, now)
    ensures MockSelects(row, username, tenant, f, now) && !DatabaseSelects(row, username, tenant, f, now) <==>
              MockSelects(row, username, tenant, f, now) && WantsMissingAsEmpty(row, f)
  {
    if f.labelsContain == map[] {
      assert !WantsMissingAsEmpty(row, f);
    }
  }

  lemma StoresCanDisagree(key: Key, tenant: string, now: int)
    requires key.tenant == tenant && !key.ephemeral
    ensures var row, f := Row(key, Some(map["team" := "a"])), Filters([], None, None, map["env" := ""]);
            MockSelects(row, "", tenant, f, now) && !DatabaseSelects(row, "", tenant, f, now)
  {
    assert "env" in map["env" := ""];
  }

  /** With no empty label value wanted, both stores return the same rows. */
  lemma StoresAgree(rows: seq<Row>, username: string, tenant: string, f: Filters, now: int)
    requires forall k | k in f.labelsContain :: f.labelsContain[k] != ""
    ensures Filter(rows, DatabaseTest(username, tenant, f, now)) == Filter(rows, MockTest(username, tenant, f, now))
  {
    forall row | row in rows
      ensures DatabaseSelects(row, username, tenant, f, now) == MockSelects(row, username, tenant, f, now)
    {
      StoresDisagreeExactly(row, username, tenant, f, now);
    }
    FilterSame(rows, DatabaseTest(username, tenant, f, now), MockTest(username, tenant, f, now));
  }

  // ---------------------------------------------------------------- bulk revocation

  function LiveTest(): (Row, int) -> bool {
    (row: Row, now: int) => row.key.status.Active?
  }

  function LastingTest(): (Row, int) -> bool {
    (row: Row, now: int) => row.key.expiresAt.None? || row.key.expiresAt.value > now
  }

  method BulkRevokeWhereClause(tenantName: string, username: string, subscription: string)
    returns (clauses: seq<Clause>, args: seq<Arg>)
    ensures Numbered(clauses, args)
    ensures forall row, now :: Selects(clauses, args, row, now) <==>
              row.key.status.Active? && (row.key.expiresAt.None? || row.key.expiresAt.value > now) && row.key.tenant == tenantName
              && (username == "" || row.key.username == username) && (subscription == "" || row.key.subscription == subscription)
  {
    var q := WhereTenant(tenantName);
    ghost var p := TenantTest(tenantName);
    q := WithoutArg(q, StatusActive, p, LiveTest());
    p := Both(p, LiveTest());
    q := WithoutArg(q, NoExpiryOrLater, p, LastingTest());
    p := Both(p, LastingTest());
    q := WhereUser(q, username, p);
    p := Both(p, UserTest(username));
    if subscription != "" {
      ghost var t := (row: Row, now: int) => row.key.subscription == subscription;
      q := WithArg(q, SubscriptionIs(q.argPos), TextArg(subscription), p, t);
    }
    clauses, args := q.clauses, q.args;
  }

  /** The two stores would revoke different keys exactly at the instant a key expires. */
  lemma BulkScopesDifferExactly(key: Key, s: Scope, now: int)
    ensures var database := key.status.Active? && (key.expiresAt.None? || key.expiresAt.value > now)
                            && key.tenant == s.tenant && (s.username == "" || key.username == s.username)
                            && (s.subscription == "" || key.subscription == s.subscription);
            && (database ==> Matches(key, s, now))
            && (Matches(key, s, now) && !database <==> Matches(key, s, now) && key.expiresAt == Some(now))
  {
  }

  // ---------------------------------------------------------------- pages

  datatype Page<T> = Page(rows: seq<T>, hasMore: bool)

  method ApplyPagination<T>(rows: seq<T>, offset: nat, limit: nat) returns (page: Page<T>)
    ensures page == PageAt(rows, offset, limit)
  {
    if offset >= |rows| {
      return Page([], false);
    }
    var rest := rows[offset..];
    var hasMore := |rest| > limit;
    if hasMore {
      rest := rest[..limit];
    }
    return Page(rest, hasMore);
  }

  /** What LIMIT and OFFSET leave of the rows. */
  function Fetched<T>(rows: seq<T>, offset: nat, limit: nat): seq<T> {
    if offset >= |rows| then [] else if |rows| - offset <= limit then rows[offset..] else rows[offset..offset + limit]
  }

  /** The database store fetches one row too many, to see whether there are more. */
  method FetchPage<T>(rows: seq<T>, offset: nat, limit: nat) returns (page: Page<T>)
    ensures page == PageAt(rows, offset, limit)
  {
    var fetched := Fetched(rows, offset, limit + 1);
    var hasMore := |fetched| > limit;
    if hasMore {
      fetched := fetched[..limit];
    }
    page := Page(fetched, hasMore);
  }

  function PageAt<T>(rows: seq<T>, offset: nat, limit: nat): Page<T> {
    Page(Fetched(rows, offset, limit), offset + limit < |rows|)
  }

  /** The pages a client sees that asks on, limit by limit, while there is more. */
  function Walk<T>(rows: seq<T>, offset: nat, limit: nat): seq<Page<T>>
    requires limit >= 1
    decreases |rows| - offset
  {
    var page := PageAt(rows, offset, limit);
    if page.hasMore then [page] + Walk(rows, offset + limit, limit) else [page]
  }

  function Joined<T>(pages: seq<Page<T>>): seq<T> {
    if pages == [] then [] else pages[0].rows + Joined(pages[1..])
  }

  /** A walk shows every row once and in order, in full pages, and learns only at the last that it is over. */
  lemma {:induction false} WalkShowsEachRowOnce<T>(rows: seq<T>, offset: nat, limit: nat)
    requires limit >= 1 && offset <= |rows|
    ensures Joined(Walk(rows, offset, limit)) == rows[offset..]
    ensures var pages := Walk(rows, offset, limit);
            forall i | 0 <= i < |pages| ::
              && (pages[i].hasMore <==> i < |pages| - 1)
              && (i < |pages| - 1 ==> |pages[i].rows| == limit)
    decreases |rows| - offset
  {
    var page, pages := PageAt(rows, offset, limit), Walk(rows, offset, limit);
    if page.hasMore {
      var rest := Walk(rows, offset + limit, limit);
      WalkShowsEachRowOnce(rows, offset + limit, limit);
      assert pages == [page] + rest && pages[1..] == rest;
      assert rows[offset..] == rows[offset..offset + limit] + rows[offset + limit..];
    } else {
      assert pages[1..] == [] && Joined(pages) == page.rows + [];
      assert page.rows == rows[offset..];
    }
  }
}
