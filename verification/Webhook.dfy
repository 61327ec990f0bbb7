/**
 Inbound webhooks: each delivery passes the monthly quota check and is then upserted into the AI message queue in a
 transaction of its own, so other deliveries can come in between.
 */
module Webhook {
  import opened Wrappers

  // ------------------------------------------------------------------ plans

  const STARTER_LIMIT: nat := 10000
  const PRO_LIMIT: nat := 100000

  function LowerChar(c: char): char {
    if 'A' <= c <= 'Z' then ((c as int) + 32) as char else c
  }

  function Lower(s: string): string {
    if s == "" then "" else [LowerChar(s[0])] + Lower(s[1..])
  }

  // None is unlimited; a missing, empty or unknown plan counts as starter.
  function PlanLimit(plan: Option<string>): Option<nat> {
    var name := if plan.Some? && plan.value != "" then Lower(plan.value) else "starter";
    if name == "pro" then Some(PRO_LIMIT)
    else if name == "enterprise" || name == "internal" then None
    else Some(STARTER_LIMIT)
  }

  /** The plans: starter 10000 a month, pro 100000, enterprise and internal without limit; any other is starter. */
  lemma PlanLimits(plan: Option<string>)
    ensures PlanLimit(None) == PlanLimit(Some("")) == Some(10_000)
    ensures PlanLimit(Some("PRO")) == Some(100_000)
    ensures plan.Some? && plan.value != "" ==>
      var name := Lower(plan.value);
      && (PlanLimit(plan) == Some(100_000) <==> name == "pro")
      && (PlanLimit(plan) == None <==> name == "enterprise" || name == "internal")
      && (PlanLimit(plan) == Some(10_000) <==> name != "pro" && name != "enterprise" && name != "internal")
  {
    assert Lower("PRO") == "pro" by {
      assert "PRO"[1..] == "RO" && "RO"[1..] == "O" && "O"[1..] == "";
    }
  }

  // ------------------------------------------------------------------ queue

  datatype Delivery = Delivery(tenant: nat, messageId: Option<string>)

  datatype Row = Row(tenant: nat, messageId: Option<string>, month: nat)

  predicate Conflicts(row: Row, d: Delivery) {
    row.tenant == d.tenant && d.messageId.Some? && row.messageId == d.messageId
  }

  // INSERT ... ON CONFLICT (tenant_id, message_id): null ids never conflict.
  function Enqueue(rows: seq<Row>, d: Delivery, month: nat): seq<Row> {
    if exists i :: 0 <= i < |rows| && Conflicts(rows[i], d) then rows
    else rows + [Row(d.tenant, d.messageId, month)]
  }

  function InMonth(rows: seq<Row>, tenant: nat, month: nat): nat {
    if rows == [] then 0 else
    InMonth(rows[..|rows| - 1], tenant, month)
    + (if rows[|rows| - 1].tenant == tenant && rows[|rows| - 1].month == month then 1 else 0)
  }

  /** InMonth counts the tenant's own rows of that month. */
  lemma {:induction false} InMonthCounts(rows: seq<Row>, tenant: nat, month: nat)
    ensures InMonth(rows, tenant, month)
      == |set i | 0 <= i < |rows| && rows[i].tenant == tenant && rows[i].month == month|
  {
    var all := set i | 0 <= i < |rows| && rows[i].tenant == tenant && rows[i].month == month;
    if rows == [] {
      assert all == {};
    } else {
      var n := |rows| - 1;
      InMonthCounts(rows[..n], tenant, month);
      var some := set i | 0 <= i < n && rows[..n][i].tenant == tenant && rows[..n][i].month == month;
      assert all == some + (if rows[n].tenant == tenant && rows[n].month == month then {n} else {});
    }
  }

  predicate PassesQuota(rows: seq<Row>, tenant: nat, month: nat, limit: Option<nat>) {
    limit.None? || InMonth(rows, tenant, month) < limit.value
  }

  // ----------------------------------------------------------- interleaving

  // Deliveries between their quota check and their insert; `accepted` lists those inserted so far.
  datatype Sys = Sys(
    rows: seq<Row>,
    inFlight: map<nat, Delivery>,
    accepted: seq<Delivery>,
    month: nat,
    limits: map<nat, Option<nat>>)

  datatype Event =
    | NextMonth
    | Check(request: nat, delivery: Delivery)
    | Insert(request: nat)
    | Abandon(request: nat)

  predicate Enabled(s: Sys, e: Event) {
    match e
    case NextMonth => true
    case Check(q, d) =>
      q !in s.inFlight && d.tenant in s.limits && PassesQuota(s.rows, d.tenant, s.month, s.limits[d.tenant])
    case Insert(q) => q in s.inFlight
    case Abandon(q) => q in s.inFlight
  }

  function Step(s: Sys, e: Event): Sys
    requires Enabled(s, e)
  {
    match e
    case NextMonth => s.(month := s.month + 1)
    case Check(q, d) => s.(inFlight := s.inFlight[q := d])
    case Insert(q) =>
      s.(rows := Enqueue(s.rows, s.inFlight[q], s.month), inFlight := s.inFlight - {q},
         accepted := s.accepted + [s.inFlight[q]])
    case Abandon(q) => s.(inFlight := s.inFlight - {q})
  }

  datatype Run = Run(states: seq<Sys>, events: seq<Event>)

  ghost predicate Follows(run: Run, i: nat)
    requires i < |run.events| < |run.states|
  {
    Enabled(run.states[i], run.events[i]) && run.states[i + 1] == Step(run.states[i], run.events[i])
  }

  ghost predicate ValidRun(run: Run) {
    && |run.states| == |run.events| + 1
    && run.states[0].rows == [] && run.states[0].inFlight == map[] && run.states[0].accepted == []
    && forall i | 0 <= i < |run.events| :: Follows(run, i)
  }

  // ------------------------------------------------------------ idempotence

  function RowsFor(rows: seq<Row>, d: Delivery): nat {
    if rows == [] then 0 else
    RowsFor(rows[..|rows| - 1], d)
    + (if rows[|rows| - 1].tenant == d.tenant && rows[|rows| - 1].messageId == d.messageId then 1 else 0)
  }

  function Times(accepted: seq<Delivery>, d: Delivery): nat {
    if accepted == [] then 0 else
    Times(accepted[..|accepted| - 1], d) + (if accepted[|accepted| - 1] == d then 1 else 0)
  }

  lemma {:induction false} RowsForIsPresence(rows: seq<Row>, d: Delivery)
    ensures RowsFor(rows, d) > 0 <==>
      exists i :: 0 <= i < |rows| && rows[i].tenant == d.tenant && rows[i].messageId == d.messageId
  {
    if rows == [] {
    } else {
      var n := |rows| - 1;
      RowsForIsPresence(rows[..n], d);
      if i :| 0 <= i < n && rows[..n][i].tenant == d.tenant && rows[..n][i].messageId == d.messageId {
        assert rows[i].messageId == d.messageId;
      }
      if i :| 0 <= i < |rows| && rows[i].tenant == d.tenant && rows[i].messageId == d.messageId {
        assert i < n ==> rows[..n][i].messageId == d.messageId;
      }
    }
  }

  lemma EnqueueCounts(rows: seq<Row>, x: Delivery, month: nat, d: Delivery)
    ensures RowsFor(Enqueue(rows, x, month), d)
      == RowsFor(rows, d) + (if x == d && (d.messageId.None? || RowsFor(rows, d) == 0) then 1 else 0)
  {
    RowsForIsPresence(rows, x);
    assert (rows + [Row(x.tenant, x.messageId, month)])[..|rows|] == rows;
    if i :| 0 <= i < |rows| && rows[i].tenant == x.tenant && rows[i].messageId == x.messageId {
      assert x.messageId.Some? ==> Conflicts(rows[i], x);
    }
  }

  /**
   After any interleaving the queue holds one row per accepted (tenant, message id), however often it was delivered,
   and one row per accepted delivery without an id.
   */
  lemma {:induction false} OneRowPerMessage(run: Run, n: nat, d: Delivery)
    requires ValidRun(run) && n <= |run.events|
    ensures var times := Times(run.states[n].accepted, d);
      RowsFor(run.states[n].rows, d) == if d.messageId.None? || times == 0 then times else 1
  {
    if n == 0 {
    } else {
      OneRowPerMessage(run, n - 1, d);
      assert Follows(run, n - 1);
      var s, e := run.states[n - 1], run.events[n - 1];
      if e.Insert? {
        EnqueueCounts(s.rows, s.inFlight[e.request], s.month, d);
        assert (s.accepted + [s.inFlight[e.request]])[..|s.accepted|] == s.accepted;
      }
    }
  }

  // ------------------------------------------------------------------- quota

  ghost function Waiting(s: Sys, tenant: nat): set<nat> {
    set q | q in s.inFlight && s.inFlight[q].tenant == tenant
  }

  ghost predicate NoFutureRows(s: Sys) {
    forall i | 0 <= i < |s.rows| :: s.rows[i].month <= s.month
  }

  lemma {:induction false} EmptyFutureMonth(rows: seq<Row>, tenant: nat, month: nat)
    requires forall i | 0 <= i < |rows| :: rows[i].month < month
    ensures InMonth(rows, tenant, month) == 0
  {
    if rows == [] {
    } else {
      EmptyFutureMonth(rows[..|rows| - 1], tenant, month);
    }
  }

  lemma EnqueueInMonth(rows: seq<Row>, d: Delivery, now: int, tenant: nat, month: nat)
    requires now >= 0
    ensures InMonth(rows, tenant, month) <= InMonth(Enqueue(rows, d, now), tenant, month)
            <= InMonth(rows, tenant, month) + (if d.tenant == tenant && now == month then 1 else 0)
  {
    assert (rows + [Row(d.tenant, d.messageId, now)])[..|rows|] == rows;
  }

  lemma OneMore(q: nat, d: Delivery, s: Sys, tenant: nat)
    requires q !in s.inFlight
    ensures var t := s.(inFlight := s.inFlight[q := d]);
      |Waiting(t, tenant)| == |Waiting(s, tenant)| + (if d.tenant == tenant then 1 else 0)
  {
    var t := s.(inFlight := s.inFlight[q := d]);
    assert Waiting(t, tenant) == if d.tenant == tenant then Waiting(s, tenant) + {q} else Waiting(s, tenant);
  }

  lemma OneLess(q: nat, s: Sys, t: Sys, tenant: nat)
    requires q in s.inFlight && t.inFlight == s.inFlight - {q}
    ensures |Waiting(t, tenant)| == |Waiting(s, tenant)| - (if s.inFlight[q].tenant == tenant then 1 else 0)
  {
    assert Waiting(t, tenant) == Waiting(s, tenant) - {q};
  }

  lemma WaitingAfter(s: Sys, e: Event, tenant: nat)
    requires Enabled(s, e)
    ensures e.NextMonth? ==> Waiting(Step(s, e), tenant) == Waiting(s, tenant)
    ensures e.Check? ==>
      |Waiting(Step(s, e), tenant)| == |Waiting(s, tenant)| + (if e.delivery.tenant == tenant then 1 else 0)
    ensures e.Insert? || e.Abandon? ==>
      |Waiting(Step(s, e), tenant)| == |Waiting(s, tenant)| - (if s.inFlight[e.request].tenant == tenant then 1 else 0)
  {
    match e
    case NextMonth => assert Waiting(Step(s, e), tenant) == Waiting(s, tenant);
    case Check(q, d) => OneMore(q, d, s, tenant);
    case Insert(q) => OneLess(q, s, Step(s, e), tenant);
    case Abandon(q) => OneLess(q, s, Step(s, e), tenant);
  }

  // Rows of this month and deliveries already let through are within the limit plus the room for racing checks.
  ghost predicate WithinQuota(s: Sys, tenant: nat, limit: nat, k: nat) {
    && NoFutureRows(s)
    && tenant in s.limits && s.limits[tenant] == Some(limit)
    && InMonth(s.rows, tenant, s.month) + |Waiting(s, tenant)| <= limit - 1 + k
    && forall month: nat | month < s.month :: InMonth(s.rows, tenant, month) <= limit - 1 + k
  }

  lemma StepKeepsQuota(s: Sys, e: Event, tenant: nat, limit: nat, k: nat)
    requires Enabled(s, e) && limit >= 1 && WithinQuota(s, tenant, limit, k) && |Waiting(Step(s, e), tenant)| <= k
    ensures WithinQuota(Step(s, e), tenant, limit, k)
  {
    WaitingAfter(s, e, tenant);
    if e.NextMonth? {
      EmptyFutureMonth(s.rows, tenant, s.month + 1);
    }
    if e.Insert? {
      EnqueueInMonth(s.rows, s.inFlight[e.request], s.month, tenant, s.month);
      forall month: nat | month < s.month ensures InMonth(Step(s, e).rows, tenant, month) <= limit - 1 + k {
        EnqueueInMonth(s.rows, s.inFlight[e.request], s.month, tenant, month);
      }
    }
  }

  lemma {:induction false} RunKeepsQuota(run: Run, n: nat, tenant: nat, limit: nat, k: nat)
    requires ValidRun(run) && n <= |run.events| && limit >= 1
    requires tenant in run.states[0].limits && run.states[0].limits[tenant] == Some(limit)
    requires forall i | 0 <= i <= n :: |Waiting(run.states[i], tenant)| <= k
    ensures WithinQuota(run.states[n], tenant, limit, k)
  {
    if n == 0 {
      assert |Waiting(run.states[0], tenant)| <= k;
      forall month: nat ensures InMonth(run.states[0].rows, tenant, month) == 0 {
      }
    } else {
      RunKeepsQuota(run, n - 1, tenant, limit, k);
      assert Follows(run, n - 1);
      assert |Waiting(run.states[n], tenant)| <= k;
      StepKeepsQuota(run.states[n - 1], run.events[n - 1], tenant, limit, k);
    }
  }

  /** With at most k webhooks of a tenant between check and insert, no month gets more than limit + k - 1 rows. */
  lemma MonthlyRowsBounded(run: Run, n: nat, tenant: nat, limit: nat, k: nat, month: nat)
    requires ValidRun(run) && n <= |run.events| && limit >= 1
    requires tenant in run.states[0].limits && run.states[0].limits[tenant] == Some(limit)
    requires forall i | 0 <= i <= n :: |Waiting(run.states[i], tenant)| <= k
    ensures InMonth(run.states[n].rows, tenant, month) <= limit + k - 1
  {
    RunKeepsQuota(run, n, tenant, limit, k);
    if month > run.states[n].month {
      EmptyFutureMonth(run.states[n].rows, tenant, month);
    }
  }

  // ------------------------------------------------- a race that gets there

  function Last(run: Run): Sys
    requires run.states != []
  {
    run.states[|run.states| - 1]
  }

  // A run so far: `rows` of the tenant this month, requests 1..waiting checked and not inserted, never more than k.
  ghost predicate Racing(run: Run, tenant: nat, limit: nat, k: nat, rows: nat, waiting: nat) {
    && ValidRun(run)
    && (forall i | 0 <= i < |run.states| :: |Waiting(run.states[i], tenant)| <= k)
    && tenant in run.states[0].limits && run.states[0].limits == Last(run).limits
    && run.states[0].limits[tenant] == Some(limit)
    && InMonth(Last(run).rows, tenant, Last(run).month) == rows
    && |Waiting(Last(run), tenant)| == waiting <= k
    && (forall q :: q in Last(run).inFlight <==> 1 <= q <= waiting)
    && forall q | q in Last(run).inFlight :: Last(run).inFlight[q] == Delivery(tenant, None)
  }

  lemma Extend(run: Run, e: Event) returns (longer: Run)
    requires ValidRun(run) && Enabled(Last(run), e)
    ensures longer == Run(run.states + [Step(Last(run), e)], run.events + [e]) && ValidRun(longer)
  {
    longer := Run(run.states + [Step(Last(run), e)], run.events + [e]);
    forall i | 0 <= i < |longer.events| ensures Follows(longer, i) {
      if i < |run.events| {
        assert Follows(run, i);
      }
    }
  }

  lemma CheckOne(run: Run, tenant: nat, limit: nat, k: nat, rows: nat, waiting: nat) returns (longer: Run)
    requires Racing(run, tenant, limit, k, rows, waiting) && rows < limit && waiting < k
    ensures Racing(longer, tenant, limit, k, rows, waiting + 1)
  {
    var e := Check(waiting + 1, Delivery(tenant, None));
    WaitingAfter(Last(run), e, tenant);
    longer := Extend(run, e);
  }

  lemma InsertOne(run: Run, tenant: nat, limit: nat, k: nat, rows: nat, waiting: nat) returns (longer: Run)
    requires Racing(run, tenant, limit, k, rows, waiting) && waiting > 0
    ensures Racing(longer, tenant, limit, k, rows + 1, waiting - 1)
  {
    var s, e := Last(run), Insert(waiting);
    WaitingAfter(s, e, tenant);
    assert (s.rows + [Row(tenant, None, s.month)])[..|s.rows|] == s.rows;
    longer := Extend(run, e);
  }

  // Deliveries one after the other, none let through while another waits.
  lemma {:induction false} Unraced(tenant: nat, limit: nat, k: nat, rows: nat) returns (run: Run)
    requires rows <= limit && k >= 1
    ensures Racing(run, tenant, limit, k, rows, 0)
  {
    if rows == 0 {
      var s := Sys([], map[], [], 0, map[tenant := Some(limit)]);
      assert Waiting(s, tenant) == {};
      run := Run([s], []);
    } else {
      run := Unraced(tenant, limit, k, rows - 1);
      run := CheckOne(run, tenant, limit, k, rows - 1, 0);
      run := InsertOne(run, tenant, limit, k, rows - 1, 1);
    }
  }

  lemma {:induction false} AllChecked(tenant: nat, limit: nat, k: nat, waiting: nat) returns (run: Run)
    requires limit >= 1 && k >= 1 && waiting <= k
    ensures Racing(run, tenant, limit, k, limit - 1, waiting)
    decreases waiting
  {
    if waiting == 0 {
      run := Unraced(tenant, limit, k, limit - 1);
    } else {
      run := AllChecked(tenant, limit, k, waiting - 1);
      run := CheckOne(run, tenant, limit, k, limit - 1, waiting - 1);
    }
  }

  lemma {:induction false} AllInserted(tenant: nat, limit: nat, k: nat, inserted: nat) returns (run: Run)
    requires limit >= 1 && k >= 1 && inserted <= k
    ensures Racing(run, tenant, limit, k, limit - 1 + inserted, k - inserted)
    decreases inserted
  {
    if inserted == 0 {
      run := AllChecked(tenant, limit, k, k);
    } else {
      run := AllInserted(tenant, limit, k, inserted - 1);
      run := InsertOne(run, tenant, limit, k, limit - 1 + inserted - 1, k - (inserted - 1));
    }
  }

  /** The bound is reached for every limit and k: k webhooks pass the check before the last allowed row is there. */
  lemma RaceReachesBound(tenant: nat, limit: nat, k: nat) returns (run: Run)
    requires limit >= 1 && k >= 1
    ensures ValidRun(run) && tenant in run.states[0].limits && run.states[0].limits[tenant] == Some(limit)
    ensures forall i | 0 <= i < |run.states| :: |Waiting(run.states[i], tenant)| <= k
    ensures InMonth(Last(run).rows, tenant, Last(run).month) == limit + k - 1
  {
    run := AllInserted(tenant, limit, k, k);
  }

  /** Every finite plan allows at least one message. */
  lemma FiniteLimitsArePositive(plan: Option<string>)
    ensures PlanLimit(plan).Some? ==> PlanLimit(plan).value >= 1
  {
  }

  // ------------------------------------------------------------ the webhook

  datatype Tenant = Tenant(active: bool, plan: Option<string>)

  datatype WebhookError = TenantNotActive | QuotaExceeded

  class MessageQueue {
    var rows: seq<Row>

    constructor ()
      ensures rows == []
    {
      rows := [];
    }

    method CountThisMonth(tenant: nat, month: nat) returns (count: nat)
      ensures count == InMonth(rows, tenant, month)
    {
      count := 0;
      for i := 0 to |rows|
        invariant count == InMonth(rows[..i], tenant, month)
      {
        assert rows[..i + 1][..i] == rows[..i];
        if rows[i].tenant == tenant && rows[i].month == month {
          count := count + 1;
        }
      }
      assert rows[..|rows|] == rows;
    }

    method EnforceTenantBilling(tenant: Option<Tenant>, id: nat, month: nat) returns (r: Result<(), WebhookError>)
      ensures tenant.None? || !tenant.value.active ==> r == Err(TenantNotActive)
      ensures r.Ok? <==>
        && tenant.Some? && tenant.value.active
        && (PlanLimit(tenant.value.plan).Some? ==> InMonth(rows, id, month) < PlanLimit(tenant.value.plan).value)
      ensures tenant.Some? && tenant.value.active ==>
        r == if PassesQuota(rows, id, month, PlanLimit(tenant.value.plan)) then Ok(()) else Err(QuotaExceeded)
    {
      if tenant.None? || !tenant.value.active {
        return Err(TenantNotActive);
      }
      var limit := PlanLimit(tenant.value.plan);
      if limit.None? {
        return Ok(());
      }
      var current := CountThisMonth(id, month);
      r := if current >= limit.value then Err(QuotaExceeded) else Ok(());
    }

    method EnqueueMessage(d: Delivery, month: nat)
      modifies this
      ensures rows == Enqueue(old(rows), d, month)
      ensures rows == old(rows) <==>
        d.messageId.Some? && exists i ::
          0 <= i < |old(rows)| && old(rows)[i].tenant == d.tenant && old(rows)[i].messageId == d.messageId
      ensures rows != old(rows) ==> rows == old(rows) + [Row(d.tenant, d.messageId, month)]
    {
      for i := 0 to |rows|
        invariant rows == old(rows)
        invariant forall k | 0 <= k < i :: !Conflicts(rows[k], d)
      {
        if Conflicts(rows[i], d) {
          return;
        }
      }
      rows := rows + [Row(d.tenant, d.messageId, month)];
    }

    method Receive(tenant: Option<Tenant>, d: Delivery, month: nat) returns (r: Result<(), WebhookError>)
      modifies this
      ensures r.Ok? <==>
        tenant.Some? && tenant.value.active && PassesQuota(old(rows), d.tenant, month, PlanLimit(tenant.value.plan))
      ensures rows == if r.Ok? then Enqueue(old(rows), d, month) else old(rows)
    {
      r := EnforceTenantBilling(tenant, d.tenant, month);
      if r.Ok? {
        EnqueueMessage(d, month);
      }
    }
  }
}
