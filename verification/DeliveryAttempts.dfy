/**
 Claims of one queue row, over every run: any number of workers, crashes, marks made after the lease has gone,
 and mark_failed split into its SELECT and its UPDATE.
 */
module DeliveryAttempts {
  import opened Wrappers
  import opened DeliveryModel

  // A worker that holds the row and has not yet read its attempts, live lease or not.
  ghost predicate Holds(s: Sys, w: nat, id: nat) {
    OnJob(s, w, id) && (s.tasks[w].phase == Trying || s.tasks[w].phase == Marked || s.tasks[w].phase == Raised)
  }

  // A worker that has read attempts < max_attempts and is about to write 'queued'.
  ghost predicate WillWriteQueued(s: Sys, w: nat, id: nat) {
    OnJob(s, w, id) && s.tasks[w].phase == WillRequeue
  }

  ghost function Holders(s: Sys, id: nat): set<nat> {
    set w | w in s.tasks.Keys && Holds(s, w, id)
  }

  ghost function Requeuers(s: Sys, id: nat): set<nat> {
    set w | w in s.tasks.Keys && WillWriteQueued(s, w, id)
  }

  function Waiting(job: Job): nat {
    if job.status == Queued then 1 else 0
  }

  function Cap(job: Job): nat {
    if job.maxAttempts == 0 then 1 else job.maxAttempts
  }

  /**
   Every takeover adds one surplus holder, nothing else does; so the row's holders, pending requeues and its own
   queued state never number more than one plus the takeovers, and the claims still to come without a further
   read of `attempts` are paid for.
   */
  ghost predicate Accounted(s: Sys, id: nat, claims: nat, takeovers: nat) {
    if id < |s.db.jobs| then
      var job := s.db.jobs[id];
      && job.attempts == claims
      && |Holders(s, id)| + |Requeuers(s, id)| + Waiting(job) <= 1 + takeovers
      && job.attempts + |Requeuers(s, id)| + Waiting(job) <= Cap(job) + takeovers
    else
      claims == 0 && takeovers == 0 && Holders(s, id) == {} && Requeuers(s, id) == {}
  }

  ghost function One(b: bool): nat {
    if b then 1 else 0
  }

  lemma OneMemberMoves(a: set<nat>, b: set<nat>, w: nat)
    requires forall v | v != w :: v in a <==> v in b
    ensures |b| + One(w in a) == |a| + One(w in b)
  {
    assert a - {w} == b - {w};
    assert w in a ==> |a - {w}| == |a| - 1;
    assert w !in a ==> a - {w} == a;
    assert w in b ==> |b - {w}| == |b| - 1;
    assert w !in b ==> b - {w} == b;
  }

  ghost predicate SameButFor(s: Sys, t: Sys, w: nat) {
    forall v | v != w :: (v in s.tasks <==> v in t.tasks) && (v in s.tasks ==> s.tasks[v] == t.tasks[v])
  }

  lemma StepTouchesOneTask(s: Sys, e: Event, w: nat)
    requires Enabled(s, e)
    requires if e.Tick? || e.Enqueue? || e.StartCampaign? then true else e.worker == w
    ensures SameButFor(s, Step(s, e), w)
  {
  }

  lemma TaskMoves(s: Sys, t: Sys, w: nat, id: nat)
    requires SameButFor(s, t, w)
    ensures |Holders(t, id)| + One(Holds(s, w, id)) == |Holders(s, id)| + One(Holds(t, w, id))
    ensures |Requeuers(t, id)| + One(WillWriteQueued(s, w, id)) == |Requeuers(s, id)| + One(WillWriteQueued(t, w, id))
  {
    OneMemberMoves(Holders(s, id), Holders(t, id), w);
    OneMemberMoves(Requeuers(s, id), Requeuers(t, id), w);
  }

  lemma StepKeepsAccounts(s: Sys, e: Event, id: nat, claims: nat, takeovers: nat)
    requires Enabled(s, e) && Accounted(s, id, claims, takeovers)
    ensures Accounted(Step(s, e), id,
      claims + One(e.Claim? && e.job == id),
      takeovers + One(TakesOver(s, e, id)))
  {
    StepUpdatesJobs(s, e);
    var w := if e.Tick? || e.Enqueue? || e.StartCampaign? then 0 else e.worker;
    StepTouchesOneTask(s, e, w);
    var t := Step(s, e);
    TaskMoves(s, t, w, id);
    assert id < |s.db.jobs| ==> JobUpdate(s, e, id, t.db.jobs[id]);
  }

  lemma {:induction false} RunKeepsAccounts(run: Run, n: nat, id: nat)
    requires ValidRun(run) && n <= |run.events|
    ensures Accounted(run.states[n], id, Claims(run, n, id), Takeovers(run, n, id))
  {
    if n == 0 {
    } else {
      RunKeepsAccounts(run, n - 1, id);
      assert Follows(run, n - 1);
      StepKeepsAccounts(run.states[n - 1], run.events[n - 1], id, Claims(run, n - 1, id), Takeovers(run, n - 1, id));
    }
  }

  /** In every run, attempts counts the row's claims and exceeds max_attempts by at most the takeovers. */
  lemma AttemptsBound(run: Run, n: nat, id: nat)
    requires ValidRun(run) && n <= |run.events| && id < |run.states[n].db.jobs|
    ensures run.states[n].db.jobs[id].attempts == Claims(run, n, id)
    ensures Claims(run, n, id) <= Cap(run.states[n].db.jobs[id]) + Takeovers(run, n, id)
  {
    RunKeepsAccounts(run, n, id);
  }

  // ---------------------------------------------------------------- backoff

  // The instants at which the row was claimed, in order.
  ghost function ClaimTimes(run: Run, n: nat, id: nat): seq<int>
    requires n <= |run.events| <= |run.states|
  {
    if n == 0 then [] else
    var e := run.events[n - 1];
    ClaimTimes(run, n - 1, id) + (if e.Claim? && e.job == id then [run.states[n - 1].now] else [])
  }

  // The wait forced before the claim that follows the k-th one.
  function Gap(k: nat, lease: nat, takeovers: nat): nat {
    if takeovers == 0 || BACKOFF_SECONDS * k <= lease then BACKOFF_SECONDS * k else lease
  }

  ghost predicate Spaced(times: seq<int>, lease: nat, takeovers: nat) {
    forall k | 1 <= k < |times| :: times[k] - times[k - 1] >= Gap(k, lease, takeovers)
  }

  ghost predicate BackedOff(s: Sys, id: nat, times: seq<int>, takeovers: nat) {
    if id < |s.db.jobs| then
      var job := s.db.jobs[id];
      job.kind == Ai ==>
        && Spaced(times, s.lease, takeovers)
        && |times| == job.attempts
        && (times != [] ==> times[|times| - 1] <= s.now)
        && (times != [] && job.status == Queued ==>
              job.processAfter >= times[|times| - 1] + BACKOFF_SECONDS * job.attempts)
        && (job.status == Processing ==> times != [] && job.leaseUntil == Some(times[|times| - 1] + s.lease))
    else
      times == [] && takeovers == 0
  }

  lemma StepKeepsBackoff(s: Sys, e: Event, id: nat, times: seq<int>, takeovers: nat)
    requires Enabled(s, e) && BackedOff(s, id, times, takeovers)
    ensures BackedOff(Step(s, e), id,
      times + (if e.Claim? && e.job == id then [s.now] else []), takeovers + One(TakesOver(s, e, id)))
  {
    StepUpdatesJobs(s, e);
    var t := Step(s, e);
    assert t.lease == s.lease && s.now <= t.now;
    assert id < |t.db.jobs| ==> JobUpdate(s, e, id, t.db.jobs[id]);
  }

  lemma {:induction false} RunBacksOff(run: Run, n: nat, id: nat)
    requires ValidRun(run) && n <= |run.events|
    ensures BackedOff(run.states[n], id, ClaimTimes(run, n, id), Takeovers(run, n, id))
    ensures run.states[n].lease == run.states[0].lease
  {
    if n == 0 {
    } else {
      RunBacksOff(run, n - 1, id);
      assert Follows(run, n - 1);
      StepKeepsBackoff(run.states[n - 1], run.events[n - 1], id, ClaimTimes(run, n - 1, id), Takeovers(run, n - 1, id));
    }
  }

  lemma {:induction false} GapsAddUp(times: seq<int>, k: nat, lease: nat, takeovers: nat)
    requires Spaced(times, lease, takeovers) && 1 <= k <= |times|
    requires takeovers == 0 || BACKOFF_SECONDS * (k - 1) <= lease
    ensures 2 * (times[k - 1] - times[0]) >= BACKOFF_SECONDS * k * (k - 1)
  {
    if k > 1 {
      GapsAddUp(times, k - 1, lease, takeovers);
      assert Gap(k - 1, lease, takeovers) == BACKOFF_SECONDS * (k - 1);
    }
  }

  /**
   The n-th claim of an AI message comes at least 5*n*(n-1)/2 seconds after its first: in every run in which the
   row was not taken over, and in every run at all as long as 5*(n-1) is no longer than a lease.
   */
  lemma ClaimsSpreadOut(run: Run, at: nat, id: nat, n: nat)
    requires ValidRun(run) && at <= |run.events|
    requires id < |run.states[at].db.jobs| && run.states[at].db.jobs[id].kind == Ai
    requires 1 <= n <= Claims(run, at, id)
    requires Takeovers(run, at, id) == 0 || 5 * (n - 1) <= run.states[0].lease
    ensures n <= |ClaimTimes(run, at, id)|
    ensures 2 * (ClaimTimes(run, at, id)[n - 1] - ClaimTimes(run, at, id)[0]) >= 5 * n * (n - 1)
  {
    RunKeepsAccounts(run, at, id);
    RunBacksOff(run, at, id);
    GapsAddUp(ClaimTimes(run, at, id), n, run.states[at].lease, Takeovers(run, at, id));
  }
}
