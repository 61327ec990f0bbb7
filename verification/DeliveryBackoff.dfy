/**
 The exact condition under which the backoff spreads out the claims of an AI message: a lease at least as long as the
 last wait.  With a shorter lease a worker dies on the last attempt but one, and the takeover comes too early.
 */
module DeliveryBackoff {
  import opened Wrappers
  import opened DeliveryModel
  import opened DeliveryAttempts
  import opened DeliveryLeases

  ghost predicate ClaimedAi(run: Run, at: nat, id: nat, n: nat)
    requires ValidRun(run)
  {
    && at <= |run.events|
    && id < |run.states[at].db.jobs| && run.states[at].db.jobs[id].kind == Ai
    && n <= Claims(run, at, id)
  }

  ghost predicate SpreadOut(run: Run, at: nat, id: nat, n: nat)
    requires 1 <= n && at <= |run.events| <= |run.states|
  {
    var times := ClaimTimes(run, at, id);
    n <= |times| && 2 * (times[n - 1] - times[0]) >= 5 * n * (n - 1)
  }

  ghost predicate AlwaysSpreadOut(lease: nat, n: nat, timely: bool)
    requires 1 <= n
  {
    forall run: Run, at: nat, id: nat |
      ValidRun(run) && (timely ==> TimelyRun(run)) && run.states[0].lease == lease && ClaimedAi(run, at, id, n)
      :: SpreadOut(run, at, id, n)
  }

  // ------------------------------------------------------- growing a run

  function Last(run: Run): Sys
    requires run.states != []
  {
    run.states[|run.states| - 1]
  }

  ghost function AllClaimTimes(run: Run): seq<int>
    requires |run.states| == |run.events| + 1
  {
    ClaimTimes(run, |run.events|, 0)
  }

  ghost function AllTakeovers(run: Run): nat
    requires |run.states| == |run.events| + 1
  {
    Takeovers(run, |run.events|, 0)
  }

  // A run of one message; with a real lease all its writes are in time.
  ghost predicate Grown(run: Run, lease: nat) {
    && ValidRun(run) && run.states[0].lease == lease
    && (lease > 0 ==> TimelyRun(run))
    && |AllClaimTimes(run)| == Claims(run, |run.events|, 0)
  }

  lemma {:induction false} PrefixClaims(run: Run, longer: Run, n: nat)
    requires n <= |run.events| <= |longer.events| && |run.events| <= |run.states| <= |longer.states|
    requires |longer.events| <= |longer.states|
    requires longer.states[..|run.states|] == run.states && longer.events[..|run.events|] == run.events
    ensures ClaimTimes(longer, n, 0) == ClaimTimes(run, n, 0) && Claims(longer, n, 0) == Claims(run, n, 0)
    ensures Takeovers(longer, n, 0) == Takeovers(run, n, 0)
  {
    if n == 0 {
    } else {
      PrefixClaims(run, longer, n - 1);
      assert longer.states[..|run.states|][n - 1] == run.states[n - 1];
      assert longer.events[..|run.events|][n - 1] == run.events[n - 1];
    }
  }

  lemma Grow(run: Run, lease: nat, e: Event) returns (longer: Run)
    requires Grown(run, lease) && Enabled(Last(run), e) && (lease > 0 ==> Timely(Last(run), e))
    ensures Grown(longer, lease) && Last(longer) == Step(Last(run), e)
    ensures AllClaimTimes(longer) == AllClaimTimes(run) + (if e.Claim? && e.job == 0 then [Last(run).now] else [])
    ensures AllTakeovers(longer) == AllTakeovers(run) + One(TakesOver(Last(run), e, 0))
  {
    longer := Run(run.states + [Step(Last(run), e)], run.events + [e]);
    var n := |run.events|;
    forall i | 0 <= i <= n ensures Follows(longer, i) && (lease > 0 ==> Timely(longer.states[i], longer.events[i])) {
      if i < n {
        assert Follows(run, i);
      }
    }
    assert longer.states[..|run.states|] == run.states && longer.events[..n] == run.events;
    PrefixClaims(run, longer, n);
  }

  // ------------------------------------------------ attempts that all fail

  // The sum of the first k waits.
  function Waits(k: nat): nat {
    if k == 0 then 0 else Waits(k - 1) + BACKOFF_SECONDS * k
  }

  lemma {:induction false} WaitsAddUp(k: nat)
    ensures 2 * Waits(k) == BACKOFF_SECONDS * k * (k + 1)
  {
    if k == 0 {
    } else {
      WaitsAddUp(k - 1);
    }
  }

  function Alone(
    status: JobStatus, attempts: nat, most: nat, after: int, until: Option<int>, tasks: map<nat, Task>, now: int,
    lease: nat): Sys
  {
    Sys(Db([Job(Ai, status, attempts, most, after, until, 0)], [], []), tasks, now, lease)
  }

  function Requeued(k: nat, most: nat, lease: nat): Sys {
    Alone(Queued, k, most, Waits(k), None, map[], Waits(k), lease)
  }

  // Claimed for the k-th time and still worked on by worker 1.
  function Attempting(k: nat, most: nat, lease: nat, phase: Phase): Sys
    requires k > 0
  {
    var now := Waits(k - 1);
    Alone(Processing, k, most, now, Some(now + lease), map[1 := Task(ToJob(0), now + lease, phase)], now, lease)
  }

  lemma ClaimAgain(run: Run, k: nat, most: nat, lease: nat) returns (longer: Run)
    requires Grown(run, lease) && Last(run) == Requeued(k, most, lease)
    ensures Grown(longer, lease) && Last(longer) == Attempting(k + 1, most, lease, Trying)
    ensures AllClaimTimes(longer) == AllClaimTimes(run) + [Waits(k)] && AllTakeovers(longer) == AllTakeovers(run)
  {
    longer := Grow(run, lease, Claim(1, 0));
    assert Last(longer).db.jobs == Attempting(k + 1, most, lease, Trying).db.jobs;
  }

  lemma RaiseAndRead(run: Run, k: nat, most: nat, lease: nat) returns (longer: Run)
    requires 0 < k < most && Grown(run, lease) && Last(run) == Attempting(k, most, lease, Trying)
    ensures Grown(longer, lease) && Last(longer) == Attempting(k, most, lease, WillRequeue)
    ensures AllClaimTimes(longer) == AllClaimTimes(run) && AllTakeovers(longer) == AllTakeovers(run)
  {
    longer := Grow(run, lease, Raise(1));
    assert Last(longer).tasks == Attempting(k, most, lease, Raised).tasks;
    longer := Grow(longer, lease, ReadAttempts(1));
    assert Last(longer).tasks == Attempting(k, most, lease, WillRequeue).tasks;
  }

  lemma FailAgain(run: Run, k: nat, most: nat, lease: nat) returns (longer: Run)
    requires 0 < k < most && Grown(run, lease) && Last(run) == Attempting(k, most, lease, Trying)
    ensures Grown(longer, lease) && Last(longer) == Requeued(k, most, lease)
    ensures AllClaimTimes(longer) == AllClaimTimes(run) && AllTakeovers(longer) == AllTakeovers(run)
  {
    longer := RaiseAndRead(run, k, most, lease);
    longer := Grow(longer, lease, WriteFailure(1));
    assert Last(longer).tasks == map[] && Last(longer).db.jobs == Requeued(k, most, lease).db.jobs;
    longer := Grow(longer, lease, Tick(BACKOFF_SECONDS * k));
  }

  lemma {:induction false} FailedAttempts(k: nat, most: nat, lease: nat) returns (run: Run)
    requires k < most || k == 0
    ensures Grown(run, lease) && Last(run) == Requeued(k, most, lease)
    ensures |AllClaimTimes(run)| == k && (k > 0 ==> AllClaimTimes(run)[0] == 0) && AllTakeovers(run) == 0
  {
    if k == 0 {
      run := Run([Sys(Db([], [], []), map[], 0, lease)], []);
      run := Grow(run, lease, Enqueue(Ai, most));
    } else {
      run := FailedAttempts(k - 1, most, lease);
      run := ClaimAgain(run, k - 1, most, lease);
      run := FailAgain(run, k, most, lease);
    }
  }

  // One message, claimed just now by worker `last`, the latest of all.
  ghost predicate JustClaimed(s: Sys, attempts: nat, most: nat, lease: nat, last: nat) {
    && s.lease == lease && |s.db.jobs| == 1
    && (forall w | w in s.tasks :: w <= last)
    && var job := s.db.jobs[0];
    job.kind == Ai && job.status == Processing && job.attempts == attempts && job.maxAttempts == most
    && job.leaseUntil == Some(s.now + lease)
  }

  lemma TakeOver(run: Run, attempts: nat, most: nat, lease: nat, last: nat) returns (longer: Run)
    requires Grown(run, lease) && JustClaimed(Last(run), attempts, most, lease, last)
    ensures Grown(longer, lease) && JustClaimed(Last(longer), attempts + 1, most, lease, last + 1)
    ensures AllClaimTimes(longer) == AllClaimTimes(run) + [Last(run).now + lease]
    ensures AllTakeovers(longer) == AllTakeovers(run) + 1
  {
    longer := Grow(run, lease, Tick(lease));
    longer := Grow(longer, lease, Claim(last + 1, 0));
  }

  lemma {:induction false} ManyTakeovers(most: nat, takeovers: nat, lease: nat) returns (run: Run)
    ensures var cap := if most == 0 then 1 else most;
      Grown(run, lease) && JustClaimed(Last(run), cap + takeovers, most, lease, takeovers + 1)
    ensures AllTakeovers(run) == takeovers
  {
    if takeovers == 0 {
      var failures := if most == 0 then 0 else most - 1;
      run := FailedAttempts(failures, most, lease);
      run := ClaimAgain(run, failures, most, lease);
    } else {
      run := ManyTakeovers(most, takeovers - 1, lease);
      run := TakeOver(run, Last(run).db.jobs[0].attempts, most, lease, takeovers);
    }
  }

  /** For every lease, max_attempts and number of takeovers there is a run in which attempts reach their bound. */
  lemma AttemptsBoundIsReached(most: nat, takeovers: nat, lease: nat) returns (run: Run)
    ensures Grown(run, lease) && |Last(run).db.jobs| == 1 && Last(run).db.jobs[0].maxAttempts == most
    ensures Takeovers(run, |run.events|, 0) == takeovers
    ensures Last(run).db.jobs[0].attempts == Cap(Last(run).db.jobs[0]) + takeovers
  {
    run := ManyTakeovers(most, takeovers, lease);
  }

  lemma TooEarly(n: nat, lease: nat)
    requires n > 1 && lease < BACKOFF_SECONDS * (n - 1)
    ensures 2 * (Waits(n - 2) + lease) < BACKOFF_SECONDS * n * (n - 1)
  {
    WaitsAddUp(n - 2);
    assert BACKOFF_SECONDS * n * (n - 1) == BACKOFF_SECONDS * (n - 2) * (n - 1) + 2 * (BACKOFF_SECONDS * (n - 1));
  }

  /** A lease shorter than the last wait: the last claim takes over from a worker that died, ahead of the backoff. */
  lemma EarlyTakeover(n: nat, lease: nat) returns (run: Run)
    requires n > 1 && lease < 5 * (n - 1)
    ensures Grown(run, lease) && ClaimedAi(run, |run.events|, 0, n) && !SpreadOut(run, |run.events|, 0, n)
  {
    run := FailedAttempts(n - 2, n, lease);
    run := ClaimAgain(run, n - 2, n, lease);
    assert AllClaimTimes(run)[0] == 0;
    run := TakeOver(run, n - 1, n, lease, 1);
    var times := AllClaimTimes(run);
    assert |times| == n && times[0] == 0 && times[n - 1] == Waits(n - 2) + lease;
    TooEarly(n, lease);
  }

  /**
   The n-th claim of every AI message, in every run, comes at least 5*n*(n-1)/2 seconds after its first if and only if
   the lease is no shorter than the wait before it.  With a positive lease the same holds of the timely runs alone.
   */
  lemma AlwaysSpreadOutIff(lease: nat, n: nat)
    requires n >= 1
    ensures AlwaysSpreadOut(lease, n, false) <==> 5 * (n - 1) <= lease
    ensures lease > 0 ==> (AlwaysSpreadOut(lease, n, true) <==> 5 * (n - 1) <= lease)
  {
    if BACKOFF_SECONDS * (n - 1) <= lease {
      forall run: Run, at: nat, id: nat | ValidRun(run) && run.states[0].lease == lease && ClaimedAi(run, at, id, n)
        ensures SpreadOut(run, at, id, n)
      {
        ClaimsSpreadOut(run, at, id, n);
      }
    } else {
      var run := EarlyTakeover(n, lease);
    }
  }
}
