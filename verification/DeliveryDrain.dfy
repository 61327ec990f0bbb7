/** A measure that every claim of a timely run uses up, so that a closed system of prompt workers drains. */
module DeliveryDrain {
  import opened Wrappers
  import opened Sums
  import opened DeliveryModel
  import opened DeliveryAttempts
  import opened DeliveryLeases
  import opened DeliveryExclusion

  // Attempts a job still has; a settled job has none.
  function Remaining(job: Job): nat {
    if Terminal(job.status) || Cap(job) <= job.attempts then 0 else Cap(job) - job.attempts
  }

  function Unsent(r: Recipient): nat {
    if r.status == ToSend && r.manualMessage.None? then 1 else 0
  }

  // Attempts left on the messages and e-mails still to be sent.
  function Measure(s: Sys): nat {
    Sum(Remaining, s.db.jobs) + Sum(Unsent, s.db.recipients)
  }

  ghost predicate ClaimsSomething(e: Event) {
    e.Claim? || e.ClaimEmail?
  }

  ghost predicate TakesOverSomething(s: Sys, e: Event) {
    || (e.Claim? && e.job < |s.db.jobs| && s.db.jobs[e.job].status == Processing)
    || (e.ClaimEmail? && e.recipient < |s.db.recipients| && s.db.recipients[e.recipient].status == Sending)
  }

  // A queued row always has an attempt left, and so has a row about to be requeued within the lease.
  ghost predicate Budgeted(s: Sys, id: nat) {
    id < |s.db.jobs| ==>
      && (s.db.jobs[id].status == Queued ==> s.db.jobs[id].attempts < Cap(s.db.jobs[id]))
      && forall w | LiveOn(s, w, id) && s.tasks[w].phase == WillRequeue ::
        s.db.jobs[id].attempts < s.db.jobs[id].maxAttempts
  }

  lemma StepKeepsBudget(s: Sys, e: Event, id: nat)
    requires Enabled(s, e) && Timely(s, e) && Exclusive(s, id) && Budgeted(s, id)
    ensures Budgeted(Step(s, e), id)
  {
    StepKeepsExclusive(s, e, id);
    StepUpdatesJobs(s, e);
    var t := Step(s, e);
    var w := if e.Tick? || e.Enqueue? || e.StartCampaign? then 0 else e.worker;
    StepTouchesOneTask(s, e, w);
    assert id < |t.db.jobs| ==> JobUpdate(s, e, id, t.db.jobs[id]);
    forall v | v != w && OnJob(t, v, id)
      ensures OnJob(s, v, id) && t.tasks[v] == s.tasks[v] && (LiveOn(t, v, id) ==> LiveOn(s, v, id))
    {
    }
    assert (e.Mark? || e.WriteFailure?) && OnJob(s, w, id) ==> LiveOn(s, w, id);
  }

  lemma {:induction false} TimelyRunIsBudgeted(run: Run, n: nat, id: nat)
    requires TimelyRun(run) && n <= |run.events|
    ensures Budgeted(run.states[n], id)
  {
    if n == 0 {
    } else {
      TimelyRunIsBudgeted(run, n - 1, id);
      TimelyRunIsExclusive(run, n - 1, id);
      assert Follows(run, n - 1);
      StepKeepsBudget(run.states[n - 1], run.events[n - 1], id);
    }
  }

  ghost predicate ClosedStep(e: Event) {
    !e.Enqueue? && !e.StartCampaign?
  }

  lemma JobWeightDrops(s: Sys, e: Event, id: nat)
    requires Enabled(s, e) && Timely(s, e) && ClosedStep(e)
    requires id < |s.db.jobs| && Exclusive(s, id) && Budgeted(s, id)
    ensures |Step(s, e).db.jobs| == |s.db.jobs|
    ensures Remaining(Step(s, e).db.jobs[id]) <= Remaining(s.db.jobs[id])
    ensures e.Claim? && e.job == id && !TakesOverSomething(s, e) ==>
      Remaining(Step(s, e).db.jobs[id]) < Remaining(s.db.jobs[id])
  {
    StepUpdatesJobs(s, e);
    assert JobUpdate(s, e, id, Step(s, e).db.jobs[id]);
    assert (e.Mark? || e.WriteFailure?) && OnJob(s, e.worker, id) ==> LiveOn(s, e.worker, id);
  }

  lemma MailWeightDrops(s: Sys, e: Event, id: nat)
    requires Enabled(s, e) && ClosedStep(e) && id < |s.db.recipients|
    ensures |Step(s, e).db.recipients| == |s.db.recipients|
    ensures Unsent(Step(s, e).db.recipients[id]) <= Unsent(s.db.recipients[id])
    ensures e.ClaimEmail? && e.recipient == id && !TakesOverSomething(s, e) ==>
      Unsent(Step(s, e).db.recipients[id]) < Unsent(s.db.recipients[id])
  {
    StepUpdatesRecipients(s, e);
    assert Step(s, e).db.recipients[id] == RecipientAfter(s, e, id);
  }

  lemma StepUsesMeasure(s: Sys, e: Event)
    requires Enabled(s, e) && Timely(s, e) && ClosedStep(e)
    requires forall id: nat | id < |s.db.jobs| :: Exclusive(s, id) && Budgeted(s, id)
    ensures Measure(Step(s, e)) + One(ClaimsSomething(e)) <= Measure(s) + One(TakesOverSomething(s, e))
  {
    var t := Step(s, e);
    StepUpdatesJobs(s, e);
    StepUpdatesRecipients(s, e);
    forall id: nat | id < |s.db.jobs| ensures
      && |t.db.jobs| == |s.db.jobs|
      && Remaining(t.db.jobs[id]) <= Remaining(s.db.jobs[id])
      && (e.Claim? && e.job == id && !TakesOverSomething(s, e) ==> Remaining(t.db.jobs[id]) < Remaining(s.db.jobs[id]))
    {
      JobWeightDrops(s, e, id);
    }
    forall id: nat | id < |s.db.recipients| ensures
      && Unsent(t.db.recipients[id]) <= Unsent(s.db.recipients[id])
      && (e.ClaimEmail? && e.recipient == id && !TakesOverSomething(s, e) ==>
            Unsent(t.db.recipients[id]) < Unsent(s.db.recipients[id]))
    {
      MailWeightDrops(s, e, id);
    }
    assert |t.db.jobs| == |s.db.jobs|;
    SumDrops(Remaining, s.db.jobs, t.db.jobs, if e.Claim? then e.job else -1);
    SumDrops(Unsent, s.db.recipients, t.db.recipients, if e.ClaimEmail? then e.recipient else -1);
  }

  ghost function ClaimsMade(run: Run, m: nat, n: nat): nat
    requires m <= n <= |run.events|
    decreases n
  {
    if n == m then 0 else ClaimsMade(run, m, n - 1) + One(ClaimsSomething(run.events[n - 1]))
  }

  ghost function TakeoversMade(run: Run, m: nat, n: nat): nat
    requires m <= n <= |run.events| <= |run.states|
    decreases n
  {
    if n == m then 0 else TakeoversMade(run, m, n - 1) + One(TakesOverSomething(run.states[n - 1], run.events[n - 1]))
  }

  ghost predicate Closed(run: Run, m: nat, n: nat) {
    forall i | m <= i < n && i < |run.events| :: ClosedStep(run.events[i])
  }

  lemma RunStepUsesMeasure(run: Run, i: nat)
    requires TimelyRun(run) && i < |run.events| && ClosedStep(run.events[i])
    ensures Measure(run.states[i + 1]) + One(ClaimsSomething(run.events[i]))
            <= Measure(run.states[i]) + One(TakesOverSomething(run.states[i], run.events[i]))
  {
    var s := run.states[i];
    forall id: nat | id < |s.db.jobs| ensures Exclusive(s, id) && Budgeted(s, id) {
      TimelyRunIsExclusive(run, i, id);
      TimelyRunIsBudgeted(run, i, id);
    }
    assert Follows(run, i);
    StepUsesMeasure(s, run.events[i]);
  }

  /**
   With nothing enqueued meanwhile, a timely run makes no more claims than attempts and e-mails are left, plus its
   takeovers.
   */
  lemma {:induction false} ClaimsUseMeasure(run: Run, m: nat, n: nat)
    requires TimelyRun(run) && m <= n <= |run.events| && Closed(run, m, n)
    ensures ClaimsMade(run, m, n) + Measure(run.states[n]) <= Measure(run.states[m]) + TakeoversMade(run, m, n)
    decreases n
  {
    if m == n {
    } else {
      ClaimsUseMeasure(run, m, n - 1);
      RunStepUsesMeasure(run, n - 1);
    }
  }

  // ------------------------------------------------------- prompt workers

  // No worker crashes or outlives its lease before it has settled its row.
  ghost predicate Prompt(s: Sys, e: Event) {
    && Timely(s, e)
    && !e.Crash?
    && (e.Tick? ==> forall w | w in s.tasks && s.tasks[w].phase != Marked :: s.now + e.seconds < s.tasks[w].deadline)
  }

  ghost predicate PromptRun(run: Run) {
    && TimelyRun(run)
    && run.states[0].lease > 0
    && forall i | 0 <= i < |run.events| :: Prompt(run.states[i], run.events[i])
  }

  ghost predicate HasLiveWorker(s: Sys, id: nat) {
    exists w :: LiveOn(s, w, id) && s.tasks[w].phase != Marked
  }

  ghost predicate HasLiveMailer(s: Sys, id: nat) {
    exists w :: LiveOnRecipient(s, w, id) && s.tasks[w].phase != Marked
  }

  ghost predicate Attended(s: Sys, id: nat) {
    && (id < |s.db.jobs| && s.db.jobs[id].status == Processing ==> HasLiveWorker(s, id))
    && (id < |s.db.recipients| && s.db.recipients[id].status == Sending ==> HasLiveMailer(s, id))
  }

  lemma PromptStepKeepsJobAttended(s: Sys, e: Event, id: nat)
    requires Enabled(s, e) && Prompt(s, e) && Attended(s, id) && Exclusive(s, id) && s.lease > 0
    ensures id < |Step(s, e).db.jobs| && Step(s, e).db.jobs[id].status == Processing ==> HasLiveWorker(Step(s, e), id)
  {
    StepUpdatesJobs(s, e);
    var t := Step(s, e);
    assert id < |t.db.jobs| ==> JobUpdate(s, e, id, t.db.jobs[id]);
    if id < |t.db.jobs| && t.db.jobs[id].status == Processing {
      if e.Claim? && e.job == id {
        assert LiveOn(t, e.worker, id) && t.tasks[e.worker].phase != Marked;
      } else {
        var w :| LiveOn(s, w, id) && s.tasks[w].phase != Marked;
        assert LiveOn(t, w, id) && t.tasks[w].phase != Marked;
      }
    }
  }

  lemma PromptStepKeepsMailAttended(s: Sys, e: Event, id: nat)
    requires Enabled(s, e) && Prompt(s, e) && Attended(s, id) && MailExclusive(s, id) && s.lease > 0
    ensures id < |Step(s, e).db.recipients| && Step(s, e).db.recipients[id].status == Sending ==>
      HasLiveMailer(Step(s, e), id)
  {
    StepUpdatesRecipients(s, e);
    var t := Step(s, e);
    if id < |t.db.recipients| && t.db.recipients[id].status == Sending {
      if id >= |s.db.recipients| {
        NewRecipientsAreFresh(s, e, id);
      } else if e.ClaimEmail? && e.recipient == id {
        assert LiveOnRecipient(t, e.worker, id) && t.tasks[e.worker].phase != Marked;
      } else {
        assert t.db.recipients[id] == RecipientAfter(s, e, id);
        var w :| LiveOnRecipient(s, w, id) && s.tasks[w].phase != Marked;
        assert LiveOnRecipient(t, w, id) && t.tasks[w].phase != Marked;
      }
    }
  }

  lemma {:induction false} PromptRunIsAttended(run: Run, n: nat, id: nat)
    requires PromptRun(run) && n <= |run.events|
    ensures Attended(run.states[n], id) && run.states[n].lease > 0
  {
    if n == 0 {
    } else {
      PromptRunIsAttended(run, n - 1, id);
      TimelyRunIsExclusive(run, n - 1, id);
      assert Follows(run, n - 1);
      PromptStepKeepsJobAttended(run.states[n - 1], run.events[n - 1], id);
      PromptStepKeepsMailAttended(run.states[n - 1], run.events[n - 1], id);
    }
  }

  lemma {:induction false} PromptRunsTakeNothingOver(run: Run, m: nat, n: nat)
    requires PromptRun(run) && m <= n <= |run.events|
    ensures TakeoversMade(run, m, n) == 0
    decreases n
  {
    if m == n {
    } else {
      PromptRunsTakeNothingOver(run, m, n - 1);
      var s, e := run.states[n - 1], run.events[n - 1];
      assert Follows(run, n - 1);
      if e.Claim? {
        PromptRunIsAttended(run, n - 1, e.job);
        TimelyRunIsExclusive(run, n - 1, e.job);
      }
      if e.ClaimEmail? {
        PromptRunIsAttended(run, n - 1, e.recipient);
        TimelyRunIsExclusive(run, n - 1, e.recipient);
      }
    }
  }

  /** With nothing enqueued meanwhile, prompt workers claim at most once per attempt left and per e-mail to send. */
  lemma QueuesDrain(run: Run, m: nat, n: nat)
    requires PromptRun(run) && m <= n <= |run.events| && Closed(run, m, n)
    ensures ClaimsMade(run, m, n) + Measure(run.states[n]) <= Measure(run.states[m])
  {
    ClaimsUseMeasure(run, m, n);
    PromptRunsTakeNothingOver(run, m, n);
  }

  // ------------------------------------------------------------ drained

  // Every message is done or failed, and every e-mail that was addressed is sent or has failed.
  ghost predicate AllSettled(db: Db) {
    && (forall id | 0 <= id < |db.jobs| :: Terminal(db.jobs[id].status))
    && (forall id | 0 <= id < |db.recipients| && db.recipients[id].manualMessage.None? ::
          !RecipientPending(db.recipients[id].status))
  }

  /** With no worker busy, the measure is used up exactly when everything is settled. */
  lemma DrainedIff(run: Run, n: nat)
    requires PromptRun(run) && n <= |run.events| && run.states[n].tasks == map[]
    ensures Measure(run.states[n]) == 0 <==> AllSettled(run.states[n].db)
  {
    var s := run.states[n];
    SumIsZeroIff(Remaining, s.db.jobs);
    SumIsZeroIff(Unsent, s.db.recipients);
    forall id: nat | id < |s.db.jobs| ensures Remaining(s.db.jobs[id]) == 0 <==> Terminal(s.db.jobs[id].status) {
      PromptRunIsAttended(run, n, id);
      TimelyRunIsBudgeted(run, n, id);
    }
    forall id: nat | id < |s.db.recipients| && s.db.recipients[id].manualMessage.None?
      ensures Unsent(s.db.recipients[id]) == 0 <==> !RecipientPending(s.db.recipients[id].status)
    {
      PromptRunIsAttended(run, n, id);
    }
  }

  // A pending e-mail recipient has an address and belongs to an e-mail campaign.
  ghost predicate Mailable(db: Db, id: nat) {
    id < |db.recipients| && db.recipients[id].manualMessage.None? && RecipientPending(db.recipients[id].status) ==>
      && db.recipients[id].hasEmail
      && db.recipients[id].campaign < |db.campaigns|
      && db.campaigns[db.recipients[id].campaign].channel == Email
  }

  lemma {:induction false} RecipientsAreMailable(run: Run, n: nat, id: nat)
    requires ValidRun(run) && n <= |run.events|
    ensures Mailable(run.states[n].db, id)
  {
    if n == 0 {
    } else {
      RecipientsAreMailable(run, n - 1, id);
      assert Follows(run, n - 1);
      var s, e, t := run.states[n - 1], run.events[n - 1], run.states[n];
      StepUpdatesRecipients(s, e);
      StepKeepsCampaigns(s, e);
      if id < |s.db.recipients| {
        assert t.db.recipients[id] == RecipientAfter(s, e, id);
        assert e.ClaimEmail? && e.recipient == id ==> Mailable(s.db, id) && EmailEligible(s.db, id, s.now, s.lease);
      } else if id < |t.db.recipients| {
        NewRecipientsAreFresh(s, e, id);
      }
    }
  }

  // --------------------------------------------------- nothing gets stuck

  // Worker w would find this to claim after waiting a while.
  ghost predicate ClaimableAfter(s: Sys, w: nat, seconds: nat, e: Event) {
    ClaimsSomething(e) && e.worker == w && Enabled(Step(s, Tick(seconds)), e)
  }

  function Until(now: int, at: int): (seconds: nat)
    ensures now + seconds >= at
  {
    if now < at then at - now else 0
  }

  function Longer(a: nat, b: nat): nat {
    if a < b then b else a
  }

  lemma ScheduleOpens(db: Db, id: nat) returns (opening: int)
    ensures forall now: int | opening <= now :: ScheduleOpen(db, id, now)
  {
    opening := 0;
    if i :| 0 <= i < |db.recipients| && db.recipients[i].manualMessage == Some(id) {
      var c := db.recipients[i].campaign;
      var at := if c < |db.campaigns| then db.campaigns[c].scheduledAt else None;
      opening := if at.Some? then at.value else 0;
      forall now: int | opening <= now ensures ScheduleOpen(db, id, now) {
        assert c < |db.campaigns| ==> Open(db.campaigns[c].scheduledAt, now);
      }
    }
  }

  // A queued message waits for its backoff or schedule, one in processing for its lease.
  lemma UnsettledJobBecomesClaimable(s: Sys, w: nat, id: nat) returns (seconds: nat)
    requires w !in s.tasks && id < |s.db.jobs| && !Terminal(s.db.jobs[id].status) && LatestLease(s, id)
    ensures ClaimableAfter(s, w, seconds, Claim(w, id))
  {
    var job := s.db.jobs[id];
    var opening := ScheduleOpens(s.db, id);
    var due := if job.status == Processing then job.leaseUntil.value else job.processAfter;
    seconds := Longer(Until(s.now, opening), Until(s.now, due));
    assert ScheduleOpen(s.db, id, s.now + seconds);
  }

  lemma PendingMailBecomesClaimable(s: Sys, w: nat, id: nat) returns (seconds: nat)
    requires w !in s.tasks && id < |s.db.recipients| && RecipientPending(s.db.recipients[id].status)
    requires s.db.recipients[id].manualMessage.None? && Mailable(s.db, id)
    ensures ClaimableAfter(s, w, seconds, ClaimEmail(w, id))
  {
    var r := s.db.recipients[id];
    var at := s.db.campaigns[r.campaign].scheduledAt;
    var opens := if at.Some? then Until(s.now, at.value) else 0;
    seconds := Longer(opens, Until(s.now, r.updatedAt + s.lease));
  }

  /**
   In every run, whatever workers crashed or wrote late, an idle worker has nothing to claim, however long it waits,
   exactly when everything is settled.  A row left behind in processing or sending is freed by its lease.
   */
  lemma IdleForGoodIff(run: Run, n: nat, w: nat)
    requires ValidRun(run) && n <= |run.events| && w !in run.states[n].tasks
    ensures AllSettled(run.states[n].db)
      <==> forall seconds: nat, e :: !ClaimableAfter(run.states[n], w, seconds, e)
  {
    var s := run.states[n];
    if id: nat :| id < |s.db.jobs| && !Terminal(s.db.jobs[id].status) {
      RunKeepsLatestLease(run, n, id);
      var seconds := UnsettledJobBecomesClaimable(s, w, id);
    } else if id: nat :| id < |s.db.recipients| && s.db.recipients[id].manualMessage.None?
                         && RecipientPending(s.db.recipients[id].status) {
      RecipientsAreMailable(run, n, id);
      var seconds := PendingMailBecomesClaimable(s, w, id);
    }
  }
}
