/**
 Runs in which workers write only within their lease and nothing raises after a mark: the lease then excludes other
 workers, settled rows stay settled, and a row is marked once.
 */
module DeliveryLeases {
  import opened Wrappers
  import opened DeliveryModel
  import opened DeliveryAttempts

  // ------------------------------------------------------- run predicates

  ghost predicate InLease(s: Sys, w: nat) {
    w in s.tasks && s.now < s.tasks[w].deadline
  }

  ghost predicate WritesInLease(s: Sys, e: Event) {
    e.Mark? || e.WriteFailure? ==> InLease(s, e.worker)
  }

  ghost predicate NoRaiseAfterMark(s: Sys, e: Event) {
    e.Raise? && e.worker in s.tasks ==> s.tasks[e.worker].phase == Trying
  }

  ghost predicate Timely(s: Sys, e: Event) {
    WritesInLease(s, e) && NoRaiseAfterMark(s, e)
  }

  ghost predicate TimelyRun(run: Run) {
    ValidRun(run) && forall i | 0 <= i < |run.events| :: Timely(run.states[i], run.events[i])
  }

  // ----------------------------------------------------- mutual exclusion

  ghost predicate LiveOn(s: Sys, w: nat, id: nat) {
    OnJob(s, w, id) && s.now < s.tasks[w].deadline
  }

  ghost predicate Exclusive(s: Sys, id: nat) {
    && (forall w | LiveOn(s, w, id) :: id < |s.db.jobs|)
    && (forall w | OnJob(s, w, id) && s.tasks[w].phase == Marked :: id < |s.db.jobs| && s.db.jobs[id].status == Done)
    && (forall w | LiveOn(s, w, id) && s.tasks[w].phase != Marked ::
          s.db.jobs[id].status == Processing && s.db.jobs[id].leaseUntil == Some(s.tasks[w].deadline))
    && (forall v, w | LiveOn(s, v, id) && LiveOn(s, w, id) :: v == w)
  }

  lemma StepKeepsExclusive(s: Sys, e: Event, id: nat)
    requires Enabled(s, e) && Timely(s, e) && Exclusive(s, id)
    ensures Exclusive(Step(s, e), id)
  {
    StepUpdatesJobs(s, e);
    var t := Step(s, e);
    var w := if e.Tick? || e.Enqueue? || e.StartCampaign? then 0 else e.worker;
    StepTouchesOneTask(s, e, w);
    assert s.now <= t.now;
    forall v | v != w && OnJob(t, v, id)
      ensures OnJob(s, v, id) && t.tasks[v] == s.tasks[v] && (LiveOn(t, v, id) ==> LiveOn(s, v, id))
    {
    }
    assert id < |s.db.jobs| ==> JobUpdate(s, e, id, t.db.jobs[id]);
    assert (e.Mark? || e.WriteFailure?) && OnJob(s, w, id) ==> LiveOn(s, w, id);
    assert LiveOn(t, w, id) && !LiveOn(s, w, id) ==> e.Claim? && e.job == id;
  }

  lemma TimelyStepKeepsTerminal(s: Sys, e: Event, id: nat)
    requires Enabled(s, e) && Timely(s, e) && Exclusive(s, id)
    requires id < |s.db.jobs| && Terminal(s.db.jobs[id].status)
    ensures |s.db.jobs| <= |Step(s, e).db.jobs| && Step(s, e).db.jobs[id].status == s.db.jobs[id].status
  {
    StepUpdatesJobs(s, e);
    assert JobUpdate(s, e, id, Step(s, e).db.jobs[id]);
    assert e.WriteFailure? || e.Mark? ==> !LiveOn(s, e.worker, id);
  }

  ghost predicate OnRecipient(s: Sys, w: nat, id: nat) {
    w in s.tasks && s.tasks[w].target == ToRecipient(id)
  }

  ghost predicate LiveOnRecipient(s: Sys, w: nat, id: nat) {
    OnRecipient(s, w, id) && s.now < s.tasks[w].deadline
  }

  // The e-mail queue keeps its lease in updated_at; only e-mail recipients, which have no message, are claimed.
  ghost predicate MailExclusive(s: Sys, id: nat) {
    && (forall w | OnRecipient(s, w, id) :: id < |s.db.recipients| && s.db.recipients[id].manualMessage.None?)
    && (forall w | OnRecipient(s, w, id) && s.tasks[w].phase == Marked :: s.db.recipients[id].status == Sent)
    && (forall w | LiveOnRecipient(s, w, id) && s.tasks[w].phase != Marked ::
          s.db.recipients[id].status == Sending && s.db.recipients[id].updatedAt + s.lease == s.tasks[w].deadline)
    && (forall v, w | LiveOnRecipient(s, v, id) && LiveOnRecipient(s, w, id) :: v == w)
  }

  // A worker on a recipient has just claimed it or was on it before, in a phase that only its own steps change.
  lemma MailTaskAfter(s: Sys, e: Event, w: nat, id: nat)
    requires Enabled(s, e) && OnRecipient(Step(s, e), w, id)
    ensures var t := Step(s, e);
      if e.ClaimEmail? && e.worker == w then
        e.recipient == id && t.tasks[w] == Task(ToRecipient(id), t.now + t.lease, Trying)
      else OnRecipient(s, w, id) && t.tasks[w].deadline == s.tasks[w].deadline
           && (LiveOnRecipient(t, w, id) ==> LiveOnRecipient(s, w, id))
           && (t.tasks[w].phase == s.tasks[w].phase
               || (e.Mark? && e.worker == w && t.tasks[w].phase == Marked)
               || (e.Raise? && e.worker == w && t.tasks[w].phase == Raised))
  {
    assert s.now <= Step(s, e).now;
  }

  lemma StepKeepsMailExclusive(s: Sys, e: Event, id: nat)
    requires Enabled(s, e) && Timely(s, e) && MailExclusive(s, id)
    ensures MailExclusive(Step(s, e), id)
  {
    StepUpdatesRecipients(s, e);
    var t := Step(s, e);
    forall w | OnRecipient(t, w, id) && !(e.ClaimEmail? && e.worker == w)
      ensures OnRecipient(s, w, id) && t.tasks[w].deadline == s.tasks[w].deadline
      ensures LiveOnRecipient(t, w, id) ==> LiveOnRecipient(s, w, id)
      ensures t.tasks[w].phase == s.tasks[w].phase
              || (e.Mark? && e.worker == w && t.tasks[w].phase == Marked)
              || (e.Raise? && e.worker == w && t.tasks[w].phase == Raised)
    {
      MailTaskAfter(s, e, w, id);
    }
    assert id < |s.db.recipients| ==> t.db.recipients[id] == RecipientAfter(s, e, id);
    assert (e.Mark? || e.WriteFailure?) && OnRecipient(s, e.worker, id) ==> LiveOnRecipient(s, e.worker, id);
    assert e.ClaimEmail? && e.recipient == id ==> forall w :: !LiveOnRecipient(s, w, id);
  }

  lemma {:induction false} TimelyRunIsExclusive(run: Run, n: nat, id: nat)
    requires TimelyRun(run) && n <= |run.events|
    ensures Exclusive(run.states[n], id) && MailExclusive(run.states[n], id)
  {
    if n == 0 {
    } else {
      TimelyRunIsExclusive(run, n - 1, id);
      assert Follows(run, n - 1);
      StepKeepsExclusive(run.states[n - 1], run.events[n - 1], id);
      StepKeepsMailExclusive(run.states[n - 1], run.events[n - 1], id);
    }
  }

  /** In a timely run a message, or an e-mail recipient, has at most one worker whose lease has not expired. */
  lemma OneLiveWorker(run: Run, n: nat, id: nat, v: nat, w: nat)
    requires TimelyRun(run) && n <= |run.events|
    requires (LiveOn(run.states[n], v, id) && LiveOn(run.states[n], w, id))
             || (LiveOnRecipient(run.states[n], v, id) && LiveOnRecipient(run.states[n], w, id))
    ensures v == w
  {
    TimelyRunIsExclusive(run, n, id);
  }

  /** In a timely run 'done' and 'failed' are never left. */
  lemma {:induction false} SettledJobsStay(run: Run, m: nat, n: nat, id: nat)
    requires TimelyRun(run) && m <= n <= |run.events|
    requires id < |run.states[m].db.jobs| && Terminal(run.states[m].db.jobs[id].status)
    ensures id < |run.states[n].db.jobs| && run.states[n].db.jobs[id].status == run.states[m].db.jobs[id].status
  {
    if m == n {
    } else {
      SettledJobsStay(run, m, n - 1, id);
      TimelyRunIsExclusive(run, n - 1, id);
      assert Follows(run, n - 1);
      TimelyStepKeepsTerminal(run.states[n - 1], run.events[n - 1], id);
    }
  }

  lemma TimelyStepKeepsSettledMail(s: Sys, e: Event, id: nat)
    requires Enabled(s, e) && Timely(s, e) && MailExclusive(s, id) && id < |s.db.recipients|
    requires s.db.recipients[id].manualMessage.None? && !RecipientPending(s.db.recipients[id].status)
    ensures |s.db.recipients| <= |Step(s, e).db.recipients|
    ensures Step(s, e).db.recipients[id] == s.db.recipients[id]
  {
    StepUpdatesRecipients(s, e);
    assert Step(s, e).db.recipients[id] == RecipientAfter(s, e, id);
    assert e.WriteFailure? || e.Mark? ==> !LiveOnRecipient(s, e.worker, id);
  }

  /** In a timely run the 'sent' and 'failed' of an e-mail recipient are never left. */
  lemma {:induction false} SettledMailStays(run: Run, m: nat, n: nat, id: nat)
    requires TimelyRun(run) && m <= n <= |run.events| && id < |run.states[m].db.recipients|
    requires run.states[m].db.recipients[id].manualMessage.None?
    requires !RecipientPending(run.states[m].db.recipients[id].status)
    ensures id < |run.states[n].db.recipients| && run.states[n].db.recipients[id] == run.states[m].db.recipients[id]
  {
    if m == n {
    } else {
      SettledMailStays(run, m, n - 1, id);
      TimelyRunIsExclusive(run, n - 1, id);
      assert Follows(run, n - 1);
      TimelyStepKeepsSettledMail(run.states[n - 1], run.events[n - 1], id);
    }
  }

  // mark_done or mark_manual_sent of a message, mark_email_sent of a recipient.
  ghost predicate MarksTarget(s: Sys, e: Event, target: Target) {
    e.Mark? && e.worker in s.tasks && s.tasks[e.worker].target == target
  }

  ghost function Marks(run: Run, n: nat, target: Target): nat
    requires n <= |run.events| <= |run.states|
  {
    if n == 0 then 0 else
    Marks(run, n - 1, target) + One(MarksTarget(run.states[n - 1], run.events[n - 1], target))
  }

  // The message is done, or the e-mail recipient is sent.
  ghost predicate Delivered(s: Sys, target: Target) {
    match target
    case ToJob(id) => id < |s.db.jobs| && s.db.jobs[id].status == Done
    case ToRecipient(id) =>
      id < |s.db.recipients| && s.db.recipients[id].manualMessage.None? && s.db.recipients[id].status == Sent
  }

  lemma TimelyStepMarksOnce(s: Sys, e: Event, target: Target)
    requires Enabled(s, e) && Timely(s, e)
    requires Exclusive(s, target.id) && MailExclusive(s, target.id)
    ensures MarksTarget(s, e, target) ==> !Delivered(s, target)
    ensures Delivered(Step(s, e), target) <==> Delivered(s, target) || MarksTarget(s, e, target)
  {
    var t, id := Step(s, e), target.id;
    if target.ToJob? {
      StepUpdatesJobs(s, e);
      assert id < |t.db.jobs| ==> JobUpdate(s, e, id, t.db.jobs[id]);
      assert MarksTarget(s, e, target) ==> LiveOn(s, e.worker, id);
      if Delivered(s, target) {
        TimelyStepKeepsTerminal(s, e, id);
      }
    } else {
      StepUpdatesRecipients(s, e);
      assert id < |s.db.recipients| ==> t.db.recipients[id] == RecipientAfter(s, e, id);
      assert MarksTarget(s, e, target) ==> LiveOnRecipient(s, e.worker, id);
      if |s.db.recipients| <= id < |t.db.recipients| {
        NewRecipientsAreFresh(s, e, id);
      } else if Delivered(s, target) {
        TimelyStepKeepsSettledMail(s, e, id);
      }
    }
  }

  /** In a timely run a row is marked delivered at most once, and has been exactly when it is delivered. */
  lemma {:induction false} MarkedDoneOnce(run: Run, n: nat, target: Target)
    requires TimelyRun(run) && n <= |run.events|
    ensures Marks(run, n, target) == One(Delivered(run.states[n], target))
  {
    if n == 0 {
    } else {
      MarkedDoneOnce(run, n - 1, target);
      TimelyRunIsExclusive(run, n - 1, target.id);
      assert Follows(run, n - 1);
      TimelyStepMarksOnce(run.states[n - 1], run.events[n - 1], target);
    }
  }

  // ---------------------------------------------- the exact bad writes

  // A write that finds its row already settled and would change the outcome; queue.py does not test for this.
  ghost predicate OverwritesSettled(s: Sys, e: Event, id: nat) {
    && id < |s.db.jobs|
    && Terminal(s.db.jobs[id].status)
    && ((e.WriteFailure? && OnJob(s, e.worker, id)
         && (s.tasks[e.worker].phase == WillRequeue || s.db.jobs[id].status == Done))
        || (e.Mark? && OnJob(s, e.worker, id) && s.db.jobs[id].status == Failed))
  }

  ghost predicate KeptAt(run: Run, i: nat, id: nat)
    requires i < |run.events| < |run.states|
  {
    id < |run.states[i].db.jobs| && Terminal(run.states[i].db.jobs[id].status) ==>
      id < |run.states[i + 1].db.jobs| && run.states[i + 1].db.jobs[id].status == run.states[i].db.jobs[id].status
  }

  /** In any run at all, a row's settled states are kept exactly when no write of this kind is made on it. */
  lemma SettledKeptIff(run: Run, id: nat)
    requires ValidRun(run)
    ensures (forall i: nat | i < |run.events| :: KeptAt(run, i, id))
            <==> (forall i: nat | i < |run.events| :: !OverwritesSettled(run.states[i], run.events[i], id))
  {
    forall i: nat | i < |run.events|
      ensures KeptAt(run, i, id) <==> !OverwritesSettled(run.states[i], run.events[i], id)
    {
      assert Follows(run, i);
      StepUpdatesJobs(run.states[i], run.events[i]);
      assert id < |run.states[i].db.jobs| ==>
        JobUpdate(run.states[i], run.events[i], id, run.states[i + 1].db.jobs[id]);
    }
  }
}
