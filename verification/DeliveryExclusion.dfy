/**
 What breaks exclusion and single delivery, exactly, over every run: late writes and raising bookkeeping included.
 A message has two workers with live leases only after the claim of a queued row that tests no lease; an e-mail
 recipient never has.
 */
module DeliveryExclusion {
  import opened Wrappers
  import opened DeliveryModel
  import opened DeliveryAttempts
  import opened DeliveryLeases

  // ------------------------------------------------------- marked only once

  ghost predicate DeliveredBy(run: Run, n: nat, target: Target)
    requires n < |run.states|
  {
    exists j :: 0 <= j <= n && Delivered(run.states[j], target)
  }

  lemma StepDeliversMail(s: Sys, e: Event, id: nat)
    requires Enabled(s, e) && MailUnlinked(s, id)
    ensures Delivered(Step(s, e), ToRecipient(id)) ==>
      Delivered(s, ToRecipient(id)) || MarksTarget(s, e, ToRecipient(id))
    ensures MarksTarget(s, e, ToRecipient(id)) ==> Delivered(Step(s, e), ToRecipient(id))
  {
    StepUpdatesRecipients(s, e);
    var t := Step(s, e);
    if id < |s.db.recipients| {
      assert t.db.recipients[id] == RecipientAfter(s, e, id);
      assert MarksTarget(s, e, ToRecipient(id)) ==> OnRecipient(s, e.worker, id);
    } else if id < |t.db.recipients| {
      NewRecipientsAreFresh(s, e, id);
    }
    assert MarksTarget(s, e, ToRecipient(id)) ==> OnRecipient(s, e.worker, id);
  }

  lemma StepDelivers(s: Sys, e: Event, target: Target)
    requires Enabled(s, e) && MailUnlinked(s, target.id)
    ensures Delivered(Step(s, e), target) ==> Delivered(s, target) || MarksTarget(s, e, target)
    ensures MarksTarget(s, e, target) ==> Delivered(Step(s, e), target)
  {
    if target.ToJob? {
      var t, id := Step(s, e), target.id;
      StepUpdatesJobs(s, e);
      assert id < |t.db.jobs| ==> JobUpdate(s, e, id, t.db.jobs[id]);
    } else {
      StepDeliversMail(s, e, target.id);
    }
  }

  // Only recipients without a message are claimed from the e-mail queue.
  ghost predicate MailUnlinked(s: Sys, id: nat) {
    forall w | OnRecipient(s, w, id) :: id < |s.db.recipients| && s.db.recipients[id].manualMessage.None?
  }

  lemma {:induction false} MailTasksAreUnlinked(run: Run, n: nat, id: nat)
    requires ValidRun(run) && n <= |run.events|
    ensures MailUnlinked(run.states[n], id)
  {
    if n == 0 {
    } else {
      MailTasksAreUnlinked(run, n - 1, id);
      assert Follows(run, n - 1);
      var s, e, t := run.states[n - 1], run.events[n - 1], run.states[n];
      StepUpdatesRecipients(s, e);
      forall w | OnRecipient(t, w, id) ensures id < |t.db.recipients| && t.db.recipients[id].manualMessage.None? {
        assert OnRecipient(s, w, id) || (e.ClaimEmail? && e.recipient == id);
        assert t.db.recipients[id] == RecipientAfter(s, e, id);
      }
    }
  }

  lemma {:induction false} MarkedOnceDelivered(run: Run, n: nat, target: Target)
    requires ValidRun(run) && n <= |run.events|
    ensures Marks(run, n, target) > 0 <==> DeliveredBy(run, n, target)
  {
    if n == 0 {
    } else {
      MarkedOnceDelivered(run, n - 1, target);
      MailTasksAreUnlinked(run, n - 1, target.id);
      assert Follows(run, n - 1);
      StepDelivers(run.states[n - 1], run.events[n - 1], target);
      assert Delivered(run.states[n], target) ==> DeliveredBy(run, n, target);
      if DeliveredBy(run, n - 1, target) {
        var j :| 0 <= j <= n - 1 && Delivered(run.states[j], target);
        assert DeliveredBy(run, n, target);
      }
      if DeliveredBy(run, n, target) {
        var j :| 0 <= j <= n && Delivered(run.states[j], target);
        assert j < n ==> DeliveredBy(run, n - 1, target);
        assert j == n && Delivered(run.states[n - 1], target) ==> DeliveredBy(run, n - 1, target);
      }
    }
  }

  // A mark of a row that has been delivered before.
  ghost predicate MarksAgain(run: Run, k: nat, target: Target)
    requires k < |run.events| < |run.states|
  {
    MarksTarget(run.states[k], run.events[k], target) && DeliveredBy(run, k, target)
  }

  ghost predicate MarkedOnce(run: Run, n: nat, target: Target)
    requires n <= |run.events| <= |run.states|
  {
    Marks(run, n, target) <= 1
  }

  lemma {:induction false} MarkedOnceUpTo(run: Run, n: nat, target: Target)
    requires ValidRun(run) && n <= |run.events|
    requires forall k: nat | k < n :: !MarksAgain(run, k, target)
    ensures MarkedOnce(run, n, target)
  {
    if n == 0 {
    } else {
      MarkedOnceUpTo(run, n - 1, target);
      MarkedOnceDelivered(run, n - 1, target);
      assert !MarksAgain(run, n - 1, target);
    }
  }

  /**
   In any run a row is marked delivered at most once exactly if no mark hits a row that was delivered before.  What is
   claimed is that a mark is the only way to be delivered (MarkedOnceDelivered); the rest is counting.
   */
  lemma MarkedAtMostOnceIff(run: Run, target: Target)
    requires ValidRun(run)
    ensures (forall n: nat | n <= |run.events| :: MarkedOnce(run, n, target))
      <==> (forall k: nat | k < |run.events| :: !MarksAgain(run, k, target))
  {
    if forall n: nat | n <= |run.events| :: MarkedOnce(run, n, target) {
      forall k: nat | k < |run.events| ensures !MarksAgain(run, k, target) {
        MarkedOnceDelivered(run, k, target);
        assert MarkedOnce(run, k + 1, target);
      }
    }
    if forall k: nat | k < |run.events| :: !MarksAgain(run, k, target) {
      forall n: nat | n <= |run.events| ensures MarkedOnce(run, n, target) {
        MarkedOnceUpTo(run, n, target);
      }
    }
  }

  // -------------------------------------------------------- one live worker

  ghost predicate OneLive(s: Sys, id: nat) {
    forall v, w | LiveOn(s, v, id) && LiveOn(s, w, id) :: v == w
  }

  // No lease ends later than one taken now, and that of a row in processing is the latest.
  ghost predicate LatestLease(s: Sys, id: nat) {
    && (forall w | OnJob(s, w, id) :: id < |s.db.jobs| && s.tasks[w].deadline <= s.now + s.lease)
    && (id < |s.db.jobs| && s.db.jobs[id].status == Processing ==>
          s.db.jobs[id].leaseUntil.Some?
          && forall w | OnJob(s, w, id) :: s.tasks[w].deadline <= s.db.jobs[id].leaseUntil.value)
  }

  lemma StepKeepsLatestLease(s: Sys, e: Event, id: nat)
    requires Enabled(s, e) && LatestLease(s, id)
    ensures LatestLease(Step(s, e), id)
  {
    StepUpdatesJobs(s, e);
    var t := Step(s, e);
    assert id < |s.db.jobs| ==> JobUpdate(s, e, id, t.db.jobs[id]);
    forall w | OnJob(t, w, id)
      ensures if e.Claim? && e.job == id && e.worker == w then t.tasks[w].deadline == t.now + t.lease
              else OnJob(s, w, id) && t.tasks[w].deadline == s.tasks[w].deadline
    {
    }
  }

  lemma {:induction false} RunKeepsLatestLease(run: Run, n: nat, id: nat)
    requires ValidRun(run) && n <= |run.events|
    ensures LatestLease(run.states[n], id)
  {
    if n == 0 {
    } else {
      RunKeepsLatestLease(run, n - 1, id);
      assert Follows(run, n - 1);
      StepKeepsLatestLease(run.states[n - 1], run.events[n - 1], id);
    }
  }

  // The claim of a queued row while an earlier claimer's lease still runs.
  ghost predicate ClaimsQueuedInLease(s: Sys, e: Event, id: nat) {
    && e.Claim? && e.job == id && id < |s.db.jobs| && s.db.jobs[id].status == Queued
    && exists v :: LiveOn(s, v, id)
  }

  lemma LiveAfter(s: Sys, e: Event, id: nat, w: nat)
    requires Enabled(s, e)
    ensures LiveOn(Step(s, e), w, id) ==> LiveOn(s, w, id) || (e.Claim? && e.job == id && e.worker == w)
    ensures e.Claim? && e.job == id && LiveOn(s, w, id) ==> LiveOn(Step(s, e), w, id) && w != e.worker
    ensures e.Claim? && e.job == id && e.worker == w && s.lease > 0 ==> LiveOn(Step(s, e), w, id)
  {
  }

  lemma StepOneLiveIff(s: Sys, e: Event, id: nat)
    requires Enabled(s, e) && LatestLease(s, id) && OneLive(s, id)
    ensures OneLive(Step(s, e), id) <==> !ClaimsQueuedInLease(s, e, id)
  {
    var t := Step(s, e);
    forall w ensures LiveOn(t, w, id) ==> LiveOn(s, w, id) || (e.Claim? && e.job == id && e.worker == w) {
      LiveAfter(s, e, id, w);
    }
    if ClaimsQueuedInLease(s, e, id) {
      var v :| LiveOn(s, v, id);
      LiveAfter(s, e, id, v);
      LiveAfter(s, e, id, e.worker);
      assert LiveOn(t, v, id) && LiveOn(t, e.worker, id) && v != e.worker;
    } else if e.Claim? && e.job == id {
      assert forall v :: !LiveOn(s, v, id);
    }
  }

  lemma {:induction false} OneLiveUpTo(run: Run, n: nat, id: nat)
    requires ValidRun(run) && n <= |run.events|
    requires forall k: nat | k < n :: !ClaimsQueuedInLease(run.states[k], run.events[k], id)
    ensures OneLive(run.states[n], id)
  {
    if n == 0 {
    } else {
      OneLiveUpTo(run, n - 1, id);
      RunKeepsLatestLease(run, n - 1, id);
      assert Follows(run, n - 1);
      StepOneLiveIff(run.states[n - 1], run.events[n - 1], id);
    }
  }

  /** All through a run a message has at most one live worker exactly if no queued row is claimed while a lease runs. */
  lemma OneLiveWorkerIff(run: Run, id: nat)
    requires ValidRun(run)
    ensures (forall n: nat | n <= |run.events| :: OneLive(run.states[n], id))
      <==> (forall k: nat | k < |run.events| :: !ClaimsQueuedInLease(run.states[k], run.events[k], id))
  {
    if forall n: nat | n <= |run.events| :: OneLive(run.states[n], id) {
      forall k: nat | k < |run.events| ensures !ClaimsQueuedInLease(run.states[k], run.events[k], id) {
        RunKeepsLatestLease(run, k, id);
        assert Follows(run, k);
        assert OneLive(run.states[k], id) && OneLive(run.states[k + 1], id);
        StepOneLiveIff(run.states[k], run.events[k], id);
      }
    }
    if forall k: nat | k < |run.events| :: !ClaimsQueuedInLease(run.states[k], run.events[k], id) {
      forall n: nat | n <= |run.events| ensures OneLive(run.states[n], id) {
        OneLiveUpTo(run, n, id);
      }
    }
  }

  // ------------------------------------------------ e-mails: in every run

  // A recipient to be sent has never been claimed, and one in sending was claimed last at `updatedAt`.
  ghost predicate MailLeased(s: Sys, id: nat) {
    && (forall w | OnRecipient(s, w, id) :: id < |s.db.recipients| && s.tasks[w].deadline <= s.now + s.lease)
    && (id < |s.db.recipients| && s.db.recipients[id].status == ToSend ==> forall w :: !OnRecipient(s, w, id))
    && (id < |s.db.recipients| && s.db.recipients[id].status == Sending ==>
          s.db.recipients[id].manualMessage.None?
          && forall w | OnRecipient(s, w, id) :: s.tasks[w].deadline <= s.db.recipients[id].updatedAt + s.lease)
    && (forall v, w | LiveOnRecipient(s, v, id) && LiveOnRecipient(s, w, id) :: v == w)
  }

  lemma StepKeepsMailLeased(s: Sys, e: Event, id: nat)
    requires Enabled(s, e) && MailLeased(s, id) && MailUnlinked(s, id)
    ensures MailLeased(Step(s, e), id)
  {
    StepUpdatesRecipients(s, e);
    var t := Step(s, e);
    forall w | OnRecipient(t, w, id)
      ensures if e.ClaimEmail? && e.recipient == id && e.worker == w then t.tasks[w].deadline == t.now + t.lease
              else OnRecipient(s, w, id) && t.tasks[w].deadline == s.tasks[w].deadline
                   && (LiveOnRecipient(t, w, id) ==> LiveOnRecipient(s, w, id))
    {
      MailTaskAfter(s, e, w, id);
    }
    if id < |s.db.recipients| {
      assert t.db.recipients[id] == RecipientAfter(s, e, id);
      assert e.ClaimEmail? && e.recipient == id ==> forall w :: !LiveOnRecipient(s, w, id);
    } else if id < |t.db.recipients| {
      NewRecipientsAreFresh(s, e, id);
    }
  }

  /** In every run, late writes and all, an e-mail recipient has at most one worker whose lease has not expired. */
  lemma {:induction false} OneLiveMailer(run: Run, n: nat, id: nat)
    requires ValidRun(run) && n <= |run.events|
    ensures MailLeased(run.states[n], id)
  {
    if n == 0 {
    } else {
      OneLiveMailer(run, n - 1, id);
      MailTasksAreUnlinked(run, n - 1, id);
      assert Follows(run, n - 1);
      StepKeepsMailLeased(run.states[n - 1], run.events[n - 1], id);
    }
  }
}
