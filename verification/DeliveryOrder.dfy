/** Rows are created in the order of their ids, so the oldest claimable row is one that was enqueued first. */
module DeliveryOrder {
  import opened Wrappers
  import opened DeliveryModel

  ghost predicate JobsInOrder(s: Sys) {
    && (forall i | 0 <= i < |s.db.jobs| :: s.db.jobs[i].createdAt <= s.now)
    && (forall i, j | 0 <= i < j < |s.db.jobs| :: s.db.jobs[i].createdAt <= s.db.jobs[j].createdAt)
  }

  ghost predicate RecipientsInOrder(s: Sys) {
    && (forall i | 0 <= i < |s.db.recipients| :: s.db.recipients[i].createdAt <= s.now)
    && (forall i, j | 0 <= i < j < |s.db.recipients| :: s.db.recipients[i].createdAt <= s.db.recipients[j].createdAt)
  }

  // A row's creation time never changes, and that of a new row is now.
  lemma StepCreatesNow(s: Sys, e: Event)
    requires Enabled(s, e)
    ensures var t := Step(s, e);
      && |s.db.jobs| <= |t.db.jobs|
      && (forall i: nat | i < |t.db.jobs| ::
            t.db.jobs[i].createdAt == if i < |s.db.jobs| then s.db.jobs[i].createdAt else s.now)
    ensures var t := Step(s, e);
      && |s.db.recipients| <= |t.db.recipients|
      && (forall i: nat | i < |t.db.recipients| ::
            t.db.recipients[i].createdAt == if i < |s.db.recipients| then s.db.recipients[i].createdAt else s.now)
  {
    var t := Step(s, e);
    StepUpdatesJobs(s, e);
    StepUpdatesRecipients(s, e);
    forall i: nat | i < |s.db.jobs| ensures t.db.jobs[i].createdAt == s.db.jobs[i].createdAt {
      assert JobUpdate(s, e, i, t.db.jobs[i]);
    }
    forall i: nat | i < |s.db.recipients| ensures t.db.recipients[i].createdAt == s.db.recipients[i].createdAt {
      assert t.db.recipients[i] == RecipientAfter(s, e, i);
    }
    if e.StartCampaign? {
      var status := if true in e.targets then CampaignQueued else CampaignFailed;
      var db := s.db.(campaigns := s.db.campaigns + [Campaign(e.channel, e.scheduledAt, status)]);
      AddedRecipientsSay(db, |s.db.campaigns|, e.channel, e.targets, s.now);
    }
  }

  /** In every state the rows of a queue were created in the order of their ids, none of them in the future. */
  lemma {:induction false} RowsAreInOrder(run: Run, n: nat)
    requires ValidRun(run) && n <= |run.events|
    ensures JobsInOrder(run.states[n]) && RecipientsInOrder(run.states[n])
  {
    if n == 0 {
    } else {
      RowsAreInOrder(run, n - 1);
      assert Follows(run, n - 1);
      var s, e := run.states[n - 1], run.events[n - 1];
      StepCreatesNow(s, e);
      assert s.now <= run.states[n].now;
    }
  }
}
