/**
 queue.py and worker.py as code that updates tables in place, each method proved against the statement of
 `DeliveryModel` it runs.  `ProcessOnce` is the worker's loop body without interference; what other workers can do
 between its statements is the business of `DeliveryModel.Step`.
 */
module DeliveryQueue {
  import opened Wrappers
  import opened DeliveryModel

  // Claimable rows of one queue that no other transaction has locked.
  predicate Claimable(db: Db, kind: JobKind, id: nat, now: int, locked: set<nat>) {
    id < |db.jobs| && db.jobs[id].kind == kind && id !in locked && Eligible(db, id, now)
  }

  predicate MailClaimable(db: Db, id: nat, now: int, lease: nat, locked: set<nat>) {
    id < |db.recipients| && id !in locked && EmailEligible(db, id, now, lease)
  }

  class DeliveryTables {
    var jobs: seq<Job>
    var recipients: seq<Recipient>
    var campaigns: seq<Campaign>

    constructor ()
      ensures Snapshot() == Db([], [], [])
    {
      jobs, recipients, campaigns := [], [], [];
    }

    function Snapshot(): Db
      reads this
    {
      Db(jobs, recipients, campaigns)
    }

    // SELECT ... ORDER BY created_at LIMIT 1 FOR UPDATE SKIP LOCKED
    method OldestClaimable(kind: JobKind, now: int, locked: set<nat>) returns (found: Option<nat>)
      ensures found.None? ==> forall id: nat :: !Claimable(Snapshot(), kind, id, now, locked)
      ensures found.Some? ==> Claimable(Snapshot(), kind, found.value, now, locked)
      ensures found.Some? ==>
        forall id: nat :: Claimable(Snapshot(), kind, id, now, locked) ==>
          jobs[found.value].createdAt <= jobs[id].createdAt
    {
      found := None;
      for i := 0 to |jobs|
        invariant found.None? ==> forall id: nat | id < i :: !Claimable(Snapshot(), kind, id, now, locked)
        invariant found.Some? ==> Claimable(Snapshot(), kind, found.value, now, locked)
        invariant found.Some? ==>
          forall id: nat | id < i && Claimable(Snapshot(), kind, id, now, locked) ::
            jobs[found.value].createdAt <= jobs[id].createdAt
      {
        if jobs[i].kind == kind && i !in locked && Eligible(Snapshot(), i, now) {
          if found.None? || jobs[i].createdAt < jobs[found.value].createdAt {
            found := Some(i);
          }
        }
      }
    }

    method ClaimNext(kind: JobKind, now: int, lease: nat, locked: set<nat>) returns (claimed: Option<nat>)
      modifies this
      ensures claimed.None? ==>
        Snapshot() == old(Snapshot()) && forall id: nat :: !Claimable(old(Snapshot()), kind, id, now, locked)
      ensures claimed.Some? ==> Claimable(old(Snapshot()), kind, claimed.value, now, locked)
      ensures claimed.Some? ==> Snapshot() == ClaimJob(old(Snapshot()), claimed.value, now, lease)
      ensures claimed.Some? ==>
        forall id: nat :: Claimable(old(Snapshot()), kind, id, now, locked) ==>
          old(jobs[claimed.value].createdAt) <= old(jobs[id].createdAt)
      ensures claimed.Some? ==>
        var was := old(jobs[claimed.value]);
        && claimed.value !in locked && was.kind == kind
        && ((was.status == Queued && (kind == Ai ==> was.processAfter <= now))
            || (was.status == Processing && was.leaseUntil.Some? && was.leaseUntil.value <= now))
        && jobs == old(jobs)[claimed.value :=
             was.(status := Processing, attempts := was.attempts + 1, leaseUntil := Some(now + lease))]
        && recipients == old(recipients) && campaigns == old(campaigns)
    {
      claimed := OldestClaimable(kind, now, locked);
      if claimed.Some? {
        var job := jobs[claimed.value];
        jobs := jobs[claimed.value :=
          job.(status := Processing, attempts := job.attempts + 1, leaseUntil := Some(now + lease))];
      }
    }

    method ClaimNextEmailRecipient(now: int, lease: nat, locked: set<nat>) returns (claimed: Option<nat>)
      modifies this
      ensures claimed.None? ==>
        Snapshot() == old(Snapshot()) && forall id: nat :: !MailClaimable(old(Snapshot()), id, now, lease, locked)
      ensures claimed.Some? ==> MailClaimable(old(Snapshot()), claimed.value, now, lease, locked)
      ensures claimed.Some? ==> Snapshot() == SetRecipient(old(Snapshot()), claimed.value, Sending, now)
      ensures claimed.Some? ==>
        forall id: nat :: MailClaimable(old(Snapshot()), id, now, lease, locked) ==>
          old(recipients[claimed.value].createdAt) <= old(recipients[id].createdAt)
      ensures claimed.Some? ==>
        var was := old(recipients[claimed.value]);
        && claimed.value !in locked && was.hasEmail && was.manualMessage == None && was.campaign < |campaigns|
        && campaigns[was.campaign].channel == Email
        && (campaigns[was.campaign].scheduledAt == None || campaigns[was.campaign].scheduledAt.value <= now)
        && (was.status == ToSend || (was.status == Sending && was.updatedAt + lease <= now))
        && recipients == old(recipients)[claimed.value := was.(status := Sending, updatedAt := now)]
        && jobs == old(jobs) && campaigns == old(campaigns)
    {
      claimed := None;
      for i := 0 to |recipients|
        invariant claimed.None? ==> forall id: nat | id < i :: !MailClaimable(Snapshot(), id, now, lease, locked)
        invariant claimed.Some? ==> MailClaimable(Snapshot(), claimed.value, now, lease, locked)
        invariant claimed.Some? ==>
          forall id: nat | id < i && MailClaimable(Snapshot(), id, now, lease, locked) ::
            recipients[claimed.value].createdAt <= recipients[id].createdAt
      {
        if i !in locked && EmailEligible(Snapshot(), i, now, lease) {
          if claimed.None? || recipients[i].createdAt < recipients[claimed.value].createdAt {
            claimed := Some(i);
          }
        }
      }
      if claimed.Some? {
        recipients := recipients[claimed.value := recipients[claimed.value].(status := Sending, updatedAt := now)];
      }
    }

    method EnqueueJob(kind: JobKind, maxAttempts: nat, now: int) returns (id: nat)
      modifies this
      ensures id == |old(jobs)| && Snapshot() == old(Snapshot()).(jobs := old(jobs) + [NewJob(kind, maxAttempts, now)])
      ensures jobs == old(jobs) + [Job(kind, Queued, 0, maxAttempts, now, None, now)]
      ensures kind == Ai ==> Eligible(Snapshot(), id, now)
    {
      id := |jobs|;
      jobs := jobs + [NewJob(kind, maxAttempts, now)];
    }

    // ---------------------------------------------------------- campaigns

    method CountRecipients(campaign: nat, statuses: set<RecipientStatus>) returns (count: nat)
      ensures count == CountIn(recipients, campaign, statuses)
    {
      count := 0;
      for i := 0 to |recipients|
        invariant count == CountIn(recipients[..i], campaign, statuses)
      {
        assert recipients[..i + 1][..i] == recipients[..i];
        if recipients[i].campaign == campaign && recipients[i].status in statuses {
          count := count + 1;
        }
      }
      assert recipients[..|recipients|] == recipients;
    }

    method RefreshCampaignStatus(campaign: nat)
      requires campaign < |campaigns|
      modifies this
      ensures Snapshot() == RefreshCampaign(old(Snapshot()), campaign)
    {
      var pending := CountRecipients(campaign, PENDING);
      if pending != 0 {
        return;
      }
      var undelivered := CountRecipients(campaign, UNDELIVERED);
      var status := if undelivered != 0 then CampaignFailed else CampaignSent;
      campaigns := campaigns[campaign := campaigns[campaign].(status := status)];
    }

    // UPDATE ai_campaign_recipients ... WHERE manual_message_id = id RETURNING campaign_id
    method TouchLinkedRecipients(id: nat, status: Option<RecipientStatus>, now: int) returns (campaign: Option<nat>)
      modifies this
      ensures Snapshot() == old(Snapshot()).(recipients := TouchLinked(old(recipients), id, status, now))
      ensures campaign == LinkedCampaign(old(recipients), id)
    {
      ghost var was := recipients;
      campaign := None;
      for i := 0 to |recipients|
        invariant |recipients| == |was| && jobs == old(jobs) && campaigns == old(campaigns)
        invariant forall k | 0 <= k < i :: recipients[k] == Touched(was[k], id, status, now)
        invariant forall k | i <= k < |was| :: recipients[k] == was[k]
        invariant if campaign.Some? then campaign == LinkedCampaign(was, id)
                  else LinkedCampaign(was, id) == LinkedCampaign(was[i..], id)
      {
        assert was[i..][1..] == was[i + 1..];
        if recipients[i].manualMessage == Some(id) {
          if campaign.None? {
            campaign := Some(recipients[i].campaign);
          }
          recipients := recipients[i := Touched(recipients[i], id, status, now)];
        }
      }
      assert recipients == TouchLinked(was, id, status, now);
    }

    method SettleLinkedRecipients(id: nat, status: RecipientStatus, now: int)
      modifies this
      ensures Snapshot() == SettleLinked(old(Snapshot()), id, status, now)
    {
      var campaign := TouchLinkedRecipients(id, Some(status), now);
      if campaign.Some? && campaign.value < |campaigns| {
        RefreshCampaignStatus(campaign.value);
      }
    }

    // The inserts for one built recipient.
    method InsertRecipient(campaign: nat, channel: Channel, deliverable: bool, now: int)
      modifies this
      ensures Snapshot() == AddRecipient(old(Snapshot()), campaign, channel, deliverable, now)
    {
      if !deliverable {
        recipients := recipients + [Recipient(campaign, None, false, Skipped, now, now)];
      } else {
        var manualMessage: Option<nat> := None;
        if channel == Whatsapp {
          manualMessage := Some(|jobs|);
          jobs := jobs + [NewJob(Manual, DEFAULT_MAX_ATTEMPTS, now)];
        }
        recipients := recipients + [Recipient(campaign, manualMessage, channel == Email, ToSend, now, now)];
      }
    }

    // The loop over the built recipients; targets[i] says whether the i-th has a destination.
    method CreateCampaignWithRecipients(channel: Channel, scheduledAt: Option<int>, targets: seq<bool>, now: int)
      returns (queuedCount: nat, skippedCount: nat)
      requires targets != []
      modifies this
      ensures Snapshot() == CreateCampaign(old(Snapshot()), channel, scheduledAt, targets, now)
      ensures queuedCount == multiset(targets)[true] && skippedCount == multiset(targets)[false]
      ensures campaigns
        == old(campaigns) + [Campaign(channel, scheduledAt, if queuedCount > 0 then CampaignQueued else CampaignFailed)]
      ensures |recipients| == |old(recipients)| + |targets| && recipients[..|old(recipients)|] == old(recipients)
      ensures forall i | |old(recipients)| <= i < |recipients| ::
        MadeFor(recipients[i], |old(campaigns)|, channel, targets[i - |old(recipients)|])
    {
      var c := |campaigns|;
      campaigns := campaigns + [Campaign(channel, scheduledAt, CampaignQueued)];
      ghost var base := Snapshot();
      queuedCount, skippedCount := 0, 0;
      for i := 0 to |targets|
        invariant Snapshot() == AddRecipients(base, c, channel, targets[..i], now)
        invariant campaigns == base.campaigns
        invariant queuedCount == multiset(targets[..i])[true] && skippedCount == multiset(targets[..i])[false]
      {
        CountsGrow(targets, i);
        InsertRecipient(c, channel, targets[i], now);
        if targets[i] {
          queuedCount := queuedCount + 1;
        } else {
          skippedCount := skippedCount + 1;
        }
      }
      assert targets[..|targets|] == targets;
      campaigns := campaigns[c := campaigns[c].(status := if queuedCount > 0 then CampaignQueued else CampaignFailed)];
      ghost var status := if true in targets then CampaignQueued else CampaignFailed;
      assert campaigns == old(campaigns) + [Campaign(channel, scheduledAt, status)];
      assert base.(campaigns := campaigns) == old(Snapshot()).(campaigns := campaigns);
      CampaignsCarryOver(base, c, campaigns, channel, targets, now);
      AddedRecipientsSay(base, c, channel, targets, now);
      AddRecipientsAppends(base, c, channel, targets, now);
    }

    // ---------------------------------------------------------------- marks

    method MarkDone(id: nat, now: int)
      modifies this
      ensures id < old(|jobs|) ==> Snapshot() == MarkDelivered(old(Snapshot()), id, now)
      ensures id < old(|jobs|) ==>
        var was := old(jobs[id]);
        jobs == old(jobs)[id := was.(status := Done, leaseUntil := if was.kind == Ai then was.leaseUntil else None)]
      ensures id >= old(|jobs|) ==> Snapshot() == old(Snapshot())
    {
      if id >= |jobs| {
        return;
      }
      if jobs[id].kind == Ai {
        jobs := jobs[id := jobs[id].(status := Done)];
      } else {
        jobs := jobs[id := jobs[id].(status := Done, leaseUntil := None)];
        SettleLinkedRecipients(id, Sent, now);
      }
    }

    method MarkFailed(id: nat, now: int)
      modifies this
      ensures id < old(|jobs|) && old(jobs[id].attempts < jobs[id].maxAttempts) ==>
        Snapshot() == Requeue(old(Snapshot()), id, now)
      ensures id < old(|jobs|) && old(jobs[id].attempts >= jobs[id].maxAttempts) ==>
        Snapshot() == Fail(old(Snapshot()), id, now)
      ensures id < old(|jobs|) ==>
        var was := old(jobs[id]);
        jobs == old(jobs)[id :=
          if was.attempts < was.maxAttempts then
            was.(status := Queued, leaseUntil := None,
                 processAfter := if was.kind == Ai then now + 5 * was.attempts else was.processAfter)
          else was.(status := Failed, leaseUntil := if was.kind == Ai then was.leaseUntil else None)]
      ensures id >= old(|jobs|) ==> Snapshot() == old(Snapshot())
    {
      if id >= |jobs| {
        return;
      }
      var attempts, maxAttempts := jobs[id].attempts, jobs[id].maxAttempts;
      if attempts < maxAttempts {
        if jobs[id].kind == Ai {
          var later := now + jobs[id].attempts * BACKOFF_SECONDS;
          jobs := jobs[id := jobs[id].(status := Queued, processAfter := later, leaseUntil := None)];
        } else {
          jobs := jobs[id := jobs[id].(status := Queued, leaseUntil := None)];
          var _ := TouchLinkedRecipients(id, None, now);
        }
      } else if jobs[id].kind == Ai {
        jobs := jobs[id := jobs[id].(status := Failed)];
      } else {
        jobs := jobs[id := jobs[id].(status := Failed, leaseUntil := None)];
        SettleLinkedRecipients(id, Undelivered, now);
      }
    }

    method MarkEmail(id: nat, status: RecipientStatus, now: int)
      requires id < |recipients| ==> status in {Sent, Undelivered}
      modifies this
      ensures id < old(|recipients|) ==> Snapshot() == SettleEmail(old(Snapshot()), id, status, now)
      ensures id < old(|recipients|) ==>
        recipients == old(recipients)[id := old(recipients[id]).(status := status, updatedAt := now)]
      ensures id >= old(|recipients|) ==> Snapshot() == old(Snapshot())
    {
      if id >= |recipients| {
        return;
      }
      recipients := recipients[id := recipients[id].(status := status, updatedAt := now)];
      if recipients[id].campaign < |campaigns| {
        RefreshCampaignStatus(recipients[id].campaign);
      }
    }
  }

  lemma CountsGrow(targets: seq<bool>, i: nat)
    requires i < |targets|
    ensures targets[..i + 1][..i] == targets[..i]
    ensures multiset(targets[..i + 1])[true] == multiset(targets[..i])[true] + (if targets[i] then 1 else 0)
    ensures multiset(targets[..i + 1])[false] == multiset(targets[..i])[false] + (if targets[i] then 0 else 1)
  {
    assert targets[..i + 1] == targets[..i] + [targets[i]];
  }

  // The recipient loop neither reads nor writes the campaigns.
  lemma {:induction false} CampaignsCarryOver(
    base: Db, c: nat, campaigns: seq<Campaign>, channel: Channel, targets: seq<bool>, now: int)
    ensures AddRecipients(base.(campaigns := campaigns), c, channel, targets, now)
            == AddRecipients(base, c, channel, targets, now).(campaigns := campaigns)
  {
    if targets == [] {
    } else {
      CampaignsCarryOver(base, c, campaigns, channel, targets[..|targets| - 1], now);
    }
  }

  // ----------------------------------------------------------- the worker

  // How the try block of one delivery ends.
  datatype Outcome = Delivered | DeliveredThenRaised | NotDelivered

  function Script(worker: nat, target: Target, outcome: Outcome): seq<Event> {
    var claim := match target case ToJob(id) => Claim(worker, id) case ToRecipient(id) => ClaimEmail(worker, id);
    var failure := if target.ToJob? then [Raise(worker), ReadAttempts(worker), WriteFailure(worker)]
                   else [Raise(worker), WriteFailure(worker)];
    match outcome
    case Delivered => [claim, Mark(worker), Finish(worker)]
    case DeliveredThenRaised => [claim, Mark(worker)] + failure
    case NotDelivered => [claim] + failure
  }

  // The state after a script of steps, if each is enabled in turn.
  ghost function Play(s: Sys, script: seq<Event>): Option<Sys>
    decreases |script|
  {
    if script == [] then Some(s)
    else if Enabled(s, script[0]) then Play(Step(s, script[0]), script[1..])
    else None
  }

  ghost predicate NoneClaimable(db: Db, kind: JobKind, now: int) {
    forall id: nat :: !Claimable(db, kind, id, now, {})
  }

  /** AI messages first, then manual messages, then e-mails; with nothing to do the tables stay as they are. */
  method ProcessOnce(
    tables: DeliveryTables, worker: nat, now: int, lease: nat, outcome: Outcome) returns (target: Option<Target>)
    modifies tables
    ensures target.None? ==> tables.Snapshot() == old(tables.Snapshot())
    ensures target.None? ==> forall id: nat :: !MailClaimable(old(tables.Snapshot()), id, now, lease, {})
    ensures target.None? || target.value.ToRecipient? ==>
      NoneClaimable(old(tables.Snapshot()), Ai, now) && NoneClaimable(old(tables.Snapshot()), Manual, now)
    ensures target.Some? && target.value.ToJob? ==>
      && target.value.id < old(|tables.jobs|)
      && (old(tables.jobs)[target.value.id].kind == Manual ==> NoneClaimable(old(tables.Snapshot()), Ai, now))
    ensures target.Some? ==>
      Play(Sys(old(tables.Snapshot()), map[], now, lease), Script(worker, target.value, outcome))
      == Some(Sys(tables.Snapshot(), map[], now, lease))
  {
    var job := tables.ClaimNext(Ai, now, lease, {});
    if job.None? {
      job := tables.ClaimNext(Manual, now, lease, {});
    }
    if job.Some? {
      target := Some(ToJob(job.value));
      DeliverJob(tables, worker, job.value, now, lease, outcome, old(tables.Snapshot()));
      return;
    }
    var recipient := tables.ClaimNextEmailRecipient(now, lease, {});
    if recipient.None? {
      return None;
    }
    target := Some(ToRecipient(recipient.value));
    DeliverMail(tables, worker, recipient.value, now, lease, outcome, old(tables.Snapshot()));
  }

  lemma PlayFirst(s: Sys, script: seq<Event>)
    requires script != [] && Enabled(s, script[0])
    ensures Play(s, script) == Play(Step(s, script[0]), script[1..])
  {
  }

  ghost function JobAfter(was: Db, id: nat, now: int, lease: nat, outcome: Outcome): Db
    requires id < |was.jobs|
  {
    var claimed := ClaimJob(was, id, now, lease);
    var marked := if outcome == NotDelivered then claimed else MarkDelivered(claimed, id, now);
    if outcome == Delivered then marked
    else if was.jobs[id].attempts + 1 < was.jobs[id].maxAttempts then Requeue(marked, id, now)
    else Fail(marked, id, now)
  }

  lemma DeliveredScriptPlays(was: Db, worker: nat, id: nat, now: int, lease: nat)
    requires id < |was.jobs| && Eligible(was, id, now)
    ensures Play(Sys(was, map[], now, lease), [Claim(worker, id), Mark(worker), Finish(worker)])
            == Some(Sys(MarkDelivered(ClaimJob(was, id, now, lease), id, now), map[], now, lease))
  {
    var s0 := Sys(was, map[], now, lease);
    PlayFirst(s0, [Claim(worker, id), Mark(worker), Finish(worker)]);
    var s1 := Step(s0, Claim(worker, id));
    PlayFirst(s1, [Mark(worker), Finish(worker)]);
    var s2 := Step(s1, Mark(worker));
    PlayFirst(s2, [Finish(worker)]);
    assert Step(s2, Finish(worker)).tasks == map[];
  }

  lemma JobScriptPlays(was: Db, worker: nat, id: nat, now: int, lease: nat, outcome: Outcome)
    requires id < |was.jobs| && Eligible(was, id, now)
    ensures Play(Sys(was, map[], now, lease), Script(worker, ToJob(id), outcome))
            == Some(Sys(JobAfter(was, id, now, lease, outcome), map[], now, lease))
  {
    var failure := [Raise(worker), ReadAttempts(worker), WriteFailure(worker)];
    var s0 := Sys(was, map[], now, lease);
    match outcome
    case Delivered =>
      DeliveredScriptPlays(was, worker, id, now, lease);
    case NotDelivered =>
      PlayFirst(s0, [Claim(worker, id)] + failure);
      JobFailurePlays(was, worker, id, now, lease, outcome, Step(s0, Claim(worker, id)), failure);
    case DeliveredThenRaised =>
      PlayFirst(s0, [Claim(worker, id), Mark(worker)] + failure);
      var s1 := Step(s0, Claim(worker, id));
      PlayFirst(s1, [Mark(worker)] + failure);
      JobFailurePlays(was, worker, id, now, lease, outcome, Step(s1, Mark(worker)), failure);
  }

  lemma JobFailurePlays(
    was: Db, worker: nat, id: nat, now: int, lease: nat, outcome: Outcome, s: Sys, script: seq<Event>)
    requires id < |was.jobs| && outcome != Delivered
    requires script == [Raise(worker), ReadAttempts(worker), WriteFailure(worker)]
    requires s.now == now && s.lease == lease && s.tasks.Keys == {worker}
    requires s.tasks[worker].target == ToJob(id)
    requires s.tasks[worker].phase == if outcome == NotDelivered then Trying else Marked
    requires var claimed := ClaimJob(was, id, now, lease);
      s.db == if outcome == NotDelivered then claimed else MarkDelivered(claimed, id, now)
    ensures Play(s, script) == Some(Sys(JobAfter(was, id, now, lease, outcome), map[], now, lease))
  {
    PlayFirst(s, script);
    var s1 := Step(s, script[0]);
    PlayFirst(s1, script[1..]);
    var s2 := Step(s1, script[1]);
    PlayFirst(s2, script[2..]);
    assert Step(s2, script[2]).tasks == map[];
  }

  method DeliverJob(tables: DeliveryTables, worker: nat, id: nat, now: int, lease: nat, outcome: Outcome, ghost was: Db)
    requires id < |was.jobs| && Eligible(was, id, now) && tables.Snapshot() == ClaimJob(was, id, now, lease)
    modifies tables
    ensures Play(Sys(was, map[], now, lease), Script(worker, ToJob(id), outcome))
      == Some(Sys(tables.Snapshot(), map[], now, lease))
  {
    JobScriptPlays(was, worker, id, now, lease, outcome);
    if outcome != NotDelivered {
      tables.MarkDone(id, now);
    }
    if outcome != Delivered {
      tables.MarkFailed(id, now);
    }
  }

  ghost function MailAfter(was: Db, id: nat, now: int, outcome: Outcome): Db
    requires id < |was.recipients|
  {
    var claimed := SetRecipient(was, id, Sending, now);
    var marked := if outcome == NotDelivered then claimed else SettleEmail(claimed, id, Sent, now);
    if outcome == Delivered then marked else SettleEmail(marked, id, Undelivered, now)
  }

  lemma MailFailurePlays(s: Sys, worker: nat, id: nat)
    requires s.tasks.Keys == {worker} && s.tasks[worker].target == ToRecipient(id) && id < |s.db.recipients|
    requires s.tasks[worker].phase == Trying || s.tasks[worker].phase == Marked
    ensures Play(s, [Raise(worker), WriteFailure(worker)])
      == Some(Sys(SettleEmail(s.db, id, Undelivered, s.now), map[], s.now, s.lease))
  {
    PlayFirst(s, [Raise(worker), WriteFailure(worker)]);
    var s1 := Step(s, Raise(worker));
    PlayFirst(s1, [WriteFailure(worker)]);
    assert Step(s1, WriteFailure(worker)).tasks == map[];
  }

  lemma DeliveredMailPlays(s: Sys, worker: nat, id: nat)
    requires s.tasks.Keys == {worker} && s.tasks[worker].target == ToRecipient(id) && id < |s.db.recipients|
    requires s.tasks[worker].phase == Trying
    ensures Play(s, [Mark(worker), Finish(worker)])
      == Some(Sys(SettleEmail(s.db, id, Sent, s.now), map[], s.now, s.lease))
  {
    PlayFirst(s, [Mark(worker), Finish(worker)]);
    var s1 := Step(s, Mark(worker));
    PlayFirst(s1, [Finish(worker)]);
    assert Step(s1, Finish(worker)).tasks == map[];
  }

  lemma MailScriptPlays(was: Db, worker: nat, id: nat, now: int, lease: nat, outcome: Outcome)
    requires id < |was.recipients| && EmailEligible(was, id, now, lease)
    ensures Play(Sys(was, map[], now, lease), Script(worker, ToRecipient(id), outcome))
      == Some(Sys(MailAfter(was, id, now, outcome), map[], now, lease))
  {
    var failure := [Raise(worker), WriteFailure(worker)];
    var s0 := Sys(was, map[], now, lease);
    var s1 := Step(s0, ClaimEmail(worker, id));
    match outcome
    case Delivered =>
      PlayFirst(s0, [ClaimEmail(worker, id), Mark(worker), Finish(worker)]);
      DeliveredMailPlays(s1, worker, id);
    case NotDelivered =>
      PlayFirst(s0, [ClaimEmail(worker, id)] + failure);
      MailFailurePlays(s1, worker, id);
    case DeliveredThenRaised =>
      PlayFirst(s0, [ClaimEmail(worker, id), Mark(worker)] + failure);
      PlayFirst(s1, [Mark(worker)] + failure);
      MailFailurePlays(Step(s1, Mark(worker)), worker, id);
  }

  method DeliverMail(
    tables: DeliveryTables, worker: nat, id: nat, now: int, lease: nat, outcome: Outcome, ghost was: Db)
    requires id < |was.recipients| && EmailEligible(was, id, now, lease)
    requires tables.Snapshot() == SetRecipient(was, id, Sending, now)
    modifies tables
    ensures Play(Sys(was, map[], now, lease), Script(worker, ToRecipient(id), outcome))
      == Some(Sys(tables.Snapshot(), map[], now, lease))
  {
    MailScriptPlays(was, worker, id, now, lease, outcome);
    if outcome != NotDelivered {
      tables.MarkEmail(id, Sent, now);
    }
    if outcome != Delivered {
      tables.MarkEmail(id, Undelivered, now);
    }
  }
}
