/**
 The delivery database of the agent engine and the workers that drain it.

 `Db` holds the queue tables as values: `jobs` joins ai_message_queue (kind `Ai`) and ai_manual_messages
 (kind `Manual`), whose rows have the same life cycle; a row's id is its index, so ids are fresh and rows are
 never deleted.  Each function named after a statement of queue.py is one atomic UPDATE (or one transaction).
 `Sys` adds the workers' program counters and the clock; `Step` is one atomic step of the whole system, and a
 `Run` is any interleaving of such steps, crashes and late writes included.
 */
module DeliveryModel {
  import opened Wrappers

  datatype JobKind = Ai | Manual

  // `Done` is 'done' for an AI message and 'sent' for a manual message.
  datatype JobStatus = Queued | Processing | Done | Failed

  datatype Job = Job(
    kind: JobKind,
    status: JobStatus,
    attempts: nat,
    maxAttempts: nat,
    processAfter: int,
    leaseUntil: Option<int>,
    createdAt: int)

  datatype RecipientStatus = ToSend | Sending | Sent | Skipped | Undelivered

  datatype Recipient = Recipient(
    campaign: nat,
    manualMessage: Option<nat>,
    hasEmail: bool,
    status: RecipientStatus,
    updatedAt: int,
    createdAt: int)

  datatype Channel = Whatsapp | Email

  datatype CampaignStatus = CampaignQueued | CampaignSent | CampaignFailed

  datatype Campaign = Campaign(channel: Channel, scheduledAt: Option<int>, status: CampaignStatus)

  datatype Db = Db(jobs: seq<Job>, recipients: seq<Recipient>, campaigns: seq<Campaign>)

  const DEFAULT_MAX_ATTEMPTS: nat := 3
  const BACKOFF_SECONDS: nat := 5

  predicate Terminal(status: JobStatus) {
    status == Done || status == Failed
  }

  predicate RecipientPending(status: RecipientStatus) {
    status == ToSend || status == Sending
  }

  // ---------------------------------------------------------------- claims

  predicate LeaseExpired(job: Job, now: int) {
    job.status == Processing && job.leaseUntil.Some? && job.leaseUntil.value <= now
  }

  predicate Open(scheduledAt: Option<int>, now: int) {
    scheduledAt.None? || scheduledAt.value <= now
  }

  // The LEFT JOINs of the manual claim yield a row unless every campaign joined to the message is still closed.
  predicate ScheduleOpen(db: Db, id: nat, now: int) {
    (forall i | 0 <= i < |db.recipients| :: db.recipients[i].manualMessage != Some(id))
    || exists i | 0 <= i < |db.recipients| ::
      db.recipients[i].manualMessage == Some(id) &&
      (db.recipients[i].campaign < |db.campaigns| ==> Open(db.campaigns[db.recipients[i].campaign].scheduledAt, now))
  }

  predicate Eligible(db: Db, id: nat, now: int)
    requires id < |db.jobs|
  {
    var job := db.jobs[id];
    match job.kind
    case Ai => (job.status == Queued && job.processAfter <= now) || LeaseExpired(job, now)
    case Manual => (job.status == Queued || LeaseExpired(job, now)) && ScheduleOpen(db, id, now)
  }

  predicate EmailEligible(db: Db, id: nat, now: int, lease: nat)
    requires id < |db.recipients|
  {
    var r := db.recipients[id];
    && (r.status == ToSend || (r.status == Sending && r.updatedAt <= now - lease))
    && r.hasEmail
    && r.manualMessage.None?
    && r.campaign < |db.campaigns|
    && db.campaigns[r.campaign].channel == Email
    && Open(db.campaigns[r.campaign].scheduledAt, now)
  }

  function ClaimJob(db: Db, id: nat, now: int, lease: nat): Db
    requires id < |db.jobs|
  {
    var job := db.jobs[id];
    db.(jobs := db.jobs[id :=
      job.(status := Processing, attempts := job.attempts + 1, leaseUntil := Some(now + lease))])
  }

  function SetRecipient(db: Db, id: nat, status: RecipientStatus, now: int): Db
    requires id < |db.recipients|
  {
    db.(recipients := db.recipients[id := db.recipients[id].(status := status, updatedAt := now)])
  }

  // ------------------------------------------------- campaign status refresh

  function CountIn(recipients: seq<Recipient>, campaign: nat, statuses: set<RecipientStatus>): nat {
    if recipients == [] then 0 else
    var last := recipients[|recipients| - 1];
    CountIn(recipients[..|recipients| - 1], campaign, statuses)
    + (if last.campaign == campaign && last.status in statuses then 1 else 0)
  }

  const PENDING: set<RecipientStatus> := {ToSend, Sending}
  const UNDELIVERED: set<RecipientStatus> := {Undelivered}

  function RefreshCampaign(db: Db, campaign: nat): Db
    requires campaign < |db.campaigns|
  {
    if CountIn(db.recipients, campaign, PENDING) != 0 then db else
    var status := if CountIn(db.recipients, campaign, UNDELIVERED) != 0 then CampaignFailed else CampaignSent;
    db.(campaigns := db.campaigns[campaign := db.campaigns[campaign].(status := status)])
  }

  function RefreshIfAny(db: Db, campaign: Option<nat>): Db {
    if campaign.Some? && campaign.value < |db.campaigns| then RefreshCampaign(db, campaign.value) else db
  }

  // ------------------------------------------------------------------ marks

  // UPDATE ai_campaign_recipients ... WHERE manual_message_id = id; no status means only error and updated_at.
  function TouchLinked(
    recipients: seq<Recipient>, id: nat, status: Option<RecipientStatus>, now: int): (r: seq<Recipient>)
    ensures |r| == |recipients|
    ensures forall i | 0 <= i < |r| :: r[i] == Touched(recipients[i], id, status, now)
  {
    if recipients == [] then [] else
    [Touched(recipients[0], id, status, now)] + TouchLinked(recipients[1..], id, status, now)
  }

  function Touched(r: Recipient, id: nat, status: Option<RecipientStatus>, now: int): Recipient {
    if r.manualMessage != Some(id) then r
    else r.(status := if status.Some? then status.value else r.status, updatedAt := now)
  }

  // RETURNING campaign_id, read as a single value: the first updated row's campaign.
  function LinkedCampaign(recipients: seq<Recipient>, id: nat): Option<nat> {
    if recipients == [] then None
    else if recipients[0].manualMessage == Some(id) then Some(recipients[0].campaign)
    else LinkedCampaign(recipients[1..], id)
  }

  function SettleLinked(db: Db, id: nat, status: RecipientStatus, now: int): Db {
    var recipients := TouchLinked(db.recipients, id, Some(status), now);
    RefreshIfAny(db.(recipients := recipients), LinkedCampaign(db.recipients, id))
  }

  function MarkDelivered(db: Db, id: nat, now: int): Db
    requires id < |db.jobs|
  {
    match db.jobs[id].kind
    case Ai => db.(jobs := db.jobs[id := db.jobs[id].(status := Done)])
    case Manual =>
      SettleLinked(db.(jobs := db.jobs[id := db.jobs[id].(status := Done, leaseUntil := None)]), id, Sent, now)
  }

  function Requeue(db: Db, id: nat, now: int): Db
    requires id < |db.jobs|
  {
    var job := db.jobs[id];
    match job.kind
    case Ai =>
      db.(jobs := db.jobs[id :=
        job.(status := Queued, processAfter := now + BACKOFF_SECONDS * job.attempts, leaseUntil := None)])
    case Manual =>
      db.(jobs := db.jobs[id := job.(status := Queued, leaseUntil := None)],
          recipients := TouchLinked(db.recipients, id, None, now))
  }

  function Fail(db: Db, id: nat, now: int): Db
    requires id < |db.jobs|
  {
    match db.jobs[id].kind
    case Ai => db.(jobs := db.jobs[id := db.jobs[id].(status := Failed)])
    case Manual =>
      var jobs := db.jobs[id := db.jobs[id].(status := Failed, leaseUntil := None)];
      SettleLinked(db.(jobs := jobs), id, Undelivered, now)
  }

  function SettleEmail(db: Db, id: nat, status: RecipientStatus, now: int): Db
    requires id < |db.recipients|
  {
    RefreshIfAny(SetRecipient(db, id, status, now), Some(db.recipients[id].campaign))
  }

  // --------------------------------------------------------------- creation

  function NewJob(kind: JobKind, maxAttempts: nat, now: int): Job {
    Job(kind, Queued, 0, maxAttempts, now, None, now)
  }

  // One iteration of the recipient loop: a skipped target gets a row only, a queued WhatsApp target gets a manual
  // message too.
  function AddRecipient(db: Db, campaign: nat, channel: Channel, deliverable: bool, now: int): Db {
    if !deliverable then
      db.(recipients := db.recipients + [Recipient(campaign, None, false, Skipped, now, now)])
    else if channel == Whatsapp then
      db.(jobs := db.jobs + [NewJob(Manual, DEFAULT_MAX_ATTEMPTS, now)],
          recipients := db.recipients + [Recipient(campaign, Some(|db.jobs|), false, ToSend, now, now)])
    else
      db.(recipients := db.recipients + [Recipient(campaign, None, true, ToSend, now, now)])
  }

  function AddRecipients(db: Db, campaign: nat, channel: Channel, targets: seq<bool>, now: int): Db {
    if targets == [] then db else
    AddRecipient(AddRecipients(db, campaign, channel, targets[..|targets| - 1], now),
                 campaign, channel, targets[|targets| - 1], now)
  }

  // targets[i] says whether the i-th built recipient has a destination.
  function CreateCampaign(db: Db, channel: Channel, scheduledAt: Option<int>, targets: seq<bool>, now: int): Db {
    var c := |db.campaigns|;
    var status := if true in targets then CampaignQueued else CampaignFailed;
    AddRecipients(db.(campaigns := db.campaigns + [Campaign(channel, scheduledAt, status)]), c, channel, targets, now)
  }

  // ---------------------------------------------------------------- workers

  datatype Target = ToJob(id: nat) | ToRecipient(id: nat)

  // Where a busy worker stands: inside the try block, after its mark (bookkeeping still to come), in the except
  // block, or between the SELECT of mark_failed and the UPDATE it chose.
  datatype Phase = Trying | Marked | Raised | WillRequeue | WillFail

  datatype Task = Task(target: Target, deadline: int, phase: Phase)

  // Idle workers have no entry in `tasks`.
  datatype Sys = Sys(db: Db, tasks: map<nat, Task>, now: int, lease: nat)

  datatype Event =
    | Tick(seconds: nat)
    | Enqueue(kind: JobKind, maxAttempts: nat)
    | StartCampaign(channel: Channel, scheduledAt: Option<int>, targets: seq<bool>)
    | Claim(worker: nat, job: nat)
    | ClaimEmail(worker: nat, recipient: nat)
    | Mark(worker: nat)
    | Raise(worker: nat)
    | Finish(worker: nat)
    | ReadAttempts(worker: nat)
    | WriteFailure(worker: nat)
    | Crash(worker: nat)

  predicate Enabled(s: Sys, e: Event) {
    match e
    case Tick(_) => true
    case Enqueue(_, _) => true
    case StartCampaign(_, _, targets) => targets != []
    case Claim(w, id) => w !in s.tasks && id < |s.db.jobs| && Eligible(s.db, id, s.now)
    case ClaimEmail(w, id) => w !in s.tasks && id < |s.db.recipients| && EmailEligible(s.db, id, s.now, s.lease)
    case Mark(w) => w in s.tasks && s.tasks[w].phase == Trying && Known(s.db, s.tasks[w].target)
    case Raise(w) => w in s.tasks && (s.tasks[w].phase == Trying || s.tasks[w].phase == Marked)
    case Finish(w) => w in s.tasks && s.tasks[w].phase == Marked
    case ReadAttempts(w) =>
      w in s.tasks && s.tasks[w].phase == Raised && s.tasks[w].target.ToJob? && Known(s.db, s.tasks[w].target)
    case WriteFailure(w) =>
      && w in s.tasks && Known(s.db, s.tasks[w].target)
      && if s.tasks[w].target.ToJob? then s.tasks[w].phase == WillRequeue || s.tasks[w].phase == WillFail
         else s.tasks[w].phase == Raised
    case Crash(w) => w in s.tasks
  }

  predicate Known(db: Db, target: Target) {
    match target
    case ToJob(id) => id < |db.jobs|
    case ToRecipient(id) => id < |db.recipients|
  }

  function Step(s: Sys, e: Event): Sys
    requires Enabled(s, e)
  {
    match e
    case Tick(d) => s.(now := s.now + d)
    case Enqueue(kind, maxAttempts) => s.(db := s.db.(jobs := s.db.jobs + [NewJob(kind, maxAttempts, s.now)]))
    case StartCampaign(channel, at, targets) => s.(db := CreateCampaign(s.db, channel, at, targets, s.now))
    case Claim(w, id) =>
      s.(db := ClaimJob(s.db, id, s.now, s.lease), tasks := s.tasks[w := Task(ToJob(id), s.now + s.lease, Trying)])
    case ClaimEmail(w, id) =>
      s.(db := SetRecipient(s.db, id, Sending, s.now),
         tasks := s.tasks[w := Task(ToRecipient(id), s.now + s.lease, Trying)])
    case Mark(w) =>
      var db := match s.tasks[w].target
        case ToJob(id) => MarkDelivered(s.db, id, s.now)
        case ToRecipient(id) => SettleEmail(s.db, id, Sent, s.now);
      s.(db := db, tasks := s.tasks[w := s.tasks[w].(phase := Marked)])
    case Raise(w) => s.(tasks := s.tasks[w := s.tasks[w].(phase := Raised)])
    case Finish(w) => s.(tasks := s.tasks - {w})
    case ReadAttempts(w) =>
      var job := s.db.jobs[s.tasks[w].target.id];
      s.(tasks := s.tasks[w := s.tasks[w].(phase := if job.attempts < job.maxAttempts then WillRequeue else WillFail)])
    case WriteFailure(w) =>
      var db := match s.tasks[w].target
        case ToJob(id) => if s.tasks[w].phase == WillRequeue then Requeue(s.db, id, s.now) else Fail(s.db, id, s.now)
        case ToRecipient(id) => SettleEmail(s.db, id, Undelivered, s.now);
      s.(db := db, tasks := s.tasks - {w})
    case Crash(w) => s.(tasks := s.tasks - {w})
  }

  // ------------------------------------------------------------------- runs

  datatype Run = Run(states: seq<Sys>, events: seq<Event>)

  ghost predicate Initial(s: Sys) {
    s.db == Db([], [], []) && s.tasks == map[]
  }

  ghost predicate ValidRun(run: Run) {
    && |run.states| == |run.events| + 1
    && Initial(run.states[0])
    && forall i | 0 <= i < |run.events| :: Follows(run, i)
  }

  ghost predicate Follows(run: Run, i: nat)
    requires i < |run.events| < |run.states|
  {
    Enabled(run.states[i], run.events[i]) && run.states[i + 1] == Step(run.states[i], run.events[i])
  }

  // The row a worker's write would hit, if its task is about a job.
  ghost predicate OnJob(s: Sys, w: nat, id: nat) {
    w in s.tasks && s.tasks[w].target == ToJob(id)
  }

  // A claim that takes over a row some worker left in 'processing' past its lease.
  ghost predicate TakesOver(s: Sys, e: Event, id: nat) {
    e.Claim? && e.job == id && id < |s.db.jobs| && s.db.jobs[id].status == Processing
  }

  ghost function Claims(run: Run, n: nat, id: nat): nat
    requires n <= |run.events|
  {
    if n == 0 then 0 else
    Claims(run, n - 1, id) + (if run.events[n - 1].Claim? && run.events[n - 1].job == id then 1 else 0)
  }

  ghost function Takeovers(run: Run, n: nat, id: nat): nat
    requires n <= |run.events| <= |run.states|
  {
    if n == 0 then 0 else
    Takeovers(run, n - 1, id) + (if TakesOver(run.states[n - 1], run.events[n - 1], id) then 1 else 0)
  }

  // --------------------------------------------------- shapes of the updates

  /** Creating a campaign only appends: old rows stay, new messages are fresh manual rows. */
  lemma {:induction false} AddRecipientsAppends(db: Db, campaign: nat, channel: Channel, targets: seq<bool>, now: int)
    ensures var d := AddRecipients(db, campaign, channel, targets, now);
      && |db.jobs| <= |d.jobs| && d.jobs[..|db.jobs|] == db.jobs
      && |d.recipients| == |db.recipients| + |targets| && d.recipients[..|db.recipients|] == db.recipients
      && d.campaigns == db.campaigns
      && forall i | |db.jobs| <= i < |d.jobs| :: d.jobs[i] == NewJob(Manual, DEFAULT_MAX_ATTEMPTS, now)
  {
    if targets == [] {
    } else {
      AddRecipientsAppends(db, campaign, channel, targets[..|targets| - 1], now);
    }
  }

  /** What any one step can do to the row of one job. */
  ghost predicate JobUpdate(s: Sys, e: Event, id: nat, job': Job)
    requires Enabled(s, e)
  {
    if id >= |s.db.jobs| then job'.status == Queued && job'.attempts == 0 && job'.leaseUntil == None else
    var job := s.db.jobs[id];
    if e.Claim? && e.job == id then
      job' == job.(status := Processing, attempts := job.attempts + 1, leaseUntil := Some(s.now + s.lease))
    else if e.Mark? && OnJob(s, e.worker, id) then
      job' == job.(status := Done, leaseUntil := if job.kind == Ai then job.leaseUntil else None)
    else if e.WriteFailure? && OnJob(s, e.worker, id) then
      if s.tasks[e.worker].phase == WillRequeue then
        job' == job.(status := Queued, leaseUntil := None,
          processAfter := if job.kind == Ai then s.now + BACKOFF_SECONDS * job.attempts else job.processAfter)
      else
        job' == job.(status := Failed, leaseUntil := if job.kind == Ai then job.leaseUntil else None)
    else
      job' == job
  }

  lemma StepUpdatesJobs(s: Sys, e: Event)
    requires Enabled(s, e)
    ensures |s.db.jobs| <= |Step(s, e).db.jobs|
    ensures forall id: nat | id < |Step(s, e).db.jobs| :: JobUpdate(s, e, id, Step(s, e).db.jobs[id])
  {
    if e.StartCampaign? {
      var db := s.db.(campaigns := s.db.campaigns +
        [Campaign(e.channel, e.scheduledAt, if true in e.targets then CampaignQueued else CampaignFailed)]);
      AddRecipientsAppends(db, |s.db.campaigns|, e.channel, e.targets, s.now);
      var jobs' := Step(s, e).db.jobs;
      forall id: nat | id < |jobs'| ensures JobUpdate(s, e, id, jobs'[id]) {
        if id < |s.db.jobs| { assert jobs'[..|s.db.jobs|][id] == s.db.jobs[id]; }
      }
    }
  }

  // The status a mark writes to the recipients linked to its manual message; a requeue writes none.
  function MarkedStatus(s: Sys, e: Event): Option<RecipientStatus>
    requires Enabled(s, e) && (e.Mark? || e.WriteFailure?)
  {
    if e.Mark? then Some(Sent) else if s.tasks[e.worker].phase == WillRequeue then None else Some(Undelivered)
  }

  /** What any one step does to the row of one recipient. */
  function RecipientAfter(s: Sys, e: Event, id: nat): Recipient
    requires Enabled(s, e) && id < |s.db.recipients|
  {
    var r := s.db.recipients[id];
    if e.ClaimEmail? && e.recipient == id then r.(status := Sending, updatedAt := s.now)
    else if e.Mark? || e.WriteFailure? then
      match s.tasks[e.worker].target
      case ToRecipient(i) =>
        if i == id then r.(status := if e.Mark? then Sent else Undelivered, updatedAt := s.now) else r
      case ToJob(i) =>
        if s.db.jobs[i].kind == Manual then Touched(r, i, MarkedStatus(s, e), s.now) else r
    else r
  }

  ghost predicate RecipientsFollow(s: Sys, e: Event, rs: seq<Recipient>)
    requires Enabled(s, e)
  {
    && |s.db.recipients| <= |rs|
    && (forall id: nat | id < |s.db.recipients| :: rs[id] == RecipientAfter(s, e, id))
    && (!e.StartCampaign? ==> |rs| == |s.db.recipients|)
  }

  lemma StepUpdatesRecipients(s: Sys, e: Event)
    requires Enabled(s, e)
    ensures RecipientsFollow(s, e, Step(s, e).db.recipients)
  {
    if e.StartCampaign? {
      var db := s.db.(campaigns := s.db.campaigns +
        [Campaign(e.channel, e.scheduledAt, if true in e.targets then CampaignQueued else CampaignFailed)]);
      AddRecipientsAppends(db, |s.db.campaigns|, e.channel, e.targets, s.now);
      var rs := Step(s, e).db.recipients;
      forall id: nat | id < |s.db.recipients| ensures rs[id] == RecipientAfter(s, e, id) {
        assert rs[..|s.db.recipients|][id] == s.db.recipients[id];
      }
    }
  }

  // A recipient as createCampaign leaves it: skipped, or to be sent through its own queue.
  predicate FreshRecipient(db: Db, r: Recipient) {
    && (r.status == ToSend || r.status == Skipped)
    && (r.status == ToSend && r.manualMessage.None? ==>
          r.hasEmail && r.campaign < |db.campaigns| && db.campaigns[r.campaign].channel == Email)
  }

  lemma {:induction false} AddedRecipientsAreFresh(
    db: Db, campaign: nat, channel: Channel, targets: seq<bool>, now: int, id: nat)
    requires campaign < |db.campaigns| && db.campaigns[campaign].channel == channel
    ensures var d := AddRecipients(db, campaign, channel, targets, now);
      |db.recipients| <= id < |d.recipients| ==> FreshRecipient(d, d.recipients[id])
  {
    if targets == [] {
    } else {
      AddedRecipientsAreFresh(db, campaign, channel, targets[..|targets| - 1], now, id);
      AddRecipientsAppends(db, campaign, channel, targets[..|targets| - 1], now);
    }
  }

  lemma NewRecipientsAreFresh(s: Sys, e: Event, id: nat)
    requires Enabled(s, e)
    ensures |s.db.recipients| <= id < |Step(s, e).db.recipients| ==>
      FreshRecipient(Step(s, e).db, Step(s, e).db.recipients[id])
  {
    StepUpdatesRecipients(s, e);
    if e.StartCampaign? {
      var status := if true in e.targets then CampaignQueued else CampaignFailed;
      var db := s.db.(campaigns := s.db.campaigns + [Campaign(e.channel, e.scheduledAt, status)]);
      AddedRecipientsAreFresh(db, |s.db.campaigns|, e.channel, e.targets, s.now, id);
      AddRecipientsAppends(db, |s.db.campaigns|, e.channel, e.targets, s.now);
    }
  }

  // ------------------------------------------------------- what rows say

  // A recipient of this campaign on the queue of its channel, skipped if it cannot be reached.
  ghost predicate MadeFor(r: Recipient, campaign: nat, channel: Channel, reachable: bool) {
    && r.campaign == campaign
    && (r.manualMessage.Some? <==> reachable && channel == Whatsapp)
    && (r.hasEmail <==> reachable && channel == Email)
    && (r.status == Skipped <==> !reachable)
  }

  /** The recipients of a new campaign, column by column, and the messages made for those on WhatsApp. */
  lemma {:induction false} AddedRecipientsSay(db: Db, campaign: nat, channel: Channel, targets: seq<bool>, now: int)
    ensures var d, n := AddRecipients(db, campaign, channel, targets, now), |db.recipients|;
      && |d.recipients| == n + |targets|
      && forall i | n <= i < n + |targets| ::
        MadeFor(d.recipients[i], campaign, channel, targets[i - n])
        && d.recipients[i].status in {ToSend, Skipped}
        && d.recipients[i].createdAt == d.recipients[i].updatedAt == now
    ensures var d := AddRecipients(db, campaign, channel, targets, now);
      && |db.jobs| <= |d.jobs|
      && forall i | |db.jobs| <= i < |d.jobs| :: d.jobs[i] == Job(Manual, Queued, 0, 3, now, None, now)
  {
    if targets == [] {
    } else {
      var init, last := targets[..|targets| - 1], targets[|targets| - 1];
      var d, n := AddRecipients(db, campaign, channel, init, now), |db.recipients|;
      AddedRecipientsSay(db, campaign, channel, init, now);
      AddedRecipientSays(d, campaign, channel, last, now);
      var all := AddRecipients(db, campaign, channel, targets, now);
      assert all == AddRecipient(d, campaign, channel, last, now);
      forall i | n <= i < n + |init| ensures all.recipients[i] == d.recipients[i] && targets[i - n] == init[i - n] {
        assert all.recipients[..|d.recipients|][i] == d.recipients[i];
      }
    }
  }

  lemma AddedRecipientSays(db: Db, campaign: nat, channel: Channel, deliverable: bool, now: int)
    ensures var d := AddRecipient(db, campaign, channel, deliverable, now);
      && d.recipients[..|db.recipients|] == db.recipients && |d.recipients| == |db.recipients| + 1
      && var r := d.recipients[|db.recipients|];
      && r == Recipient(campaign, r.manualMessage, deliverable && channel == Email,
                        if deliverable then ToSend else Skipped, now, now)
      && r.manualMessage == (if deliverable && channel == Whatsapp then Some(|db.jobs|) else None)
      && d.jobs == if deliverable && channel == Whatsapp then db.jobs + [Job(Manual, Queued, 0, 3, now, None, now)]
                   else db.jobs
  {
  }

  /** Campaigns are only added, with the channel and schedule asked for, and those never change. */
  lemma StepKeepsCampaigns(s: Sys, e: Event)
    requires Enabled(s, e)
    ensures |Step(s, e).db.campaigns| == |s.db.campaigns| + (if e.StartCampaign? then 1 else 0)
    ensures forall c | 0 <= c < |s.db.campaigns| ::
      Step(s, e).db.campaigns[c].channel == s.db.campaigns[c].channel
      && Step(s, e).db.campaigns[c].scheduledAt == s.db.campaigns[c].scheduledAt
    ensures e.StartCampaign? ==>
      var c := Step(s, e).db.campaigns[|s.db.campaigns|];
      c.channel == e.channel && c.scheduledAt == e.scheduledAt
  {
    if e.StartCampaign? {
      var status := if true in e.targets then CampaignQueued else CampaignFailed;
      var db := s.db.(campaigns := s.db.campaigns + [Campaign(e.channel, e.scheduledAt, status)]);
      AddRecipientsAppends(db, |s.db.campaigns|, e.channel, e.targets, s.now);
    }
  }
}
