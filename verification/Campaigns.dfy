/**
 Campaign status as a summary of its recipients, and recipients as mirrors of their manual messages, over every run
 of the delivery system.  Each transaction is one step, so the counts that refresh_campaign_status reads are current.
 */
module Campaigns {
  import opened Wrappers
  import opened DeliveryModel
  import opened DeliveryLeases

  // ------------------------------------------------ the summary, by definition

  ghost predicate HasAny(recipients: seq<Recipient>, campaign: nat, statuses: set<RecipientStatus>) {
    exists i :: 0 <= i < |recipients| && recipients[i].campaign == campaign && recipients[i].status in statuses
  }

  const ADDRESSED: set<RecipientStatus> := {ToSend, Sending, Sent, Undelivered}

  ghost function Summary(recipients: seq<Recipient>, campaign: nat): CampaignStatus {
    if !HasAny(recipients, campaign, ADDRESSED) then CampaignFailed
    else if HasAny(recipients, campaign, PENDING) then CampaignQueued
    else if HasAny(recipients, campaign, UNDELIVERED) then CampaignFailed
    else CampaignSent
  }

  ghost predicate Summarized(db: Db) {
    forall c: nat | c < |db.campaigns| :: db.campaigns[c].status == Summary(db.recipients, c)
  }

  // The joins between the tables.
  ghost predicate Linked(db: Db) {
    && (forall i | 0 <= i < |db.recipients| :: db.recipients[i].campaign < |db.campaigns|)
    && (forall i | 0 <= i < |db.recipients| && db.recipients[i].manualMessage.Some? ::
          db.recipients[i].manualMessage.value < |db.jobs|
          && db.jobs[db.recipients[i].manualMessage.value].kind == Manual
          && db.recipients[i].status in {ToSend, Sent, Undelivered})
    && (forall i, j | 0 <= i < j < |db.recipients| && db.recipients[i].manualMessage.Some? ::
          db.recipients[i].manualMessage != db.recipients[j].manualMessage)
  }

  ghost predicate MailTasksLinked(s: Sys) {
    forall w | w in s.tasks && s.tasks[w].target.ToRecipient? ::
      var id := s.tasks[w].target.id;
      id < |s.db.recipients| && s.db.recipients[id].manualMessage.None? && s.db.recipients[id].status != Skipped
  }

  // ------------------------------------------------------- counting is asking

  lemma {:induction false} CountIsPresence(recipients: seq<Recipient>, campaign: nat, statuses: set<RecipientStatus>)
    ensures CountIn(recipients, campaign, statuses) != 0 <==> HasAny(recipients, campaign, statuses)
  {
    if recipients == [] {
    } else {
      var n := |recipients| - 1;
      CountIsPresence(recipients[..n], campaign, statuses);
      if HasAny(recipients[..n], campaign, statuses) {
        var i :| 0 <= i < n && recipients[..n][i].campaign == campaign && recipients[..n][i].status in statuses;
        assert recipients[i].campaign == campaign && recipients[i].status in statuses;
      }
      var last := recipients[n];
      if HasAny(recipients, campaign, statuses) && !(last.campaign == campaign && last.status in statuses) {
        var i :| 0 <= i <= n && recipients[i].campaign == campaign && recipients[i].status in statuses;
        assert recipients[..n][i] == recipients[i];
      }
    }
  }

  // Recipients of one campaign unchanged as to the statuses asked about.
  ghost predicate SameFor(a: seq<Recipient>, b: seq<Recipient>, campaign: nat, statuses: set<RecipientStatus>) {
    && |a| <= |b|
    && (forall i | 0 <= i < |a| :: b[i].campaign == a[i].campaign)
    && (forall i | 0 <= i < |a| && a[i].campaign == campaign :: b[i].status in statuses <==> a[i].status in statuses)
    && (forall i | |a| <= i < |b| :: b[i].campaign != campaign)
  }

  lemma SameForSamePresence(a: seq<Recipient>, b: seq<Recipient>, campaign: nat, statuses: set<RecipientStatus>)
    requires SameFor(a, b, campaign, statuses)
    ensures HasAny(a, campaign, statuses) <==> HasAny(b, campaign, statuses)
  {
    if HasAny(a, campaign, statuses) {
      var i :| 0 <= i < |a| && a[i].campaign == campaign && a[i].status in statuses;
      assert b[i].campaign == campaign && b[i].status in statuses;
    }
  }

  lemma SameForSameSummary(a: seq<Recipient>, b: seq<Recipient>, campaign: nat)
    requires SameFor(a, b, campaign, ADDRESSED) && SameFor(a, b, campaign, PENDING)
      && SameFor(a, b, campaign, UNDELIVERED)
    ensures Summary(a, campaign) == Summary(b, campaign)
  {
    SameForSamePresence(a, b, campaign, ADDRESSED);
    SameForSamePresence(a, b, campaign, PENDING);
    SameForSamePresence(a, b, campaign, UNDELIVERED);
  }

  /** One recipient settles, and the refresh restores the summary of every campaign. */
  lemma SettlingOneKeepsSummaries(db: Db, k: nat, status: RecipientStatus, now: int)
    requires Linked(db) && Summarized(db) && k < |db.recipients|
    requires db.recipients[k].status != Skipped && status in {Sent, Undelivered}
    ensures Summarized(SettleEmail(db, k, status, now))
  {
    var c0 := db.recipients[k].campaign;
    var set1 := SetRecipient(db, k, status, now);
    var d := SettleEmail(db, k, status, now);
    assert d.recipients == set1.recipients && |d.campaigns| == |db.campaigns|;
    forall c: nat | c < |d.campaigns| ensures d.campaigns[c].status == Summary(d.recipients, c) {
      if c != c0 {
        SameForSameSummary(db.recipients, d.recipients, c);
      } else {
        SettledCampaign(db, k, status, now);
      }
    }
  }

  lemma SettledCampaign(db: Db, k: nat, status: RecipientStatus, now: int)
    requires Linked(db) && Summarized(db) && k < |db.recipients|
    requires db.recipients[k].status != Skipped && status in {Sent, Undelivered}
    ensures var d := SettleEmail(db, k, status, now);
      var c := db.recipients[k].campaign;
      |d.campaigns| == |db.campaigns| && d.campaigns[c].status == Summary(d.recipients, c)
  {
    var c := db.recipients[k].campaign;
    var rs, rs' := db.recipients, SetRecipient(db, k, status, now).recipients;
    CountIsPresence(rs', c, PENDING);
    CountIsPresence(rs', c, UNDELIVERED);
    assert rs'[k].campaign == c && rs'[k].status in ADDRESSED;
    assert rs[k].campaign == c && rs[k].status in ADDRESSED;
    if HasAny(rs', c, PENDING) {
      var i :| 0 <= i < |rs'| && rs'[i].campaign == c && rs'[i].status in PENDING;
      assert rs[i].campaign == c && rs[i].status in PENDING;
    }
  }

  // -------------------------------------------- the linked update is that one

  lemma {:induction false} LinkedCampaignIsFirst(recipients: seq<Recipient>, id: nat, k: nat)
    requires k < |recipients| && recipients[k].manualMessage == Some(id)
    requires forall i | 0 <= i < |recipients| && i != k :: recipients[i].manualMessage != Some(id)
    ensures LinkedCampaign(recipients, id) == Some(recipients[k].campaign)
  {
    if k == 0 {
    } else {
      LinkedCampaignIsFirst(recipients[1..], id, k - 1);
    }
  }

  lemma {:induction false} NoLinkNoCampaign(recipients: seq<Recipient>, id: nat)
    requires forall i | 0 <= i < |recipients| :: recipients[i].manualMessage != Some(id)
    ensures LinkedCampaign(recipients, id) == None
  {
    if recipients == [] {
    } else {
      NoLinkNoCampaign(recipients[1..], id);
    }
  }

  lemma SettleLinkedSettlesOne(db: Db, id: nat, status: RecipientStatus, now: int)
    requires Linked(db)
    ensures if exists k: nat :: k < |db.recipients| && db.recipients[k].manualMessage == Some(id)
      then exists k: nat :: k < |db.recipients| && db.recipients[k].manualMessage == Some(id)
             && SettleLinked(db, id, status, now) == SettleEmail(db, k, status, now)
      else SettleLinked(db, id, status, now) == db
  {
    var rs' := TouchLinked(db.recipients, id, Some(status), now);
    if k: nat :| k < |db.recipients| && db.recipients[k].manualMessage == Some(id) {
      LinkedCampaignIsFirst(db.recipients, id, k);
      assert rs' == SetRecipient(db, k, status, now).recipients;
      assert SettleLinked(db, id, status, now) == SettleEmail(db, k, status, now);
    } else {
      NoLinkNoCampaign(db.recipients, id);
      assert rs' == db.recipients;
    }
  }

  lemma SettlingLinkedKeepsSummaries(db: Db, id: nat, status: RecipientStatus, now: int)
    requires Linked(db) && Summarized(db) && status in {Sent, Undelivered}
    ensures Summarized(SettleLinked(db, id, status, now))
    ensures |SettleLinked(db, id, status, now).campaigns| == |db.campaigns|
  {
    SettleLinkedSettlesOne(db, id, status, now);
    if exists k: nat :: k < |db.recipients| && db.recipients[k].manualMessage == Some(id) {
      var k: nat :| k < |db.recipients| && db.recipients[k].manualMessage == Some(id)
        && SettleLinked(db, id, status, now) == SettleEmail(db, k, status, now);
      SettlingOneKeepsSummaries(db, k, status, now);
    }
  }

  // ------------------------------------------------------ creating a campaign

  ghost predicate AddedRows(db: Db, d: Db, campaign: nat, targets: seq<bool>) {
    var n := |db.recipients|;
    && |d.recipients| == n + |targets|
    && (forall i | n <= i < |d.recipients| ::
          d.recipients[i].campaign == campaign
          && d.recipients[i].status == (if targets[i - n] then ToSend else Skipped))
    && (forall i | n <= i < |d.recipients| && d.recipients[i].manualMessage.Some? ::
          |db.jobs| <= d.recipients[i].manualMessage.value < |d.jobs| && d.recipients[i].status == ToSend)
    && (forall i, j | n <= i < j < |d.recipients| && d.recipients[i].manualMessage.Some? ::
          d.recipients[i].manualMessage != d.recipients[j].manualMessage)
  }

  lemma {:induction false} AddRecipientsRows(db: Db, campaign: nat, channel: Channel, targets: seq<bool>, now: int)
    ensures AddedRows(db, AddRecipients(db, campaign, channel, targets, now), campaign, targets)
  {
    if targets == [] {
    } else {
      var init := targets[..|targets| - 1];
      AddRecipientsRows(db, campaign, channel, init, now);
      AddRecipientsAppends(db, campaign, channel, init, now);
      AddedRowsGrow(db, AddRecipients(db, campaign, channel, init, now), campaign, channel, targets, now);
    }
  }

  lemma AddedRowsGrow(db: Db, d: Db, campaign: nat, channel: Channel, targets: seq<bool>, now: int)
    requires targets != [] && AddedRows(db, d, campaign, targets[..|targets| - 1]) && |db.jobs| <= |d.jobs|
    ensures AddedRows(db, AddRecipient(d, campaign, channel, targets[|targets| - 1], now), campaign, targets)
  {
    var grown := AddRecipient(d, campaign, channel, targets[|targets| - 1], now);
    assert grown.recipients[..|d.recipients|] == d.recipients;
    assert forall i | 0 <= i < |targets| - 1 :: targets[..|targets| - 1][i] == targets[i];
  }

  lemma CreationKeepsInvariants(db: Db, channel: Channel, at: Option<int>, targets: seq<bool>, now: int)
    requires Linked(db) && Summarized(db)
    ensures Linked(CreateCampaign(db, channel, at, targets, now))
    ensures Summarized(CreateCampaign(db, channel, at, targets, now))
  {
    var c := |db.campaigns|;
    var status := if true in targets then CampaignQueued else CampaignFailed;
    var base := db.(campaigns := db.campaigns + [Campaign(channel, at, status)]);
    var d := CreateCampaign(db, channel, at, targets, now);
    AddRecipientsAppends(base, c, channel, targets, now);
    AddRecipientsRows(base, c, channel, targets, now);
    assert AddedRows(db, d, c, targets);
    Appended(db, d, c, targets);
    forall k: nat | k < |d.campaigns| ensures d.campaigns[k].status == Summary(d.recipients, k) {
      if k < c {
        SameForSameSummary(db.recipients, d.recipients, k);
      } else {
        NewCampaignSummary(db, d, c, targets);
      }
    }
  }

  lemma Appended(db: Db, d: Db, c: nat, targets: seq<bool>)
    requires Linked(db) && c == |db.campaigns| && |d.campaigns| == c + 1
    requires |db.jobs| <= |d.jobs| && d.jobs[..|db.jobs|] == db.jobs
    requires |db.recipients| <= |d.recipients| && d.recipients[..|db.recipients|] == db.recipients
    requires forall i | |db.jobs| <= i < |d.jobs| :: d.jobs[i].kind == Manual
    requires AddedRows(db, d, c, targets)
    ensures Linked(d)
    ensures forall i | 0 <= i < |db.recipients| :: d.recipients[i] == db.recipients[i]
    ensures forall i | |db.recipients| <= i < |d.recipients| :: d.recipients[i].campaign == c
  {
    var n := |db.recipients|;
    forall i | 0 <= i < n ensures d.recipients[i] == db.recipients[i] {
      assert d.recipients[..n][i] == db.recipients[i];
    }
    forall i | 0 <= i < |db.jobs| ensures d.jobs[i] == db.jobs[i] {
      assert d.jobs[..|db.jobs|][i] == db.jobs[i];
    }
  }

  lemma NewCampaignSummary(db: Db, d: Db, c: nat, targets: seq<bool>)
    requires Linked(db) && c == |db.campaigns| && AddedRows(db, d, c, targets)
    requires d.recipients[..|db.recipients|] == db.recipients
    ensures Summary(d.recipients, c) == if true in targets then CampaignQueued else CampaignFailed
  {
    var n := |db.recipients|;
    forall i | 0 <= i < n ensures d.recipients[i].campaign != c {
      assert d.recipients[..n][i] == db.recipients[i];
    }
    if true in targets {
      var i :| 0 <= i < |targets| && targets[i];
      var k := n + i;
      assert d.recipients[k].campaign == c && d.recipients[k].status in ADDRESSED && d.recipients[k].status in PENDING;
    }
  }

  // ------------------------------------------------------------ every step

  ghost predicate Sound(s: Sys) {
    Linked(s.db) && Summarized(s.db) && MailTasksLinked(s)
  }

  lemma StepKeepsLinks(s: Sys, e: Event)
    requires Enabled(s, e) && Sound(s) && !e.StartCampaign?
    ensures |Step(s, e).db.campaigns| == |s.db.campaigns| ==> Linked(Step(s, e).db)
  {
    StepUpdatesJobs(s, e);
    StepUpdatesRecipients(s, e);
    var d := Step(s, e).db;
    forall i: nat | i < |d.recipients|
      ensures d.recipients[i].campaign == s.db.recipients[i].campaign
      ensures d.recipients[i].manualMessage == s.db.recipients[i].manualMessage
      ensures d.recipients[i].manualMessage.Some? ==> d.recipients[i].status in {ToSend, Sent, Undelivered}
    {
      assert d.recipients[i] == RecipientAfter(s, e, i);
    }
    forall m: nat | m < |s.db.jobs| ensures d.jobs[m].kind == s.db.jobs[m].kind {
      assert JobUpdate(s, e, m, d.jobs[m]);
    }
  }

  lemma StepKeepsMailTasks(s: Sys, e: Event)
    requires Enabled(s, e) && Sound(s)
    ensures MailTasksLinked(Step(s, e))
  {
    StepUpdatesRecipients(s, e);
    var t := Step(s, e);
    forall w | w in t.tasks && t.tasks[w].target.ToRecipient?
      ensures var id := t.tasks[w].target.id;
        id < |t.db.recipients| && t.db.recipients[id].manualMessage.None? && t.db.recipients[id].status != Skipped
    {
      var id := t.tasks[w].target.id;
      assert id < |s.db.recipients|;
      assert t.db.recipients[id] == RecipientAfter(s, e, id);
    }
  }

  lemma UnmarkedStepKeepsSummaries(s: Sys, e: Event)
    requires Enabled(s, e) && Sound(s) && !e.StartCampaign? && !e.Mark? && !e.WriteFailure?
    ensures Summarized(Step(s, e).db) && |Step(s, e).db.campaigns| == |s.db.campaigns|
  {
    StepUpdatesRecipients(s, e);
    var d := Step(s, e).db;
    forall c: nat | c < |d.campaigns| ensures d.campaigns[c].status == Summary(d.recipients, c) {
      forall i: nat | i < |d.recipients|
        ensures d.recipients[i] == s.db.recipients[i]
          || (d.recipients[i].campaign == s.db.recipients[i].campaign
              && d.recipients[i].status in PENDING && s.db.recipients[i].status in PENDING)
      {
        assert d.recipients[i] == RecipientAfter(s, e, i);
      }
      SameForSameSummary(s.db.recipients, d.recipients, c);
    }
  }

  lemma RequeueKeepsSummaries(db: Db, id: nat, now: int)
    requires Linked(db) && Summarized(db) && id < |db.jobs|
    ensures Summarized(Requeue(db, id, now)) && |Requeue(db, id, now).campaigns| == |db.campaigns|
  {
    var d := Requeue(db, id, now);
    forall c: nat | c < |d.campaigns| ensures d.campaigns[c].status == Summary(d.recipients, c) {
      SameForSameSummary(db.recipients, d.recipients, c);
    }
  }

  lemma JobsDoNotMatter(db: Db, jobs: seq<Job>)
    requires Linked(db) && Summarized(db) && |jobs| == |db.jobs|
    requires forall m | 0 <= m < |jobs| :: jobs[m].kind == db.jobs[m].kind
    ensures Linked(db.(jobs := jobs)) && Summarized(db.(jobs := jobs))
  {
  }

  lemma MarkKeepsSummaries(s: Sys, e: Event)
    requires Enabled(s, e) && Sound(s) && (e.Mark? || e.WriteFailure?)
    ensures Summarized(Step(s, e).db) && |Step(s, e).db.campaigns| == |s.db.campaigns|
  {
    var task := s.tasks[e.worker];
    match task.target
    case ToRecipient(id) =>
      SettlingOneKeepsSummaries(s.db, id, if e.Mark? then Sent else Undelivered, s.now);
    case ToJob(id) =>
      if e.WriteFailure? && task.phase == WillRequeue {
        RequeueKeepsSummaries(s.db, id, s.now);
      } else {
        var status := if e.Mark? then Done else Failed;
        var jobs := s.db.jobs[id := s.db.jobs[id].(status := status, leaseUntil := None)];
        JobsDoNotMatter(s.db, jobs);
        SettlingLinkedKeepsSummaries(s.db.(jobs := jobs), id, if e.Mark? then Sent else Undelivered, s.now);
      }
  }

  lemma StepKeepsSound(s: Sys, e: Event)
    requires Enabled(s, e) && Sound(s)
    ensures Sound(Step(s, e))
  {
    StepKeepsMailTasks(s, e);
    if e.StartCampaign? {
      CreationKeepsInvariants(s.db, e.channel, e.scheduledAt, e.targets, s.now);
    } else {
      StepKeepsLinks(s, e);
      if e.Mark? || e.WriteFailure? {
        MarkKeepsSummaries(s, e);
      } else {
        UnmarkedStepKeepsSummaries(s, e);
      }
    }
  }

  lemma {:induction false} RunIsSound(run: Run, n: nat)
    requires ValidRun(run) && n <= |run.events|
    ensures Sound(run.states[n])
  {
    if n == 0 {
    } else {
      RunIsSound(run, n - 1);
      assert Follows(run, n - 1);
      StepKeepsSound(run.states[n - 1], run.events[n - 1]);
    }
  }

  /** In every reachable state, stale workers included, a campaign's status is the summary of its recipients. */
  lemma CampaignStatusIsSummary(run: Run, n: nat, c: nat)
    requires ValidRun(run) && n <= |run.events| && c < |run.states[n].db.campaigns|
    ensures var db := run.states[n].db;
      db.campaigns[c].status == Summary(db.recipients, c)
  {
    RunIsSound(run, n);
  }

  // ---------------------------------------------- recipients move one way

  /** One step never makes a settled or skipped recipient pending, and neither skips nor un-skips one. */
  lemma RecipientsMoveForward(s: Sys, e: Event, id: nat)
    requires Enabled(s, e) && Sound(s) && id < |s.db.recipients|
    ensures id < |Step(s, e).db.recipients|
    ensures RecipientPending(Step(s, e).db.recipients[id].status) ==> RecipientPending(s.db.recipients[id].status)
    ensures Step(s, e).db.recipients[id].status == Skipped <==> s.db.recipients[id].status == Skipped
    ensures Step(s, e).db.recipients[id].campaign == s.db.recipients[id].campaign
    ensures Step(s, e).db.recipients[id].manualMessage == s.db.recipients[id].manualMessage
  {
    StepUpdatesRecipients(s, e);
    assert Step(s, e).db.recipients[id] == RecipientAfter(s, e, id);
  }

  /** Over any stretch of any run, terminal recipients never become pending again. */
  lemma {:induction false} SettledRecipientsStay(run: Run, m: nat, n: nat, id: nat)
    requires ValidRun(run) && m <= n <= |run.events|
    requires id < |run.states[m].db.recipients| && !RecipientPending(run.states[m].db.recipients[id].status)
    ensures id < |run.states[n].db.recipients| && !RecipientPending(run.states[n].db.recipients[id].status)
  {
    if m == n {
    } else {
      SettledRecipientsStay(run, m, n - 1, id);
      RunIsSound(run, n - 1);
      assert Follows(run, n - 1);
      RecipientsMoveForward(run.states[n - 1], run.events[n - 1], id);
    }
  }

  // The worker's write reaches the recipient, directly or through its message.
  ghost predicate Reaches(s: Sys, w: nat, id: nat)
    requires id < |s.db.recipients|
  {
    && w in s.tasks
    && match s.tasks[w].target
      case ToRecipient(i) => i == id
      case ToJob(i) => s.db.recipients[id].manualMessage == Some(i)
  }

  // A mark that finds the recipient settled and writes the other outcome; queue.py does not test for this.
  ghost predicate FlipsRecipient(s: Sys, e: Event, id: nat) {
    && id < |s.db.recipients|
    && (e.Mark? || e.WriteFailure?) && Reaches(s, e.worker, id)
    && if e.Mark? then s.db.recipients[id].status == Undelivered
       else s.db.recipients[id].status == Sent && s.tasks[e.worker].phase != WillRequeue
  }

  ghost predicate RecipientKeptAt(run: Run, k: nat, id: nat)
    requires k < |run.events| < |run.states|
  {
    id < |run.states[k].db.recipients| && !RecipientPending(run.states[k].db.recipients[id].status) ==>
      id < |run.states[k + 1].db.recipients|
      && run.states[k + 1].db.recipients[id].status == run.states[k].db.recipients[id].status
  }

  lemma StepKeepsRecipientIff(s: Sys, e: Event, id: nat)
    requires Enabled(s, e) && Sound(s) && id < |s.db.recipients| && !RecipientPending(s.db.recipients[id].status)
    ensures id < |Step(s, e).db.recipients|
    ensures Step(s, e).db.recipients[id].status == s.db.recipients[id].status <==> !FlipsRecipient(s, e, id)
  {
    StepUpdatesRecipients(s, e);
    assert Step(s, e).db.recipients[id] == RecipientAfter(s, e, id);
  }

  /**
   In any run a settled recipient, e-mail or WhatsApp, keeps its outcome at every step exactly if no mark reaches it
   with the other one.
   */
  lemma SettledRecipientKeptIff(run: Run, id: nat)
    requires ValidRun(run)
    ensures (forall k: nat | k < |run.events| :: RecipientKeptAt(run, k, id))
      <==> (forall k: nat | k < |run.events| :: !FlipsRecipient(run.states[k], run.events[k], id))
  {
    forall k: nat | k < |run.events|
      ensures RecipientKeptAt(run, k, id) <==> !FlipsRecipient(run.states[k], run.events[k], id)
    {
      assert Follows(run, k);
      RunIsSound(run, k);
      var s := run.states[k];
      if id < |s.db.recipients| && !RecipientPending(s.db.recipients[id].status) {
        StepKeepsRecipientIff(s, run.events[k], id);
      }
    }
  }

  const SKIPPED: set<RecipientStatus> := {Skipped}

  lemma {:induction false} SameForSameCount(
    a: seq<Recipient>, b: seq<Recipient>, campaign: nat, statuses: set<RecipientStatus>)
    requires SameFor(a, b, campaign, statuses)
    ensures CountIn(a, campaign, statuses) == CountIn(b, campaign, statuses)
    decreases |b|
  {
    if |b| > |a| {
      SameForSameCount(a, b[..|b| - 1], campaign, statuses);
    } else if a != [] {
      var n := |a| - 1;
      SameForSameCount(a[..n], b[..n], campaign, statuses);
    }
  }

  lemma NewRowsBelongToNewCampaigns(s: Sys, e: Event)
    requires Enabled(s, e) && Sound(s)
    ensures |s.db.recipients| <= |Step(s, e).db.recipients|
    ensures forall i: nat | |s.db.recipients| <= i < |Step(s, e).db.recipients| ::
      Step(s, e).db.recipients[i].campaign >= |s.db.campaigns|
  {
    StepUpdatesRecipients(s, e);
    if e.StartCampaign? {
      var base := s.db.(campaigns := s.db.campaigns +
        [Campaign(e.channel, e.scheduledAt, if true in e.targets then CampaignQueued else CampaignFailed)]);
      AddRecipientsRows(base, |s.db.campaigns|, e.channel, e.targets, s.now);
    }
  }

  lemma {:induction false} CampaignsGrow(run: Run, m: nat, n: nat)
    requires ValidRun(run) && m <= n <= |run.events|
    ensures |run.states[m].db.campaigns| <= |run.states[n].db.campaigns|
  {
    if m == n {
    } else {
      CampaignsGrow(run, m, n - 1);
      var s, e := run.states[n - 1], run.events[n - 1];
      RunIsSound(run, n - 1);
      assert Follows(run, n - 1);
      CampaignsGrowByStep(s, e);
    }
  }

  lemma CampaignsGrowByStep(s: Sys, e: Event)
    requires Enabled(s, e) && Sound(s)
    ensures |s.db.campaigns| <= |Step(s, e).db.campaigns|
  {
    if e.StartCampaign? {
      var base := s.db.(campaigns := s.db.campaigns +
        [Campaign(e.channel, e.scheduledAt, if true in e.targets then CampaignQueued else CampaignFailed)]);
      AddRecipientsAppends(base, |s.db.campaigns|, e.channel, e.targets, s.now);
    } else if e.Mark? || e.WriteFailure? {
      MarkKeepsSummaries(s, e);
    }
  }

  lemma StepKeepsSkippedCount(s: Sys, e: Event, c: nat)
    requires Enabled(s, e) && Sound(s) && c < |s.db.campaigns|
    ensures CountIn(Step(s, e).db.recipients, c, SKIPPED) == CountIn(s.db.recipients, c, SKIPPED)
  {
    NewRowsBelongToNewCampaigns(s, e);
    var rs, rs' := s.db.recipients, Step(s, e).db.recipients;
    forall id: nat | id < |rs|
      ensures rs'[id].campaign == rs[id].campaign && (rs'[id].status in SKIPPED <==> rs[id].status in SKIPPED)
    {
      RecipientsMoveForward(s, e, id);
    }
    SameForSameCount(rs, rs', c, SKIPPED);
  }

  /** The skipped count of a campaign never changes after its creation. */
  lemma {:induction false} SkippedCountIsFixed(run: Run, m: nat, n: nat, c: nat)
    requires ValidRun(run) && m <= n <= |run.events| && c < |run.states[m].db.campaigns|
    ensures CountIn(run.states[n].db.recipients, c, SKIPPED) == CountIn(run.states[m].db.recipients, c, SKIPPED)
  {
    if m == n {
    } else {
      SkippedCountIsFixed(run, m, n - 1, c);
      CampaignsGrow(run, m, n - 1);
      RunIsSound(run, n - 1);
      assert Follows(run, n - 1);
      StepKeepsSkippedCount(run.states[n - 1], run.events[n - 1], c);
    }
  }

  // ------------------------------------------------- recipients as mirrors

  // Whatever happens later, a settled message has settled its recipient the same way.
  ghost predicate Mirrored(db: Db)
    requires Linked(db)
  {
    forall i | 0 <= i < |db.recipients| && db.recipients[i].manualMessage.Some? ::
      var job := db.jobs[db.recipients[i].manualMessage.value];
      && (job.status == Done ==> db.recipients[i].status == Sent)
      && (job.status == Failed ==> db.recipients[i].status == Undelivered)
  }

  lemma OldRowsStayMirrored(s: Sys, e: Event, i: nat)
    requires Enabled(s, e) && Sound(s) && Mirrored(s.db) && i < |s.db.recipients|
    requires s.db.recipients[i].manualMessage.Some?
    ensures var d := Step(s, e).db;
      && i < |d.recipients| && d.recipients[i].manualMessage == s.db.recipients[i].manualMessage
      && d.recipients[i].manualMessage.value < |d.jobs|
      && var job := d.jobs[d.recipients[i].manualMessage.value];
      (job.status == Done ==> d.recipients[i].status == Sent)
      && (job.status == Failed ==> d.recipients[i].status == Undelivered)
  {
    RecipientsMoveForward(s, e, i);
    StepUpdatesRecipients(s, e);
    StepUpdatesJobs(s, e);
    var d := Step(s, e).db;
    var m := s.db.recipients[i].manualMessage.value;
    assert d.recipients[i] == RecipientAfter(s, e, i);
    assert JobUpdate(s, e, m, d.jobs[m]);
  }

  lemma StepKeepsMirrored(s: Sys, e: Event)
    requires Enabled(s, e) && Sound(s) && Mirrored(s.db)
    ensures Sound(Step(s, e)) && Mirrored(Step(s, e).db)
  {
    StepKeepsSound(s, e);
    StepUpdatesRecipients(s, e);
    var d := Step(s, e).db;
    forall i: nat | i < |d.recipients| && d.recipients[i].manualMessage.Some?
      ensures var job := d.jobs[d.recipients[i].manualMessage.value];
        (job.status == Done ==> d.recipients[i].status == Sent)
        && (job.status == Failed ==> d.recipients[i].status == Undelivered)
    {
      if i < |s.db.recipients| {
        RecipientsMoveForward(s, e, i);
        OldRowsStayMirrored(s, e, i);
      } else {
        NewLinkIsQueued(s, e, i);
      }
    }
  }

  lemma NewLinkIsQueued(s: Sys, e: Event, i: nat)
    requires Enabled(s, e) && Sound(s) && |s.db.recipients| <= i < |Step(s, e).db.recipients|
    requires Step(s, e).db.recipients[i].manualMessage.Some?
    ensures var d := Step(s, e).db;
      var m := d.recipients[i].manualMessage.value;
      |s.db.jobs| <= m < |d.jobs| && d.jobs[m].status == Queued && d.recipients[i].status == ToSend
  {
    StepUpdatesRecipients(s, e);
    var base := s.db.(campaigns := s.db.campaigns +
      [Campaign(e.channel, e.scheduledAt, if true in e.targets then CampaignQueued else CampaignFailed)]);
    AddRecipientsRows(base, |s.db.campaigns|, e.channel, e.targets, s.now);
    AddRecipientsAppends(base, |s.db.campaigns|, e.channel, e.targets, s.now);
  }

  /** In every run: message sent implies recipient sent, and message failed implies recipient failed. */
  lemma {:induction false} RecipientsMirrorMessages(run: Run, n: nat)
    requires ValidRun(run) && n <= |run.events|
    ensures Sound(run.states[n]) && Mirrored(run.states[n].db)
  {
    if n == 0 {
    } else {
      RecipientsMirrorMessages(run, n - 1);
      assert Follows(run, n - 1);
      StepKeepsMirrored(run.states[n - 1], run.events[n - 1]);
    }
  }

  // The mirror is exact when pending messages too have pending recipients.
  ghost predicate ExactFor(db: Db, i: nat) {
    i < |db.recipients| && db.recipients[i].manualMessage.Some? && db.recipients[i].manualMessage.value < |db.jobs| ==>
      (db.recipients[i].status == ToSend <==> !Terminal(db.jobs[db.recipients[i].manualMessage.value].status))
  }

  // mark_manual_failed puts a message back in the queue that was settled already.
  ghost predicate RequeuesSettledMessageOf(s: Sys, e: Event, i: nat) {
    && i < |s.db.recipients| && s.db.recipients[i].manualMessage.Some?
    && e.WriteFailure? && OnJob(s, e.worker, s.db.recipients[i].manualMessage.value)
    && s.tasks[e.worker].phase == WillRequeue
    && s.db.recipients[i].manualMessage.value < |s.db.jobs|
    && Terminal(s.db.jobs[s.db.recipients[i].manualMessage.value].status)
  }

  lemma StepExactIff(s: Sys, e: Event, i: nat)
    requires Enabled(s, e) && Sound(s) && Mirrored(s.db) && ExactFor(s.db, i)
    ensures ExactFor(Step(s, e).db, i) <==> !RequeuesSettledMessageOf(s, e, i)
  {
    StepKeepsMirrored(s, e);
    var d := Step(s, e).db;
    StepUpdatesRecipients(s, e);
    if i < |s.db.recipients| {
      RecipientsMoveForward(s, e, i);
      assert d.recipients[i] == RecipientAfter(s, e, i);
      if s.db.recipients[i].manualMessage.Some? {
        var m := s.db.recipients[i].manualMessage.value;
        StepUpdatesJobs(s, e);
        assert JobUpdate(s, e, m, d.jobs[m]);
      }
    } else if i < |d.recipients| && d.recipients[i].manualMessage.Some? {
      NewLinkIsQueued(s, e, i);
    }
  }

  lemma {:induction false} ExactUpTo(run: Run, n: nat, i: nat)
    requires ValidRun(run) && n <= |run.events|
    requires forall k: nat | k < n :: !RequeuesSettledMessageOf(run.states[k], run.events[k], i)
    ensures ExactFor(run.states[n].db, i)
  {
    if n == 0 {
    } else {
      ExactUpTo(run, n - 1, i);
      RecipientsMirrorMessages(run, n - 1);
      assert Follows(run, n - 1);
      StepExactIff(run.states[n - 1], run.events[n - 1], i);
    }
  }

  /**
   A recipient is queued exactly while its message is pending, all through a run, if and only if no settled message is
   requeued.
   */
  lemma MirrorExactIff(run: Run, i: nat)
    requires ValidRun(run)
    ensures (forall n: nat | n <= |run.events| :: ExactFor(run.states[n].db, i))
      <==> (forall k: nat | k < |run.events| :: !RequeuesSettledMessageOf(run.states[k], run.events[k], i))
  {
    if forall n: nat | n <= |run.events| :: ExactFor(run.states[n].db, i) {
      forall k: nat | k < |run.events| ensures !RequeuesSettledMessageOf(run.states[k], run.events[k], i) {
        RecipientsMirrorMessages(run, k);
        assert Follows(run, k);
        assert ExactFor(run.states[k].db, i) && ExactFor(run.states[k + 1].db, i);
        StepExactIff(run.states[k], run.events[k], i);
      }
    }
    if forall k: nat | k < |run.events| :: !RequeuesSettledMessageOf(run.states[k], run.events[k], i) {
      forall n: nat | n <= |run.events| ensures ExactFor(run.states[n].db, i) {
        ExactUpTo(run, n, i);
      }
    }
  }

  /** So timely workers keep the mirror exact. */
  lemma TimelyRunsMirrorExactly(run: Run, n: nat, i: nat)
    requires TimelyRun(run) && n <= |run.events|
    ensures ExactFor(run.states[n].db, i)
  {
    forall k: nat | k < |run.events| ensures !RequeuesSettledMessageOf(run.states[k], run.events[k], i) {
      var s, e := run.states[k], run.events[k];
      if i < |s.db.recipients| && s.db.recipients[i].manualMessage.Some? {
        var m := s.db.recipients[i].manualMessage.value;
        TimelyRunIsExclusive(run, k, m);
        assert e.WriteFailure? && OnJob(s, e.worker, m) ==> LiveOn(s, e.worker, m);
      }
    }
    MirrorExactIff(run, i);
  }

  /** In runs that respect the leases and do not raise after a mark, every settled recipient keeps its outcome. */
  lemma TimelyRunsKeepRecipients(run: Run, k: nat, id: nat)
    requires TimelyRun(run) && k < |run.events|
    ensures RecipientKeptAt(run, k, id)
  {
    forall j: nat | j < |run.events| ensures !FlipsRecipient(run.states[j], run.events[j], id) {
      var s, e := run.states[j], run.events[j];
      if FlipsRecipient(s, e, id) {
        var target := s.tasks[e.worker].target;
        assert Follows(run, j);
        TimelyRunIsExclusive(run, j, target.id);
        TimelyRunsMirrorExactly(run, j, id);
        RunIsSound(run, j);
        assert target.ToJob? ==> LiveOn(s, e.worker, target.id);
        assert target.ToRecipient? ==> LiveOnRecipient(s, e.worker, target.id);
        assert false;
      }
    }
    SettledRecipientKeptIff(run, id);
  }

  /** No delivery of a scheduled campaign, WhatsApp or e-mail, is claimed before its time. */
  lemma ClaimsAwaitSchedule(run: Run, n: nat, i: nat)
    requires ValidRun(run) && n < |run.events| && i < |run.states[n].db.recipients|
    requires (run.events[n].ClaimEmail? && run.events[n].recipient == i)
             || (run.events[n].Claim? && run.states[n].db.recipients[i].manualMessage == Some(run.events[n].job))
    ensures var db := run.states[n].db;
      db.recipients[i].campaign < |db.campaigns|
      && Open(db.campaigns[db.recipients[i].campaign].scheduledAt, run.states[n].now)
  {
    RunIsSound(run, n);
    assert Follows(run, n);
    var s, e := run.states[n], run.events[n];
    if e.Claim? {
      assert s.db.jobs[e.job].kind == Manual;
      var k :| 0 <= k < |s.db.recipients| && s.db.recipients[k].manualMessage == Some(e.job)
        && (s.db.recipients[k].campaign < |s.db.campaigns| ==>
              Open(s.db.campaigns[s.db.recipients[k].campaign].scheduledAt, s.now));
      assert k == i;
    }
  }

  /** A campaign keeps, in every later state, the channel and the schedule it was asked for. */
  lemma {:induction false} CampaignKeepsRequest(run: Run, k: nat, n: nat)
    requires ValidRun(run) && k < n <= |run.events| && run.events[k].StartCampaign?
    ensures |run.states[k].db.campaigns| < |run.states[n].db.campaigns|
    ensures var c := run.states[n].db.campaigns[|run.states[k].db.campaigns|];
      c.channel == run.events[k].channel && c.scheduledAt == run.events[k].scheduledAt
    decreases n
  {
    assert Follows(run, n - 1);
    StepKeepsCampaigns(run.states[n - 1], run.events[n - 1]);
    if k == n - 1 {
    } else {
      CampaignKeepsRequest(run, k, n - 1);
    }
  }

  lemma StartMakesRecipients(s: Sys, e: Event, j: nat)
    requires Enabled(s, e) && e.StartCampaign? && j < |e.targets|
    ensures |s.db.recipients| + j < |Step(s, e).db.recipients|
    ensures MadeFor(Step(s, e).db.recipients[|s.db.recipients| + j], |s.db.campaigns|, e.channel, e.targets[j])
  {
    var status := if true in e.targets then CampaignQueued else CampaignFailed;
    var db := s.db.(campaigns := s.db.campaigns + [Campaign(e.channel, e.scheduledAt, status)]);
    AddedRecipientsSay(db, |s.db.campaigns|, e.channel, e.targets, s.now);
  }

  /** Its recipients stay its own: one per target, on the queue of its channel if the target can be reached. */
  lemma {:induction false} CampaignKeepsRecipients(run: Run, k: nat, n: nat, j: nat)
    requires ValidRun(run) && k < n <= |run.events| && run.events[k].StartCampaign? && j < |run.events[k].targets|
    ensures |run.states[k].db.recipients| + j < |run.states[n].db.recipients|
    ensures var e := run.events[k];
      var r := run.states[n].db.recipients[|run.states[k].db.recipients| + j];
      MadeFor(r, |run.states[k].db.campaigns|, e.channel, e.targets[j])
    decreases n
  {
    var s, e, i := run.states[n - 1], run.events[n - 1], |run.states[k].db.recipients| + j;
    assert Follows(run, n - 1);
    if k == n - 1 {
      StartMakesRecipients(s, e, j);
    } else {
      CampaignKeepsRecipients(run, k, n - 1, j);
      RunIsSound(run, n - 1);
      RecipientsMoveForward(s, e, i);
      StepUpdatesRecipients(s, e);
      assert run.states[n].db.recipients[i] == RecipientAfter(s, e, i);
    }
  }

  /** No e-mail and no message of a campaign is claimed before the time the campaign was asked for. */
  lemma NotClaimedBeforeAsked(run: Run, k: nat, n: nat, j: nat, at: int)
    requires ValidRun(run) && k < n < |run.events| && run.events[k].StartCampaign? && j < |run.events[k].targets|
    requires run.events[k].scheduledAt == Some(at)
    requires var i := |run.states[k].db.recipients| + j;
      && i < |run.states[n].db.recipients|
      && ((run.events[n].ClaimEmail? && run.events[n].recipient == i)
          || (run.events[n].Claim? && run.states[n].db.recipients[i].manualMessage == Some(run.events[n].job)))
    ensures at <= run.states[n].now
  {
    CampaignKeepsRequest(run, k, n);
    CampaignKeepsRecipients(run, k, n, j);
    ClaimsAwaitSchedule(run, n, |run.states[k].db.recipients| + j);
  }
}
