/** Short runs that break the conditional properties when a worker writes late or raises after its mark. */
module DeliveryWitnesses {
  import opened Wrappers
  import opened DeliveryModel
  import opened DeliveryAttempts
  import opened DeliveryLeases
  import opened Campaigns

  const LEASE: nat := 120

  ghost predicate RaisesOnlyBeforeMark(run: Run)
    requires |run.states| == |run.events| + 1
  {
    forall i | 0 <= i < |run.events| :: NoRaiseAfterMark(run.states[i], run.events[i])
  }

  ghost predicate WritesOnlyInLease(run: Run)
    requires |run.states| == |run.events| + 1
  {
    forall i | 0 <= i < |run.events| :: WritesInLease(run.states[i], run.events[i])
  }

  function Message(status: JobStatus, attempts: nat, processAfter: int, leaseUntil: Option<int>): Job {
    Job(Ai, status, attempts, 3, processAfter, leaseUntil, 0)
  }

  function With(job: Job, tasks: map<nat, Task>, now: int): Sys {
    Sys(Db([job], [], []), tasks, now, LEASE)
  }

  function Busy(deadline: int, phase: Phase): Task {
    Task(ToJob(0), deadline, phase)
  }

  ghost predicate Leads(s: Sys, e: Event, t: Sys) {
    Enabled(s, e) && t == Step(s, e)
  }

  lemma StepsMakeRun(states: seq<Sys>, events: seq<Event>)
    requires |states| == |events| + 1 && Initial(states[0])
    requires forall i | 0 <= i < |events| :: Leads(states[i], events[i], states[i + 1])
    ensures ValidRun(Run(states, events))
  {
    forall i | 0 <= i < |events| ensures Follows(Run(states, events), i) {
      assert Leads(states[i], events[i], states[i + 1]);
    }
  }

  // Worker 1 claims and lets its lease run out; worker 2 takes over and finishes; worker 1 then reports a failure.
  function LateEvents(): seq<Event> {
    [Enqueue(Ai, 3), Claim(1, 0), Tick(LEASE), Claim(2, 0), Mark(2), Raise(1), ReadAttempts(1), WriteFailure(1)]
  }

  function LateStates(): seq<Sys> {
    [ Sys(Db([], [], []), map[], 0, LEASE),
      With(Message(Queued, 0, 0, None), map[], 0),
      With(Message(Processing, 1, 0, Some(120)), map[1 := Busy(120, Trying)], 0),
      With(Message(Processing, 1, 0, Some(120)), map[1 := Busy(120, Trying)], 120),
      With(Message(Processing, 2, 0, Some(240)), map[1 := Busy(120, Trying), 2 := Busy(240, Trying)], 120),
      With(Message(Done, 2, 0, Some(240)), map[1 := Busy(120, Trying), 2 := Busy(240, Marked)], 120),
      With(Message(Done, 2, 0, Some(240)), map[1 := Busy(120, Raised), 2 := Busy(240, Marked)], 120),
      With(Message(Done, 2, 0, Some(240)), map[1 := Busy(120, WillRequeue), 2 := Busy(240, Marked)], 120),
      With(Message(Queued, 2, 130, None), map[2 := Busy(240, Marked)], 120)]
  }

  lemma LateTakeoverLeads(i: nat)
    requires i < 4
    ensures Leads(LateStates()[i], LateEvents()[i], LateStates()[i + 1])
  {
    var s, e, t := LateStates()[i], LateEvents()[i], LateStates()[i + 1];
    assert t.tasks == Step(s, e).tasks;
    assert t.db.jobs == Step(s, e).db.jobs;
  }

  lemma LateFailureLeads(i: nat)
    requires 4 <= i < 8
    ensures Leads(LateStates()[i], LateEvents()[i], LateStates()[i + 1])
  {
    var s, e, t := LateStates()[i], LateEvents()[i], LateStates()[i + 1];
    assert t.tasks == Step(s, e).tasks;
    assert t.db.jobs == Step(s, e).db.jobs;
  }

  lemma LateStepsLead(i: nat)
    requires i < 8
    ensures Leads(LateStates()[i], LateEvents()[i], LateStates()[i + 1])
  {
    if i < 4 {
      LateTakeoverLeads(i);
    } else {
      LateFailureLeads(i);
    }
  }

  /** A worker that fails after losing its lease puts a message back that another worker has done. */
  lemma LateWriteReopensDoneMessage()
    ensures exists run: Run :: ValidRun(run) && RaisesOnlyBeforeMark(run) && |run.events| == 8 && !KeptAt(run, 7, 0)
  {
    var run := Run(LateStates(), LateEvents());
    forall i | 0 <= i < 8 ensures Leads(run.states[i], run.events[i], run.states[i + 1]) {
      LateStepsLead(i);
    }
    StepsMakeRun(run.states, run.events);
    assert !KeptAt(run, 7, 0);
  }

  // The message worker 1 has put back is claimed while the lease of worker 2 still runs.
  function SharedEvents(): seq<Event> {
    LateEvents() + [Tick(10), Claim(3, 0)]
  }

  function SharedStates(): seq<Sys> {
    LateStates()
    + [ With(Message(Queued, 2, 130, None), map[2 := Busy(240, Marked)], 130),
        With(Message(Processing, 3, 130, Some(250)), map[2 := Busy(240, Marked), 3 := Busy(250, Trying)], 130)]
  }

  /** Two workers with live leases on one message, after a write out of lease. */
  lemma LateWriteSharesMessage()
    ensures exists run: Run ::
      ValidRun(run) && RaisesOnlyBeforeMark(run) && |run.events| == 10
      && LiveOn(run.states[10], 2, 0) && LiveOn(run.states[10], 3, 0)
  {
    var run := Run(SharedStates(), SharedEvents());
    forall i | 0 <= i < 10 ensures Leads(run.states[i], run.events[i], run.states[i + 1]) {
      if i < 8 {
        LateStepsLead(i);
      } else {
        SharedStepsLead(i);
      }
    }
    StepsMakeRun(run.states, run.events);
  }

  lemma SharedStepsLead(i: nat)
    requires 8 <= i < 10
    ensures Leads(SharedStates()[i], SharedEvents()[i], SharedStates()[i + 1])
  {
    var s, e, t := SharedStates()[i], SharedEvents()[i], SharedStates()[i + 1];
    assert t.tasks == Step(s, e).tasks;
    assert t.db.jobs == Step(s, e).db.jobs;
  }

  // Worker 1 marks the message done, its bookkeeping raises, and mark_failed puts the message back.
  function TwiceEvents(): seq<Event> {
    [Enqueue(Ai, 3), Claim(1, 0), Mark(1), Raise(1), ReadAttempts(1), WriteFailure(1), Tick(5), Claim(1, 0), Mark(1)]
  }

  function TwiceStates(): seq<Sys> {
    [ Sys(Db([], [], []), map[], 0, LEASE),
      With(Message(Queued, 0, 0, None), map[], 0),
      With(Message(Processing, 1, 0, Some(120)), map[1 := Busy(120, Trying)], 0),
      With(Message(Done, 1, 0, Some(120)), map[1 := Busy(120, Marked)], 0),
      With(Message(Done, 1, 0, Some(120)), map[1 := Busy(120, Raised)], 0),
      With(Message(Done, 1, 0, Some(120)), map[1 := Busy(120, WillRequeue)], 0),
      With(Message(Queued, 1, 5, None), map[], 0),
      With(Message(Queued, 1, 5, None), map[], 5),
      With(Message(Processing, 2, 5, Some(125)), map[1 := Busy(125, Trying)], 5),
      With(Message(Done, 2, 5, Some(125)), map[1 := Busy(125, Marked)], 5)]
  }

  lemma TwiceFirstAttempt(i: nat)
    requires i < 5
    ensures Leads(TwiceStates()[i], TwiceEvents()[i], TwiceStates()[i + 1])
  {
    var s, e, t := TwiceStates()[i], TwiceEvents()[i], TwiceStates()[i + 1];
    assert t.tasks == Step(s, e).tasks;
    assert t.db.jobs == Step(s, e).db.jobs;
  }

  lemma TwiceSecondAttempt(i: nat)
    requires 5 <= i < 9
    ensures Leads(TwiceStates()[i], TwiceEvents()[i], TwiceStates()[i + 1])
  {
    var s, e, t := TwiceStates()[i], TwiceEvents()[i], TwiceStates()[i + 1];
    assert t.tasks == Step(s, e).tasks;
    assert t.db.jobs == Step(s, e).db.jobs;
  }

  lemma {:induction false} TwiceMarks(n: nat)
    requires n <= 9
    ensures Marks(Run(TwiceStates(), TwiceEvents()), n, ToJob(0)) == if n < 3 then 0 else if n < 9 then 1 else 2
  {
    if n == 0 {
    } else {
      TwiceMarks(n - 1);
      var s, e := TwiceStates()[n - 1], TwiceEvents()[n - 1];
      assert MarksTarget(s, e, ToJob(0)) <==> n == 3 || n == 9;
    }
  }

  /** Bookkeeping that raises after mark_done gets the message done a second time, every write in its lease. */
  lemma RaiseAfterMarkDeliversTwice()
    ensures exists run: Run ::
      ValidRun(run) && WritesOnlyInLease(run) && |run.events| == 9 && Marks(run, 9, ToJob(0)) == 2
  {
    var run := Run(TwiceStates(), TwiceEvents());
    TwiceRunIsValid(run);
    TwiceMarks(9);
  }

  lemma TwiceRunIsValid(run: Run)
    requires run == Run(TwiceStates(), TwiceEvents())
    ensures ValidRun(run) && WritesOnlyInLease(run)
  {
    forall i | 0 <= i < 9 ensures Leads(run.states[i], run.events[i], run.states[i + 1]) {
      if i < 5 { TwiceFirstAttempt(i); } else { TwiceSecondAttempt(i); }
    }
    StepsMakeRun(run.states, run.events);
  }

  // The same on a campaign of one WhatsApp recipient.
  function ManualEvents(): seq<Event> {
    [StartCampaign(Whatsapp, None, [true]), Claim(1, 0), Mark(1), Raise(1), ReadAttempts(1), WriteFailure(1)]
  }

  function Campaigning(job: Job, status: RecipientStatus, summary: CampaignStatus, tasks: map<nat, Task>): Sys {
    Sys(Db([job], [Recipient(0, Some(0), false, status, 0, 0)], [Campaign(Whatsapp, None, summary)]), tasks, 0, LEASE)
  }

  function ManualStates(): seq<Sys> {
    [ Sys(Db([], [], []), map[], 0, LEASE),
      Campaigning(Message(Queued, 0, 0, None).(kind := Manual), ToSend, CampaignQueued, map[]),
      Campaigning(Message(Processing, 1, 0, Some(120)).(kind := Manual), ToSend, CampaignQueued,
                  map[1 := Busy(120, Trying)]),
      Campaigning(Message(Done, 1, 0, None).(kind := Manual), Sent, CampaignSent, map[1 := Busy(120, Marked)]),
      Campaigning(Message(Done, 1, 0, None).(kind := Manual), Sent, CampaignSent, map[1 := Busy(120, Raised)]),
      Campaigning(Message(Done, 1, 0, None).(kind := Manual), Sent, CampaignSent, map[1 := Busy(120, WillRequeue)]),
      Campaigning(Message(Queued, 1, 0, None).(kind := Manual), Sent, CampaignSent, map[])]
  }

  lemma CreatesOne()
    ensures Leads(ManualStates()[0], ManualEvents()[0], ManualStates()[1])
  {
    var s := ManualStates()[0];
    var base := s.db.(campaigns := [Campaign(Whatsapp, None, CampaignQueued)]);
    assert true in [true] && [true][..0] == [];
    assert AddRecipients(base, 0, Whatsapp, [], 0) == base;
    assert AddRecipients(base, 0, Whatsapp, [true], 0) == AddRecipient(base, 0, Whatsapp, true, 0);
    assert s.db.campaigns + [Campaign(Whatsapp, None, CampaignQueued)] == base.campaigns;
  }

  lemma MarksOne()
    ensures Leads(ManualStates()[2], ManualEvents()[2], ManualStates()[3])
  {
    var s, t := ManualStates()[2], ManualStates()[3];
    var db := s.db.(jobs := t.db.jobs);
    assert MarkDelivered(s.db, 0, 0) == SettleLinked(db, 0, Sent, 0);
    assert TouchLinked(db.recipients, 0, Some(Sent), 0) == t.db.recipients;
    assert t.db.recipients[..0] == [];
    assert CountIn(t.db.recipients, 0, PENDING) == CountIn([], 0, PENDING) == 0;
    assert CountIn(t.db.recipients, 0, UNDELIVERED) == CountIn([], 0, UNDELIVERED) == 0;
    assert t.tasks == Step(s, ManualEvents()[2]).tasks;
  }

  lemma ManualStepsLead(i: nat)
    requires i < 6
    ensures Leads(ManualStates()[i], ManualEvents()[i], ManualStates()[i + 1])
  {
    if i == 0 {
      CreatesOne();
    } else if i == 2 {
      MarksOne();
    } else {
      var s, e, t := ManualStates()[i], ManualEvents()[i], ManualStates()[i + 1];
      assert s.db.recipients[0].manualMessage == Some(0);
      assert t.tasks == Step(s, e).tasks;
      assert t.db.jobs == Step(s, e).db.jobs;
      assert t.db.recipients == Step(s, e).db.recipients;
    }
  }

  /** A raise after mark_manual_sent queues the message again while its recipient stays sent. */
  lemma RaiseAfterMarkBreaksMirror()
    ensures exists run: Run ::
      ValidRun(run) && WritesOnlyInLease(run) && |run.events| == 6 && !ExactFor(run.states[6].db, 0)
  {
    var run := Run(ManualStates(), ManualEvents());
    forall i | 0 <= i < 6 ensures Leads(run.states[i], run.events[i], run.states[i + 1]) {
      ManualStepsLead(i);
    }
    StepsMakeRun(run.states, run.events);
    assert !ExactFor(run.states[6].db, 0);
  }

  // A campaign of one e-mail: the mark commits, its bookkeeping raises, and mark_email_failed follows.
  function MailEvents(): seq<Event> {
    [StartCampaign(Email, None, [true]), ClaimEmail(1, 0), Mark(1), Raise(1), WriteFailure(1)]
  }

  function Mailing(status: RecipientStatus, summary: CampaignStatus, tasks: map<nat, Task>): Sys {
    Sys(Db([], [Recipient(0, None, true, status, 0, 0)], [Campaign(Email, None, summary)]), tasks, 0, LEASE)
  }

  function MailStates(): seq<Sys> {
    [ Sys(Db([], [], []), map[], 0, LEASE),
      Mailing(ToSend, CampaignQueued, map[]),
      Mailing(Sending, CampaignQueued, map[1 := Task(ToRecipient(0), 120, Trying)]),
      Mailing(Sent, CampaignSent, map[1 := Task(ToRecipient(0), 120, Marked)]),
      Mailing(Sent, CampaignSent, map[1 := Task(ToRecipient(0), 120, Raised)]),
      Mailing(Undelivered, CampaignFailed, map[])]
  }

  lemma CreatesOneMail()
    ensures Leads(MailStates()[0], MailEvents()[0], MailStates()[1])
  {
    var s := MailStates()[0];
    var base := s.db.(campaigns := [Campaign(Email, None, CampaignQueued)]);
    assert true in [true] && [true][..0] == [];
    assert AddRecipients(base, 0, Email, [], 0) == base;
    assert AddRecipients(base, 0, Email, [true], 0) == AddRecipient(base, 0, Email, true, 0);
    assert s.db.campaigns + [Campaign(Email, None, CampaignQueued)] == base.campaigns;
  }

  lemma SettlesOneMail(i: nat)
    requires i == 2 || i == 4
    ensures Leads(MailStates()[i], MailEvents()[i], MailStates()[i + 1])
  {
    var s, e, t := MailStates()[i], MailEvents()[i], MailStates()[i + 1];
    var failed := if i == 2 then 0 else 1;
    assert SetRecipient(s.db, 0, t.db.recipients[0].status, 0).recipients == t.db.recipients;
    assert t.db.recipients[..0] == [];
    assert CountIn(t.db.recipients, 0, PENDING) == CountIn([], 0, PENDING) == 0;
    assert CountIn(t.db.recipients, 0, UNDELIVERED) == CountIn([], 0, UNDELIVERED) + failed == failed;
    assert t.tasks == Step(s, e).tasks;
    assert t.db.campaigns == Step(s, e).db.campaigns;
  }

  lemma MailStepsLead(i: nat)
    requires i < 5
    ensures Leads(MailStates()[i], MailEvents()[i], MailStates()[i + 1])
  {
    if i == 0 {
      CreatesOneMail();
    } else if i == 2 || i == 4 {
      SettlesOneMail(i);
    } else {
      var s, e, t := MailStates()[i], MailEvents()[i], MailStates()[i + 1];
      assert t.tasks == Step(s, e).tasks;
      assert t.db.recipients == Step(s, e).db.recipients;
    }
  }

  /** A raise after mark_email_sent turns 'sent' into 'failed', and the campaign with it, every write in its lease. */
  lemma RaiseAfterMarkFailsSentMail()
    ensures exists run: Run ::
      ValidRun(run) && WritesOnlyInLease(run) && |run.events| == 5 && !RecipientKeptAt(run, 4, 0)
      && run.states[4].db.campaigns == [Campaign(Email, None, CampaignSent)]
      && run.states[5].db.campaigns == [Campaign(Email, None, CampaignFailed)]
  {
    var run := Run(MailStates(), MailEvents());
    forall i | 0 <= i < 5 ensures Leads(run.states[i], run.events[i], run.states[i + 1]) {
      MailStepsLead(i);
    }
    StepsMakeRun(run.states, run.events);
    assert !RecipientKeptAt(run, 4, 0);
  }
}
