/**
 App users and their refresh sessions.  Each statement or transaction of a service method is one step, and requests
 interleave between them; a method that runs uninterrupted has the effect of the function named after it.  Users are
 keyed by (tenant, app, e-mail); a session is a row number.
 */
module AppUsers {
  import opened Wrappers
  import opened Sets

  datatype UserStatus = Pending | Active | Disabled

  datatype User = User(status: UserStatus, verifiedAt: Option<int>)

  datatype Session = Session(user: nat, revoked: bool)

  datatype Accounts = Accounts(users: map<nat, User>, sessions: seq<Session>)

  // updateMany where appUserId, revokedAt null.
  function RevokeAll(sessions: seq<Session>, user: nat): (r: seq<Session>)
    ensures |r| == |sessions|
    ensures forall i | 0 <= i < |r| :: r[i] == if sessions[i].user == user then Session(user, true) else sessions[i]
  {
    if sessions == [] then [] else
    [if sessions[0].user == user then Session(user, true) else sessions[0]] + RevokeAll(sessions[1..], user)
  }

  function AddSession(a: Accounts, user: nat): Accounts {
    a.(sessions := a.sessions + [Session(user, false)])
  }

  function Put(a: Accounts, key: nat, user: User): Accounts {
    a.(users := a.users[key := user])
  }

  function Activate(a: Accounts, key: nat, now: int): Accounts {
    Put(a, key, User(Active, Some(now)))
  }

  // A sign-up writes by what it read: the unique key makes a second creation fail.
  function WriteSignup(a: Accounts, key: nat, existed: bool): Accounts {
    if key !in a.users then Put(a, key, User(Pending, None))
    else if existed then Put(a, key, a.users[key].(status := Pending))
    else a
  }

  function WriteStatus(a: Accounts, key: nat, status: Option<UserStatus>, now: int): Accounts
    requires key in a.users
  {
    var user := a.users[key];
    Put(a, key, User(if status.Some? then status.value else user.status,
                     if status == Some(Active) then Some(now) else user.verifiedAt))
  }

  function Clear(a: Accounts, key: nat): Accounts {
    a.(sessions := RevokeAll(a.sessions, key))
  }

  // Active and disabled accounts are left alone; a pending one gets the new password and stays pending.
  function Signup(a: Accounts, key: nat): Accounts {
    if key in a.users && a.users[key].status != Pending then a else WriteSignup(a, key, key in a.users)
  }

  function VerifyEmail(a: Accounts, key: nat, now: int): Accounts {
    if key in a.users then AddSession(Activate(a, key, now), key) else a
  }

  function ResetPassword(a: Accounts, key: nat, now: int): Accounts {
    if key in a.users then AcceptInvitation(a, key, now) else a
  }

  function AcceptInvitation(a: Accounts, key: nat, now: int): Accounts {
    AddSession(Clear(Activate(a, key, now), key), key)
  }

  function UpdateUser(a: Accounts, key: nat, status: Option<UserStatus>, now: int): Accounts {
    if key !in a.users then a
    else if status == Some(Disabled) then Clear(WriteStatus(a, key, status, now), key)
    else WriteStatus(a, key, status, now)
  }

  predicate MayLogin(a: Accounts, key: nat) {
    key in a.users && a.users[key].status == Active
  }

  predicate MayRefresh(a: Accounts, session: nat) {
    session < |a.sessions| && !a.sessions[session].revoked && MayLogin(a, a.sessions[session].user)
  }

  function RevokeOne(a: Accounts, session: nat): Accounts
    requires session < |a.sessions|
  {
    a.(sessions := a.sessions[session := a.sessions[session].(revoked := true)])
  }

  // ----------------------------------------------------------- interleaving

  // What a request still has to do: write the row of a sign-up, rotate the session of a refresh, revoke a user's
  // sessions, or create a session.
  datatype Progress =
    | SigningUp(key: nat, existed: bool)
    | Rotating(session: nat)
    | Clearing(key: nat, opens: bool)
    | Opening(key: nat)

  datatype Sys = Sys(accounts: Accounts, requests: map<nat, Progress>)

  datatype Event =
    | PassSignup(request: nat, key: nat)
    | FinishSignup(request: nat)
    | WriteVerified(request: nat, key: nat, now: int)     // verifyEmail: the user row
    | WriteReset(request: nat, key: nat, now: int)        // resetPassword: its transaction
    | WriteAccepted(request: nat, key: nat, now: int)     // acceptInvitation: the user row
    | WriteUpdate(request: nat, key: nat, status: Option<UserStatus>, now: int)
    | RevokeSessions(request: nat)
    | PassLogin(request: nat, key: nat)
    | PassRefresh(request: nat, session: nat)
    | Rotate(request: nat)
    | CreateSession(request: nat)
    | Logout(session: nat)
    | Crash(request: nat)

  predicate Begins(e: Event) {
    e.PassSignup? || e.WriteVerified? || e.WriteReset? || e.WriteAccepted? || e.WriteUpdate?
    || e.PassLogin? || e.PassRefresh?
  }

  predicate Enabled(s: Sys, e: Event) {
    && (Begins(e) ==> e.request !in s.requests)
    && (!Begins(e) && !e.Logout? ==> e.request in s.requests)
    && match e
      case PassSignup(_, key) => key !in s.accounts.users || s.accounts.users[key].status == Pending
      case FinishSignup(q) => s.requests[q].SigningUp?
      case WriteVerified(_, key, _) => key in s.accounts.users
      case WriteReset(_, key, _) => key in s.accounts.users
      case WriteAccepted(_, _, _) => true
      case WriteUpdate(_, key, _, _) => key in s.accounts.users
      case RevokeSessions(q) => s.requests[q].Clearing?
      case PassLogin(_, key) => MayLogin(s.accounts, key)
      case PassRefresh(_, session) => MayRefresh(s.accounts, session)
      case Rotate(q) => s.requests[q].Rotating? && s.requests[q].session < |s.accounts.sessions|
      case CreateSession(q) => s.requests[q].Opening?
      case Logout(session) => session < |s.accounts.sessions|
      case Crash(_) => true
  }

  function Step(s: Sys, e: Event): Sys
    requires Enabled(s, e)
  {
    var a := s.accounts;
    match e
    case PassSignup(q, key) => s.(requests := s.requests[q := SigningUp(key, key in a.users)])
    case FinishSignup(q) => Sys(WriteSignup(a, s.requests[q].key, s.requests[q].existed), s.requests - {q})
    case WriteVerified(q, key, now) => Sys(Activate(a, key, now), s.requests[q := Opening(key)])
    case WriteReset(q, key, now) => Sys(Clear(Activate(a, key, now), key), s.requests[q := Opening(key)])
    case WriteAccepted(q, key, now) => Sys(Activate(a, key, now), s.requests[q := Clearing(key, true)])
    case WriteUpdate(q, key, status, now) =>
      Sys(WriteStatus(a, key, status, now),
          if status == Some(Disabled) then s.requests[q := Clearing(key, false)] else s.requests)
    case RevokeSessions(q) =>
      var key := s.requests[q].key;
      Sys(Clear(a, key), if s.requests[q].opens then s.requests[q := Opening(key)] else s.requests - {q})
    case PassLogin(q, key) => s.(requests := s.requests[q := Opening(key)])
    case PassRefresh(q, session) => s.(requests := s.requests[q := Rotating(session)])
    case Rotate(q) =>
      var session := s.requests[q].session;
      if a.sessions[session].revoked then s.(requests := s.requests - {q})
      else Sys(RevokeOne(a, session), s.requests[q := Opening(a.sessions[session].user)])
    case CreateSession(q) => Sys(AddSession(a, s.requests[q].key), s.requests - {q})
    case Logout(session) => s.(accounts := RevokeOne(a, session))
    case Crash(q) => s.(requests := s.requests - {q})
  }

  /** Uninterrupted, the steps of a method have the effect of the whole method. */
  lemma SignupIsItsSteps(s: Sys, q: nat, key: nat)
    requires q !in s.requests && Enabled(s, PassSignup(q, key))
    ensures Step(Step(s, PassSignup(q, key)), FinishSignup(q)).accounts == Signup(s.accounts, key)
  {
  }

  lemma LoginIsItsSteps(s: Sys, q: nat, key: nat)
    requires q !in s.requests && MayLogin(s.accounts, key)
    ensures Step(Step(s, PassLogin(q, key)), CreateSession(q)).accounts == AddSession(s.accounts, key)
  {
  }

  lemma RefreshIsItsSteps(s: Sys, q: nat, session: nat)
    requires q !in s.requests && MayRefresh(s.accounts, session)
    ensures var t := Step(Step(s, PassRefresh(q, session)), Rotate(q));
      Step(t, CreateSession(q)).accounts
      == AddSession(RevokeOne(s.accounts, session), s.accounts.sessions[session].user)
  {
  }

  lemma VerifyAndResetAreTheirSteps(s: Sys, q: nat, key: nat, now: int)
    requires q !in s.requests && key in s.accounts.users
    ensures Step(Step(s, WriteVerified(q, key, now)), CreateSession(q)).accounts == VerifyEmail(s.accounts, key, now)
    ensures Step(Step(s, WriteReset(q, key, now)), CreateSession(q)).accounts == ResetPassword(s.accounts, key, now)
  {
  }

  lemma InvitationAndUpdateAreTheirSteps(s: Sys, q: nat, key: nat, status: Option<UserStatus>, now: int)
    requires q !in s.requests
    ensures var t := Step(Step(s, WriteAccepted(q, key, now)), RevokeSessions(q));
      Step(t, CreateSession(q)).accounts == AcceptInvitation(s.accounts, key, now)
    ensures key in s.accounts.users ==>
      var t := Step(s, WriteUpdate(q, key, status, now));
      (if status == Some(Disabled) then Step(t, RevokeSessions(q)) else t).accounts
      == UpdateUser(s.accounts, key, status, now)
  {
  }

  datatype Run = Run(states: seq<Sys>, events: seq<Event>)

  ghost predicate Follows(run: Run, i: nat)
    requires i < |run.events| < |run.states|
  {
    Enabled(run.states[i], run.events[i]) && run.states[i + 1] == Step(run.states[i], run.events[i])
  }

  ghost predicate ValidRun(run: Run) {
    && |run.states| == |run.events| + 1
    && run.states[0] == Sys(Accounts(map[], []), map[])
    && forall i | 0 <= i < |run.events| :: Follows(run, i)
  }

  // ------------------------------------------------------------- invariants

  ghost predicate ActiveVerified(a: Accounts) {
    forall key | key in a.users && a.users[key].status == Active :: a.users[key].verifiedAt.Some?
  }

  /** In every run an active user has a verified e-mail. */
  lemma {:induction false} ActiveUsersAreVerified(run: Run, n: nat)
    requires ValidRun(run) && n <= |run.events|
    ensures ActiveVerified(run.states[n].accounts)
  {
    if n == 0 {
    } else {
      ActiveUsersAreVerified(run, n - 1);
      assert Follows(run, n - 1);
    }
  }

  ghost predicate IsActive(a: Accounts, key: nat) {
    key in a.users && a.users[key].status == Active
  }

  // The statements that make a user active: all but the last follow a one-time token, the last is an administrator's.
  predicate Activates(e: Event, key: nat) {
    (e.WriteVerified? || e.WriteReset? || e.WriteAccepted? || (e.WriteUpdate? && e.status == Some(Active)))
    && e.key == key
  }

  /** A user becomes active by one of these statements only, and a sign-up leaves or makes it pending. */
  lemma StepActivates(s: Sys, e: Event, key: nat)
    requires Enabled(s, e)
    ensures IsActive(Step(s, e).accounts, key) ==> IsActive(s.accounts, key) || Activates(e, key)
    ensures Activates(e, key) ==> IsActive(Step(s, e).accounts, key)
    ensures e.FinishSignup? && s.requests[e.request] == SigningUp(key, key in s.accounts.users) ==>
      key in Step(s, e).accounts.users && Step(s, e).accounts.users[key].status == Pending
  {
  }

  // No session of the user, none on its way, and no request that would lead to one.
  ghost predicate NoSessionInSight(s: Sys, key: nat) {
    && (forall i | 0 <= i < |s.accounts.sessions| :: s.accounts.sessions[i].user != key)
    && (forall q | q in s.requests :: s.requests[q] != Opening(key) && s.requests[q] != Clearing(key, true))
  }

  /** Signing up alone gives no session: until an activating statement a user is not active and has never had one. */
  lemma {:induction false} NoSessionBeforeActivation(run: Run, n: nat, key: nat)
    requires ValidRun(run) && n <= |run.events| && forall k | 0 <= k < n :: !Activates(run.events[k], key)
    ensures !IsActive(run.states[n].accounts, key) && NoSessionInSight(run.states[n], key)
  {
    if n == 0 {
    } else {
      NoSessionBeforeActivation(run, n - 1, key);
      assert Follows(run, n - 1);
      StepActivates(run.states[n - 1], run.events[n - 1], key);
    }
  }

  ghost predicate IsDisabled(a: Accounts, key: nat) {
    key in a.users && a.users[key].status == Disabled
  }

  ghost predicate HasLiveSession(a: Accounts, key: nat) {
    exists i :: 0 <= i < |a.sessions| && a.sessions[i] == Session(key, false)
  }

  // updateUser has disabled the user and is about to revoke the sessions.
  ghost predicate Disabling(s: Sys, key: nat) {
    exists q :: q in s.requests && s.requests[q] == Clearing(key, false)
  }

  ghost predicate LockedOut(s: Sys, key: nat) {
    IsDisabled(s.accounts, key) && !Disabling(s, key) ==> !HasLiveSession(s.accounts, key)
  }

  // A session is created for a user that has been disabled since the request wrote or checked the user.
  ghost predicate CreatesForDisabled(s: Sys, e: Event, key: nat) {
    && e.CreateSession? && e.request in s.requests && s.requests[e.request] == Opening(key)
    && IsDisabled(s.accounts, key) && !Disabling(s, key)
  }

  // updateUser dies between its two statements, leaving sessions that no other updateUser is about to revoke.
  ghost predicate DiesDisabling(s: Sys, e: Event, key: nat) {
    && e.Crash? && e.request in s.requests && s.requests[e.request] == Clearing(key, false)
    && IsDisabled(s.accounts, key) && HasLiveSession(s.accounts, key)
    && forall q | q in s.requests && q != e.request :: s.requests[q] != Clearing(key, false)
  }

  lemma DisablingAfter(s: Sys, e: Event, key: nat)
    requires Enabled(s, e)
    ensures Disabling(Step(s, e), key) <==>
      (e.WriteUpdate? && e.key == key && e.status == Some(Disabled))
      || exists q :: q in s.requests && s.requests[q] == Clearing(key, false)
                     && !((e.RevokeSessions? || e.Crash?) && e.request == q)
  {
    var t := Step(s, e);
    if q :| q in t.requests && t.requests[q] == Clearing(key, false) {
      assert q in s.requests ==> t.requests[q] == s.requests[q] || e.RevokeSessions?;
    }
    if e.WriteUpdate? && e.key == key && e.status == Some(Disabled) {
      assert t.requests[e.request] == Clearing(key, false);
    }
    if q :| q in s.requests && s.requests[q] == Clearing(key, false)
            && !((e.RevokeSessions? || e.Crash?) && e.request == q) {
      assert q in t.requests && t.requests[q] == Clearing(key, false);
    }
  }

  lemma LiveAfter(s: Sys, e: Event, key: nat)
    requires Enabled(s, e)
    ensures HasLiveSession(Step(s, e).accounts, key) ==>
      HasLiveSession(s.accounts, key) || (e.CreateSession? && s.requests[e.request].key == key)
    ensures e.CreateSession? && s.requests[e.request].key == key ==> HasLiveSession(Step(s, e).accounts, key)
    ensures e.RevokeSessions? && s.requests[e.request].key == key ==> !HasLiveSession(Step(s, e).accounts, key)
    ensures e.Crash? ==> Step(s, e).accounts == s.accounts
  {
    var a, b := s.accounts, Step(s, e).accounts;
    if e.CreateSession? {
      assert b.sessions[|a.sessions|] == Session(s.requests[e.request].key, false);
    }
    if i :| 0 <= i < |b.sessions| && b.sessions[i] == Session(key, false) {
      assert i < |a.sessions| ==> a.sessions[i] == Session(key, false);
    }
  }

  lemma DisabledAfter(s: Sys, e: Event, key: nat)
    requires Enabled(s, e)
    ensures IsDisabled(Step(s, e).accounts, key) ==>
      IsDisabled(s.accounts, key) || (e.WriteUpdate? && e.key == key && e.status == Some(Disabled))
    ensures e.CreateSession? ==> Step(s, e).accounts.users == s.accounts.users
  {
  }

  lemma StepLocksOutIff(s: Sys, e: Event, key: nat)
    requires Enabled(s, e) && LockedOut(s, key)
    ensures LockedOut(Step(s, e), key) <==> !CreatesForDisabled(s, e, key) && !DiesDisabling(s, e, key)
  {
    DisablingAfter(s, e, key);
    LiveAfter(s, e, key);
    DisabledAfter(s, e, key);
  }

  ghost predicate BreaksLockout(s: Sys, e: Event, key: nat) {
    CreatesForDisabled(s, e, key) || DiesDisabling(s, e, key)
  }

  lemma {:induction false} LockedOutUpTo(run: Run, n: nat, key: nat)
    requires ValidRun(run) && n <= |run.events|
    requires forall k | 0 <= k < n :: !BreaksLockout(run.states[k], run.events[k], key)
    ensures LockedOut(run.states[n], key)
  {
    if n == 0 {
    } else {
      LockedOutUpTo(run, n - 1, key);
      assert Follows(run, n - 1);
      StepLocksOutIff(run.states[n - 1], run.events[n - 1], key);
    }
  }

  /**
   All through a run a disabled user, once updateUser is done with it, has no live session, exactly if no request
   creates a session for it that was begun earlier and no updateUser dies half way.
   */
  lemma DisabledLockedOutIff(run: Run, key: nat)
    requires ValidRun(run)
    ensures (forall n: nat | n <= |run.events| :: LockedOut(run.states[n], key))
      <==> (forall k: nat | k < |run.events| :: !BreaksLockout(run.states[k], run.events[k], key))
  {
    if forall n: nat | n <= |run.events| :: LockedOut(run.states[n], key) {
      forall k: nat | k < |run.events| ensures !BreaksLockout(run.states[k], run.events[k], key) {
        assert Follows(run, k);
        assert LockedOut(run.states[k], key) && LockedOut(run.states[k + 1], key);
        StepLocksOutIff(run.states[k], run.events[k], key);
      }
    }
    if forall k: nat | k < |run.events| :: !BreaksLockout(run.states[k], run.events[k], key) {
      forall n: nat | n <= |run.events| ensures LockedOut(run.states[n], key) {
        LockedOutUpTo(run, n, key);
      }
    }
  }

  // Whole methods as steps: a method begins only when no other is under way, and none dies.
  ghost predicate Serial(run: Run)
    requires |run.states| == |run.events| + 1
  {
    forall k | 0 <= k < |run.events| ::
      !run.events[k].Crash? && (Begins(run.events[k]) || run.events[k].Logout? ==> run.states[k].requests == map[])
  }

  // The only request under way is past its checks, and nothing has changed since.
  ghost predicate Alone(s: Sys) {
    && (forall q, r | q in s.requests && r in s.requests :: q == r)
    && forall q | q in s.requests ::
      match s.requests[q]
      case SigningUp(_, _) => true
      case Rotating(session) => MayRefresh(s.accounts, session)
      case Clearing(key, opens) => opens ==> MayLogin(s.accounts, key)
      case Opening(key) => MayLogin(s.accounts, key)
  }

  lemma {:induction false} SerialRunsAreAlone(run: Run, n: nat)
    requires ValidRun(run) && Serial(run) && n <= |run.events|
    ensures Alone(run.states[n])
  {
    if n == 0 {
    } else {
      SerialRunsAreAlone(run, n - 1);
      assert Follows(run, n - 1);
    }
  }

  /** With whole methods as steps, a disabled user has no unrevoked session whenever no method is under way. */
  lemma SerialRunsLockOut(run: Run, n: nat, key: nat)
    requires ValidRun(run) && Serial(run) && n <= |run.events| && run.states[n].requests == map[]
    ensures IsDisabled(run.states[n].accounts, key) ==> !HasLiveSession(run.states[n].accounts, key)
  {
    forall k: nat | k < |run.events| ensures !BreaksLockout(run.states[k], run.events[k], key) {
      SerialRunsAreAlone(run, k);
    }
    DisabledLockedOutIff(run, key);
    assert LockedOut(run.states[n], key);
  }

  // ------------------------------------------- sessions that follow a reset

  ghost function LiveSessions(a: Accounts, key: nat): set<nat> {
    set i | 0 <= i < |a.sessions| && a.sessions[i] == Session(key, false)
  }

  ghost function Openers(s: Sys, key: nat): set<nat> {
    set q | q in s.requests && s.requests[q] == Opening(key)
  }

  // Live sessions and those still to be created.
  ghost function Claims(s: Sys, key: nat): nat {
    |LiveSessions(s.accounts, key)| + |Openers(s, key)|
  }

  // The step gives the user one more session to come.
  predicate Opens(s: Sys, e: Event, key: nat) {
    || ((e.PassLogin? || e.WriteVerified? || e.WriteReset?) && e.key == key)
    || (e.RevokeSessions? && e.request in s.requests && s.requests[e.request] == Clearing(key, true))
  }

  // The step revokes the user's sessions in order to open a new one.
  predicate StartsOver(s: Sys, e: Event, key: nat) {
    Opens(s, e, key) && (e.WriteReset? || e.RevokeSessions?)
  }

  lemma OpenersAfter(s: Sys, e: Event, key: nat)
    requires Enabled(s, e) && !e.Rotate?
    ensures |Openers(Step(s, e), key)| <= |Openers(s, key)| + (if Opens(s, e, key) then 1 else 0)
    ensures e.CreateSession? && s.requests[e.request] == Opening(key) ==>
      |Openers(Step(s, e), key)| == |Openers(s, key)| - 1
  {
    var was, now := Openers(s, key), Openers(Step(s, e), key);
    forall q ensures q in now ==> q in was || (Opens(s, e, key) && q == e.request) {
      OpenerComesFrom(s, e, key, q);
    }
    if Opens(s, e, key) {
      SubsetIsSmaller(now, was + {e.request});
    } else if e.CreateSession? && s.requests[e.request] == Opening(key) {
      assert now == was - {e.request};
    } else {
      SubsetIsSmaller(now, was);
    }
  }

  lemma OpenerComesFrom(s: Sys, e: Event, key: nat, q: nat)
    requires Enabled(s, e) && !e.Rotate?
    ensures q in Openers(Step(s, e), key) ==> q in Openers(s, key) || (Opens(s, e, key) && q == e.request)
  {
  }

  lemma LiveSessionsAfter(s: Sys, e: Event, key: nat)
    requires Enabled(s, e) && !e.Rotate?
    ensures |LiveSessions(Step(s, e).accounts, key)|
      <= |LiveSessions(s.accounts, key)| + (if e.CreateSession? && s.requests[e.request] == Opening(key) then 1 else 0)
    ensures StartsOver(s, e, key) ==> LiveSessions(Step(s, e).accounts, key) == {}
  {
    var was, now := LiveSessions(s.accounts, key), LiveSessions(Step(s, e).accounts, key);
    if e.CreateSession? && s.requests[e.request] == Opening(key) {
      assert now == was + {|s.accounts.sessions|};
    } else {
      SubsetIsSmaller(now, was);
    }
  }

  lemma RevokedSessionGoes(a: Accounts, session: nat, key: nat)
    requires session < |a.sessions| && !a.sessions[session].revoked
    ensures |LiveSessions(RevokeOne(a, session), key)|
      == |LiveSessions(a, key)| - (if a.sessions[session].user == key then 1 else 0)
  {
    var was, now := LiveSessions(a, key), LiveSessions(RevokeOne(a, session), key);
    if a.sessions[session].user == key {
      assert session in was;
      assert now == was - {session};
    } else {
      assert now == was;
    }
  }

  lemma OpenerComes(s: Sys, t: Sys, q: nat, user: nat, key: nat)
    requires q in s.requests && !s.requests[q].Opening? && t.requests == s.requests[q := Opening(user)]
    ensures |Openers(t, key)| == |Openers(s, key)| + (if user == key then 1 else 0)
  {
    if user == key {
      assert Openers(t, key) == Openers(s, key) + {q};
    } else {
      assert Openers(t, key) == Openers(s, key);
    }
  }

  // The rotated session makes room for its successor; a session revoked meanwhile has none.
  lemma RotationKeepsClaims(s: Sys, e: Event, key: nat)
    requires Enabled(s, e) && e.Rotate?
    ensures Claims(Step(s, e), key) == Claims(s, key)
  {
    var session := s.requests[e.request].session;
    if s.accounts.sessions[session].revoked {
      assert Openers(Step(s, e), key) == Openers(s, key);
    } else {
      RevokedSessionGoes(s.accounts, session, key);
      OpenerComes(s, Step(s, e), e.request, s.accounts.sessions[session].user, key);
    }
  }

  lemma StepClaims(s: Sys, e: Event, key: nat)
    requires Enabled(s, e)
    ensures Claims(Step(s, e), key) <= Claims(s, key) + (if Opens(s, e, key) then 1 else 0)
    ensures StartsOver(s, e, key) ==> Claims(Step(s, e), key) <= |Openers(s, key)| + 1
  {
    if e.Rotate? {
      RotationKeepsClaims(s, e, key);
    } else {
      OpenersAfter(s, e, key);
      LiveSessionsAfter(s, e, key);
    }
  }

  ghost function Opened(run: Run, m: nat, n: nat, key: nat): nat
    requires m <= n <= |run.events| <= |run.states|
    decreases n
  {
    if n == m then 0
    else Opened(run, m, n - 1, key) + (if Opens(run.states[n - 1], run.events[n - 1], key) then 1 else 0)
  }

  lemma {:induction false} ClaimsGrowByOpenings(run: Run, m: nat, n: nat, key: nat)
    requires ValidRun(run) && m <= n <= |run.events|
    ensures Claims(run.states[n], key) <= Claims(run.states[m], key) + Opened(run, m, n, key)
    decreases n
  {
    if n == m {
    } else {
      ClaimsGrowByOpenings(run, m, n - 1, key);
      assert Follows(run, n - 1);
      StepClaims(run.states[n - 1], run.events[n - 1], key);
    }
  }

  /**
   After a reset or an accepted invitation a user has at most one live session, one more for each request that was
   about to create one by then, and one for each that comes later.  Refreshes of older sessions add none.
   */
  lemma SessionsAfterReset(run: Run, m: nat, n: nat, key: nat)
    requires ValidRun(run) && m < n <= |run.events| && StartsOver(run.states[m], run.events[m], key)
    ensures |LiveSessions(run.states[n].accounts, key)|
      <= 1 + |Openers(run.states[m], key)| + Opened(run, m + 1, n, key)
  {
    assert Follows(run, m);
    StepClaims(run.states[m], run.events[m], key);
    ClaimsGrowByOpenings(run, m + 1, n, key);
  }

  /** As one step each, they leave the user one live session, the new one, and other users theirs. */
  lemma ExactlyOneSessionLeft(a: Accounts, key: nat, now: int)
    ensures LiveSessions(AcceptInvitation(a, key, now), key) == {|a.sessions|}
    ensures key in a.users ==> LiveSessions(ResetPassword(a, key, now), key) == {|a.sessions|}
    ensures forall other | other != key :: LiveSessions(AcceptInvitation(a, key, now), other) == LiveSessions(a, other)
    ensures forall other | other != key :: LiveSessions(ResetPassword(a, key, now), other) == LiveSessions(a, other)
  {
  }

  // -------------------------------------------------- runs that fall short

  ghost predicate Reached(s: Sys) {
    exists run: Run :: ValidRun(run) && run.states[|run.events|] == s
  }

  lemma ReachedFirst()
    ensures Reached(Sys(Accounts(map[], []), map[]))
  {
    var run := Run([Sys(Accounts(map[], []), map[])], []);
    assert ValidRun(run) && run.states[|run.events|] == Sys(Accounts(map[], []), map[]);
  }

  lemma ReachedNext(s: Sys, e: Event) returns (t: Sys)
    requires Reached(s) && Enabled(s, e)
    ensures t == Step(s, e) && Reached(t)
  {
    t := Step(s, e);
    var run: Run :| ValidRun(run) && run.states[|run.events|] == s;
    var longer := Run(run.states + [t], run.events + [e]);
    forall i | 0 <= i < |longer.events| ensures Follows(longer, i) {
      if i < |run.events| {
        assert Follows(run, i);
      }
    }
    assert ValidRun(longer) && longer.states[|longer.events|] == t;
  }

  lemma InvitedUser(key: nat) returns (s: Sys)
    ensures Reached(s) && s.requests == map[] && MayLogin(s.accounts, key)
    ensures s.accounts.sessions == [Session(key, false)] && HasLiveSession(s.accounts, key)
  {
    ReachedFirst();
    s := ReachedNext(Sys(Accounts(map[], []), map[]), WriteAccepted(0, key, 1));
    s := ReachedNext(s, RevokeSessions(0));
    s := ReachedNext(s, CreateSession(0));
    assert s.accounts.sessions[0] == Session(key, false);
  }

  ghost predicate Leads(s: Sys, events: seq<Event>, t: Sys)
    decreases |events|
  {
    if events == [] then s == t
    else Enabled(s, events[0]) && Leads(Step(s, events[0]), events[1..], t)
  }

  lemma LeadsFirst(s: Sys, e: Event, events: seq<Event>, t: Sys)
    requires Enabled(s, e) && Leads(Step(s, e), events, t)
    ensures Leads(s, [e] + events, t)
  {
    assert ([e] + events)[1..] == events;
  }

  lemma DisabledBeforeSession(s: Sys, q: nat, r: nat, key: nat) returns (t: Sys)
    requires s.requests == map[q := Opening(key)] && key in s.accounts.users && r != q
    ensures t.requests == map[] && !LockedOut(t, key)
    ensures Leads(s, [WriteUpdate(r, key, Some(Disabled), 2), RevokeSessions(r), CreateSession(q)], t)
  {
    var s1 := Step(s, WriteUpdate(r, key, Some(Disabled), 2));
    var s2 := Step(s1, RevokeSessions(r));
    assert s2.requests == map[q := Opening(key)];
    t := Step(s2, CreateSession(q));
    assert t.accounts.sessions[|s2.accounts.sessions|] == Session(key, false);
    assert t.requests == map[] && !Disabling(t, key) && HasLiveSession(t.accounts, key);
    LeadsFirst(s2, CreateSession(q), [], t);
    LeadsFirst(s1, RevokeSessions(r), [CreateSession(q)], t);
    LeadsFirst(s, WriteUpdate(r, key, Some(Disabled), 2), [RevokeSessions(r), CreateSession(q)], t);
  }

  lemma {:induction false} LeadsOn(s: Sys, events: seq<Event>, t: Sys, more: seq<Event>, u: Sys)
    requires Leads(s, events, t) && Leads(t, more, u)
    ensures Leads(s, events + more, u)
    decreases |events|
  {
    if events == [] {
      assert events + more == more;
    } else {
      LeadsOn(Step(s, events[0]), events[1..], t, more, u);
      assert (events + more)[1..] == events[1..] + more;
    }
  }

  // The steps of request 1 up to the session it is about to create.
  predicate OpensSession(key: nat, opening: seq<Event>) {
    || opening == [PassLogin(1, key)]
    || opening == [PassRefresh(1, 0), Rotate(1)]
    || opening == [WriteVerified(1, key, 1)]
    || opening == [WriteReset(1, key, 1)]
    || opening == [WriteAccepted(1, key, 1), RevokeSessions(1)]
  }

  lemma OpeningLeads(s: Sys, key: nat, opening: seq<Event>) returns (t: Sys)
    requires OpensSession(key, opening) && s.requests == map[] && MayLogin(s.accounts, key)
    requires s.accounts.sessions == [Session(key, false)]
    ensures Leads(s, opening, t) && t.requests == map[1 := Opening(key)] && key in t.accounts.users
  {
    t := Step(s, opening[0]);
    assert Leads(t, [], t);
    if |opening| == 2 {
      var u := Step(t, opening[1]);
      LeadsFirst(t, opening[1], [], u);
      LeadsFirst(s, opening[0], [opening[1]], u);
      assert opening == [opening[0]] + [opening[1]];
      t := u;
    } else {
      LeadsFirst(s, opening[0], [], t);
      assert opening == [opening[0]] + [];
    }
  }

  /** Every method that creates a session leaves the user one if updateUser disables the user just before. */
  lemma LateSessionForDisabledUser(key: nat, opening: seq<Event>) returns (s: Sys, t: Sys)
    requires OpensSession(key, opening)
    ensures Reached(s) && t.requests == map[] && !LockedOut(t, key)
    ensures Leads(s, opening + [WriteUpdate(2, key, Some(Disabled), 2), RevokeSessions(2), CreateSession(1)], t)
  {
    s := InvitedUser(key);
    var s1 := OpeningLeads(s, key, opening);
    t := DisabledBeforeSession(s1, 1, 2, key);
    LeadsOn(s, opening, s1, [WriteUpdate(2, key, Some(Disabled), 2), RevokeSessions(2), CreateSession(1)], t);
  }

  /** So does an updateUser that dies between its two statements. */
  lemma DyingUpdateLeavesSession(key: nat)
    ensures exists t :: Reached(t) && t.requests == map[] && !LockedOut(t, key)
  {
    var s := InvitedUser(key);
    var t := ReachedNext(s, WriteUpdate(1, key, Some(Disabled), 2));
    assert t.accounts.sessions == s.accounts.sessions;
    t := ReachedNext(t, Crash(1));
    assert t.requests == map[] && HasLiveSession(t.accounts, key);
  }

  // `many` logins have passed their checks and have yet to create their sessions.
  ghost predicate LoginsPending(s: Sys, key: nat, many: nat) {
    && Reached(s) && MayLogin(s.accounts, key)
    && (forall q :: q in s.requests <==> 1 <= q <= many)
    && (forall q | q in s.requests :: s.requests[q] == Opening(key))
  }

  lemma {:induction false} ManyLogins(key: nat, many: nat) returns (s: Sys)
    ensures LoginsPending(s, key, many)
  {
    if many == 0 {
      s := InvitedUser(key);
    } else {
      s := ManyLogins(key, many - 1);
      s := ReachedNext(s, PassLogin(many, key));
    }
  }

  lemma CountUpTo(s: set<nat>, many: nat)
    requires forall q :: q in s <==> 1 <= q <= many
    ensures |s| == many
  {
    if many > 0 {
      CountUpTo(s - {many}, many - 1);
    }
  }

  lemma {:induction false} SessionsGetCreated(s: Sys, key: nat, many: nat) returns (events: seq<Event>, t: Sys)
    requires LoginsPending(s, key, many)
    ensures Leads(s, events, t) && t.requests == map[]
    ensures |LiveSessions(t.accounts, key)| == |LiveSessions(s.accounts, key)| + many
    decreases many
  {
    if many == 0 {
      events, t := [], s;
    } else {
      var s1 := ReachedNext(s, CreateSession(many));
      assert LiveSessions(s1.accounts, key) == LiveSessions(s.accounts, key) + {|s.accounts.sessions|};
      events, t := SessionsGetCreated(s1, key, many - 1);
      LeadsFirst(s, CreateSession(many), events, t);
      events := [CreateSession(many)] + events;
    }
  }

  /** The bound is reached: all logins that passed with the old password before a reset get their sessions after it. */
  lemma LoginsOutliveReset(key: nat, many: nat) returns (s: Sys, events: seq<Event>, t: Sys)
    ensures Reached(s) && |Openers(s, key)| == many
    ensures Leads(s, [WriteReset(0, key, 2)] + events, t) && t.requests == map[]
    ensures |LiveSessions(t.accounts, key)| == 1 + many
  {
    s := ManyLogins(key, many);
    CountUpTo(Openers(s, key), many);
    var s1 := ReachedNext(s, WriteReset(0, key, 2));
    assert LiveSessions(s1.accounts, key) == {};
    var s2 := ReachedNext(s1, CreateSession(0));
    assert LiveSessions(s2.accounts, key) == {|s1.accounts.sessions|};
    events, t := SessionsGetCreated(s2, key, many);
    LeadsFirst(s1, CreateSession(0), events, t);
    events := [CreateSession(0)] + events;
    LeadsFirst(s, WriteReset(0, key, 2), events, t);
  }

  // ------------------------------------------------------- the service

  datatype AccountError = NotFound | InvalidCredentials

  // Row `id` is the one unrevoked session of the user, and the last of all.
  predicate OnlyLive(sessions: seq<Session>, user: nat, id: nat) {
    && |sessions| == id + 1
    && forall i | 0 <= i < |sessions| && sessions[i].user == user :: sessions[i].revoked <==> i != id
  }

  class AccountService {
    var users: map<nat, User>
    var sessions: seq<Session>

    function Snapshot(): Accounts
      reads this
    {
      Accounts(users, sessions)
    }

    constructor ()
      ensures Snapshot() == Accounts(map[], [])
    {
      users, sessions := map[], [];
    }

    method SignupFor(key: nat)
      modifies this
      ensures Snapshot() == Signup(old(Snapshot()), key)
      ensures key !in old(users) ==> users == old(users)[key := User(Pending, None)]
      ensures key in old(users) ==> users == old(users)
      ensures sessions == old(sessions)
    {
      if key in users && users[key].status != Pending {
        return;
      }
      users := users[key := if key in users then users[key].(status := Pending) else User(Pending, None)];
    }

    method VerifyEmailFor(key: nat, now: int) returns (r: Result<nat, AccountError>)
      modifies this
      ensures Snapshot() == VerifyEmail(old(Snapshot()), key, now)
      ensures r.Ok? ==> users == old(users)[key := User(Active, Some(now))]
      ensures r.Ok? ==> sessions == old(sessions) + [Session(key, false)]
      ensures r.Err? ==> users == old(users) && sessions == old(sessions)
      ensures r == if key in old(users) then Ok(|old(sessions)|) else Err(NotFound)
    {
      if key !in users {
        return Err(NotFound);
      }
      users := users[key := users[key].(status := Active, verifiedAt := Some(now))];
      sessions := sessions + [Session(key, false)];
      r := Ok(|sessions| - 1);
    }

    // `passwordValid` is what verifying the presented password against the user's hash says.
    method Login(key: nat, passwordValid: bool) returns (r: Result<nat, AccountError>)
      modifies this
      ensures r.Ok? <==> MayLogin(old(Snapshot()), key) && passwordValid
      ensures r.Ok? <==> key in old(users) && old(users)[key].status == Active && passwordValid
      ensures users == old(users) && sessions == if r.Ok? then old(sessions) + [Session(key, false)] else old(sessions)
      ensures r.Ok? ==> r.value == |old(sessions)| && Snapshot() == AddSession(old(Snapshot()), key)
      ensures r.Err? ==> r.error == InvalidCredentials && Snapshot() == old(Snapshot())
    {
      if key !in users || users[key].status != Active || !passwordValid {
        return Err(InvalidCredentials);
      }
      sessions := sessions + [Session(key, false)];
      r := Ok(|sessions| - 1);
    }

    // `presented` is what the checks of the session's expiry, app and secret say.
    method Refresh(session: nat, presented: bool) returns (r: Result<nat, AccountError>)
      modifies this
      ensures r.Ok? <==> MayRefresh(old(Snapshot()), session) && presented
      ensures r.Ok? ==> r.value == |old(sessions)|
      ensures r.Ok? ==> Snapshot() == AddSession(RevokeOne(old(Snapshot()), session), old(sessions)[session].user)
      ensures r.Ok? <==>
        && presented && session < |old(sessions)| && !old(sessions)[session].revoked
        && old(sessions)[session].user in old(users) && old(users)[old(sessions)[session].user].status == Active
      ensures r.Ok? ==>
        var user := old(sessions)[session].user;
        users == old(users) && sessions == old(sessions)[session := Session(user, true)] + [Session(user, false)]
      ensures r.Err? ==> Snapshot() == old(Snapshot())
    {
      if session >= |sessions| || sessions[session].revoked {
        return Err(InvalidCredentials);
      }
      var user := sessions[session].user;
      if user !in users || users[user].status != Active || !presented {
        return Err(InvalidCredentials);
      }
      sessions := sessions[session := Session(user, true)] + [Session(user, false)];
      r := Ok(|sessions| - 1);
    }

    method RevokeSessionsOf(user: nat)
      modifies this`sessions
      ensures sessions == RevokeAll(old(sessions), user)
      ensures |sessions| == |old(sessions)|
      ensures forall i | 0 <= i < |sessions| ::
        sessions[i].user == old(sessions)[i].user
        && sessions[i].revoked == (old(sessions)[i].revoked || old(sessions)[i].user == user)
    {
      ghost var was := sessions;
      for i := 0 to |sessions|
        invariant |sessions| == |was|
        invariant forall k | 0 <= k < i :: sessions[k] == if was[k].user == user then Session(user, true) else was[k]
        invariant forall k | i <= k < |was| :: sessions[k] == was[k]
      {
        if sessions[i].user == user && !sessions[i].revoked {
          sessions := sessions[i := sessions[i].(revoked := true)];
        }
      }
      assert sessions == RevokeAll(was, user);
    }

    method AcceptInvitationFor(key: nat, now: int)
      modifies this
      ensures Snapshot() == AcceptInvitation(old(Snapshot()), key, now)
      ensures users == old(users)[key := User(Active, Some(now))] && OnlyLive(sessions, key, |old(sessions)|)
    {
      users := users[key := User(Active, Some(now))];
      RevokeSessionsOf(key);
      sessions := sessions + [Session(key, false)];
    }

    method ResetPasswordFor(key: nat, now: int) returns (r: Result<nat, AccountError>)
      modifies this
      ensures Snapshot() == ResetPassword(old(Snapshot()), key, now)
      ensures r.Ok? ==> users == old(users)[key := User(Active, Some(now))] && OnlyLive(sessions, key, r.value)
      ensures r.Err? ==> users == old(users) && sessions == old(sessions)
      ensures r == if key in old(users) then Ok(|old(sessions)|) else Err(NotFound)
    {
      if key !in users {
        return Err(NotFound);
      }
      users := users[key := User(Active, Some(now))];
      RevokeSessionsOf(key);
      sessions := sessions + [Session(key, false)];
      r := Ok(|sessions| - 1);
    }

    method UpdateUserStatus(key: nat, status: Option<UserStatus>, now: int) returns (r: Result<User, AccountError>)
      modifies this
      ensures Snapshot() == UpdateUser(old(Snapshot()), key, status, now)
      ensures r.Ok? ==> users == old(users)[key := r.value]
      ensures r.Ok? ==> r.value.status == if status.Some? then status.value else old(users)[key].status
      ensures r.Ok? ==> r.value.verifiedAt == if status == Some(Active) then Some(now) else old(users)[key].verifiedAt
      ensures r.Err? || status != Some(Disabled) ==> sessions == old(sessions)
      ensures r.Ok? && status == Some(Disabled) ==> forall i | 0 <= i < |sessions| && sessions[i].user == key ::
        sessions[i].revoked
      ensures r == if key in old(users) then Ok(users[key]) else Err(NotFound)
    {
      if key !in users {
        return Err(NotFound);
      }
      var user := users[key];
      if status.Some? {
        user := user.(status := status.value);
      }
      if status == Some(Active) {
        user := user.(verifiedAt := Some(now));
      }
      users := users[key := user];
      if status == Some(Disabled) {
        RevokeSessionsOf(key);
      }
      r := Ok(users[key]);
    }
  }
}
