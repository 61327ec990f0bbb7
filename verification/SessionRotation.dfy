/**
 Refresh-session rotation.  A request that refreshes reads the session, checks it, revokes it with one conditional
 UPDATE (the compare-and-set) and only then creates the successor; any number of requests interleave between those
 steps.  A session's token id is its row number and its secret a number, so token ids are fresh and a hash verifies
 exactly for the secret it was made from.
 */
module SessionRotation {
  import opened Wrappers

  const REFRESH_SESSION_TTL_MS: nat := 7 * 24 * 60 * 60 * 1000

  datatype Session = Session(user: nat, secret: nat, expiresAt: int, revokedAt: Option<int>, rotatedAt: Option<int>)

  datatype SessionValue = SessionValue(tokenId: nat, secret: nat)

  predicate Usable(s: Session, now: int) {
    s.revokedAt.None? && now < s.expiresAt
  }

  // The read and the checks shared by refresh and logout.
  predicate Accepts(rows: seq<Session>, value: SessionValue, now: int) {
    && value.tokenId < |rows|
    && Usable(rows[value.tokenId], now)
    && rows[value.tokenId].secret == value.secret
  }

  // updateMany where id, revokedAt null, expiresAt > now.
  function Rotate(rows: seq<Session>, id: nat, now: int): seq<Session>
    requires id < |rows|
  {
    if Usable(rows[id], now) then rows[id := rows[id].(revokedAt := Some(now), rotatedAt := Some(now))] else rows
  }

  function Revoke(rows: seq<Session>, id: nat, now: int): seq<Session>
    requires id < |rows|
  {
    rows[id := rows[id].(revokedAt := Some(now))]
  }

  function Create(rows: seq<Session>, user: nat, secret: nat, now: int): seq<Session> {
    rows + [Session(user, secret, now + REFRESH_SESSION_TTL_MS, None, None)]
  }

  // -------------------------------------------------- interleaved requests

  // Where a request stands: past the checks of refresh, past its compare-and-set, or past the checks of logout.
  datatype Progress = Checked(session: nat) | Won(session: nat) | Leaving(session: nat)

  // `lineage[i]` is the login that session i descends from; it belongs to the argument, not to the table.
  datatype Sys = Sys(
    rows: seq<Session>,
    lineage: seq<nat>,
    logins: nat,
    requests: map<nat, Progress>,
    users: set<nat>,
    now: int)

  datatype Event =
    | Tick(ms: nat)
    | Login(user: nat, secret: nat)
    | BeginRefresh(request: nat, value: SessionValue)
    | CompareAndSet(request: nat)
    | CreateSuccessor(request: nat, secret: nat)
    | BeginLogout(request: nat, value: SessionValue)
    | FinishLogout(request: nat)
    | DeleteUser(user: nat)
    | Abandon(request: nat)

  predicate Enabled(s: Sys, e: Event) {
    match e
    case Tick(_) => true
    case Login(user, _) => user in s.users
    case BeginRefresh(q, value) => q !in s.requests && Accepts(s.rows, value, s.now)
    case CompareAndSet(q) => q in s.requests && s.requests[q].Checked? && s.requests[q].session < |s.rows|
    case CreateSuccessor(q, _) => q in s.requests && s.requests[q].Won? && s.requests[q].session < |s.rows|
    case BeginLogout(q, value) => q !in s.requests && Accepts(s.rows, value, s.now)
    case FinishLogout(q) => q in s.requests && s.requests[q].Leaving? && s.requests[q].session < |s.rows|
    case DeleteUser(_) => true
    case Abandon(q) => q in s.requests
  }

  // The compare-and-set of this request succeeds here and now.
  predicate Wins(s: Sys, e: Event)
    requires Enabled(s, e)
  {
    e.CompareAndSet? && Usable(s.rows[s.requests[e.request].session], s.now)
  }

  function Step(s: Sys, e: Event): Sys
    requires Enabled(s, e)
  {
    match e
    case Tick(d) => s.(now := s.now + d)
    case Login(user, secret) =>
      s.(rows := Create(s.rows, user, secret, s.now), lineage := s.lineage + [s.logins], logins := s.logins + 1)
    case BeginRefresh(q, value) => s.(requests := s.requests[q := Checked(value.tokenId)])
    case CompareAndSet(q) =>
      var id := s.requests[q].session;
      if Wins(s, e) then s.(rows := Rotate(s.rows, id, s.now), requests := s.requests[q := Won(id)])
      else s.(requests := s.requests - {q})
    case CreateSuccessor(q, secret) =>
      var id := s.requests[q].session;
      if s.rows[id].user in s.users then
        s.(rows := Create(s.rows, s.rows[id].user, secret, s.now),
           lineage := s.lineage + [if id < |s.lineage| then s.lineage[id] else 0],
           requests := s.requests - {q})
      else s.(requests := s.requests - {q})
    case BeginLogout(q, value) => s.(requests := s.requests[q := Leaving(value.tokenId)])
    case FinishLogout(q) => s.(rows := Revoke(s.rows, s.requests[q].session, s.now), requests := s.requests - {q})
    case DeleteUser(user) => s.(users := s.users - {user})
    case Abandon(q) => s.(requests := s.requests - {q})
  }

  datatype Run = Run(states: seq<Sys>, events: seq<Event>)

  ghost predicate Initial(s: Sys) {
    s.rows == [] && s.lineage == [] && s.logins == 0 && s.requests == map[]
  }

  ghost predicate Follows(run: Run, i: nat)
    requires i < |run.events| < |run.states|
  {
    Enabled(run.states[i], run.events[i]) && run.states[i + 1] == Step(run.states[i], run.events[i])
  }

  ghost predicate ValidRun(run: Run) {
    && |run.states| == |run.events| + 1
    && Initial(run.states[0])
    && forall i | 0 <= i < |run.events| :: Follows(run, i)
  }

  // ---------------------------------------------------------- one row's life

  ghost function Rotations(run: Run, n: nat, id: nat): nat
    requires ValidRun(run) && n <= |run.events|
  {
    if n == 0 then 0 else
    assert Follows(run, n - 1);
    var s, e := run.states[n - 1], run.events[n - 1];
    Rotations(run, n - 1, id) + (if Wins(s, e) && s.requests[e.request].session == id then 1 else 0)
  }

  /** However many refreshes race on a session, at most one wins, and the row records it. */
  lemma {:induction false} RotatedAtMostOnce(run: Run, n: nat, id: nat)
    requires ValidRun(run) && n <= |run.events|
    ensures Rotations(run, n, id)
      == if id < |run.states[n].rows| && run.states[n].rows[id].rotatedAt.Some? then 1 else 0
    ensures id < |run.states[n].rows| && run.states[n].rows[id].rotatedAt.Some? ==>
      run.states[n].rows[id].revokedAt.Some?
  {
    if n == 0 {
    } else {
      RotatedAtMostOnce(run, n - 1, id);
      assert Follows(run, n - 1);
    }
  }

  /** A revoked session never becomes usable again, and a rotation date never changes. */
  lemma {:induction false} RevokedStaysRevoked(run: Run, m: nat, n: nat, id: nat)
    requires ValidRun(run) && m <= n <= |run.events|
    requires id < |run.states[m].rows| && run.states[m].rows[id].revokedAt.Some?
    ensures id < |run.states[n].rows| && run.states[n].rows[id].revokedAt.Some?
    ensures run.states[n].rows[id].rotatedAt == run.states[m].rows[id].rotatedAt
  {
    if m == n {
    } else {
      RevokedStaysRevoked(run, m, n - 1, id);
      assert Follows(run, n - 1);
    }
  }

  // ------------------------------------------------- one session per lineage

  // What keeps a login alive: an unrevoked session, or a refresh that has won and not yet created the successor.
  datatype Holder = Row(id: nat) | InFlight(request: nat)

  ghost predicate Alive(s: Sys, h: Holder) {
    match h
    case Row(id) => id < |s.rows| && s.rows[id].revokedAt.None?
    case InFlight(q) => q in s.requests && s.requests[q].Won?
  }

  ghost function SessionOf(s: Sys, h: Holder): nat
    requires Alive(s, h)
  {
    match h case Row(id) => id case InFlight(q) => s.requests[q].session
  }

  ghost predicate WellFormed(s: Sys) {
    && |s.lineage| == |s.rows|
    && (forall i | 0 <= i < |s.lineage| :: s.lineage[i] < s.logins)
    && (forall q | q in s.requests :: s.requests[q].session < |s.rows|)
  }

  ghost predicate OnePerLineage(s: Sys)
    requires WellFormed(s)
  {
    forall g, h | Alive(s, g) && Alive(s, h) && s.lineage[SessionOf(s, g)] == s.lineage[SessionOf(s, h)] :: g == h
  }

  ghost function Before(s: Sys, e: Event, h: Holder): Holder
    requires Enabled(s, e)
  {
    if e.CompareAndSet? && Wins(s, e) && h == InFlight(e.request) then Row(s.requests[e.request].session)
    else if e.CreateSuccessor? && h == Row(|s.rows|) then InFlight(e.request)
    else h
  }

  // Every holder after a step was held by a holder of the same lineage before it, except a fresh login.
  lemma HoldersComeFrom(s: Sys, e: Event, h: Holder)
    requires Enabled(s, e) && WellFormed(s) && Alive(Step(s, e), h)
    requires !(e.Login? && h == Row(|s.rows|))
    ensures WellFormed(Step(s, e)) && Alive(s, Before(s, e, h))
    ensures Step(s, e).lineage[SessionOf(Step(s, e), h)] == s.lineage[SessionOf(s, Before(s, e, h))]
  {
  }

  lemma StepKeepsOnePerLineage(s: Sys, e: Event)
    requires Enabled(s, e) && WellFormed(s) && OnePerLineage(s)
    ensures WellFormed(Step(s, e)) && OnePerLineage(Step(s, e))
  {
    var t := Step(s, e);
    forall g, h | Alive(t, g) && Alive(t, h) && t.lineage[SessionOf(t, g)] == t.lineage[SessionOf(t, h)]
      ensures g == h
    {
      var root := Row(|s.rows|);
      if !(e.Login? && g == root) { HoldersComeFrom(s, e, g); }
      if !(e.Login? && h == root) { HoldersComeFrom(s, e, h); }
      if !e.Login? {
        assert Before(s, e, g) == Before(s, e, h);
      }
    }
  }

  /** In every interleaving, a login's lineage has at most one live session, counting refreshes in flight. */
  lemma {:induction false} RunKeepsOnePerLineage(run: Run, n: nat)
    requires ValidRun(run) && n <= |run.events|
    ensures WellFormed(run.states[n]) && OnePerLineage(run.states[n])
  {
    if n == 0 {
    } else {
      RunKeepsOnePerLineage(run, n - 1);
      assert Follows(run, n - 1);
      StepKeepsOnePerLineage(run.states[n - 1], run.events[n - 1]);
    }
  }

  ghost function Holders(s: Sys): set<Holder> {
    (set id | 0 <= id < |s.rows| && s.rows[id].revokedAt.None? :: Row(id))
    + (set q | q in s.requests && s.requests[q].Won? :: InFlight(q))
  }

  lemma {:induction false} InjectionBounds(hs: set<Holder>, s: Sys, bound: nat)
    requires WellFormed(s) && forall h | h in hs :: Alive(s, h)
    requires OnePerLineage(s)
    requires forall h | h in hs :: s.lineage[SessionOf(s, h)] < bound
    ensures |hs| <= bound
    decreases bound
  {
    if bound == 0 {
      assert hs == {};
    } else if h :| h in hs && s.lineage[SessionOf(s, h)] == bound - 1 {
      InjectionBounds(hs - {h}, s, bound - 1);
    } else {
      InjectionBounds(hs, s, bound - 1);
    }
  }

  /** Unrevoked sessions and refreshes in flight together never outnumber the logins. */
  lemma LiveSessionsBounded(run: Run, n: nat)
    requires ValidRun(run) && n <= |run.events|
    ensures |Holders(run.states[n])| <= run.states[n].logins
  {
    RunKeepsOnePerLineage(run, n);
    InjectionBounds(Holders(run.states[n]), run.states[n], run.states[n].logins);
  }

  // ------------------------------------------------- whose session it is

  // The users of the logins among the first n steps, in order.
  ghost function LoginUsers(run: Run, n: nat): seq<nat>
    requires n <= |run.events|
  {
    if n == 0 then []
    else LoginUsers(run, n - 1) + (if run.events[n - 1].Login? then [run.events[n - 1].user] else [])
  }

  /** Every session, however often it was rotated, belongs to the user of the login it descends from. */
  lemma {:induction false} SessionsBelongToTheirLogin(run: Run, n: nat)
    requires ValidRun(run) && n <= |run.events|
    ensures WellFormed(run.states[n]) && |LoginUsers(run, n)| == run.states[n].logins
    ensures forall i | 0 <= i < |run.states[n].rows| ::
      run.states[n].rows[i].user == LoginUsers(run, n)[run.states[n].lineage[i]]
  {
    RunKeepsOnePerLineage(run, n);
    if n == 0 {
    } else {
      SessionsBelongToTheirLogin(run, n - 1);
      assert Follows(run, n - 1);
    }
  }

  // ------------------------------------------------------- whole requests

  datatype AuthError = InvalidCredentials | InvalidSession

  // The state after a script of steps, if each is enabled in turn.
  ghost function Play(s: Sys, script: seq<Event>): Option<Sys>
    decreases |script|
  {
    if script == [] then Some(s)
    else if Enabled(s, script[0]) then Play(Step(s, script[0]), script[1..])
    else None
  }

  class AuthService {
    var rows: seq<Session>

    constructor ()
      ensures rows == []
    {
      rows := [];
    }

    method CreateSession(user: nat, secret: nat, now: int) returns (value: SessionValue)
      modifies this
      ensures rows == Create(old(rows), user, secret, now)
      ensures value == SessionValue(|old(rows)|, secret)
      ensures rows == old(rows) + [Session(user, secret, now + 604_800_000, None, None)]
      ensures forall other, later ::
        Accepts(rows, SessionValue(value.tokenId, other), later) <==> other == secret && later < now + 604_800_000
    {
      value := SessionValue(|rows|, secret);
      rows := rows + [Session(user, secret, now + REFRESH_SESSION_TTL_MS, None, None)];
    }

    // The compare-and-set; count is the number of rows it changed.
    method RotateIfLive(id: nat, now: int) returns (count: nat)
      requires id < |rows|
      modifies this
      ensures rows == Rotate(old(rows), id, now)
      ensures count == if old(rows)[id].revokedAt.None? && now < old(rows)[id].expiresAt then 1 else 0
      ensures count == 0 ==> rows == old(rows)
      ensures count == 1 ==> rows == old(rows)[id := old(rows)[id].(revokedAt := Some(now), rotatedAt := Some(now))]
    {
      count := 0;
      if rows[id].revokedAt.None? && rows[id].expiresAt > now {
        rows := rows[id := rows[id].(revokedAt := Some(now), rotatedAt := Some(now))];
        count := 1;
      }
    }

    // `value` is absent when the presented string does not match the session pattern.
    method RefreshSession(
      value: Option<SessionValue>, users: set<nat>, secret: nat, now: int) returns (r: Result<SessionValue, AuthError>)
      modifies this
      ensures value.None? || !Accepts(old(rows), value.value, now) ==> r == Err(InvalidSession) && rows == old(rows)
      ensures value.Some? && Accepts(old(rows), value.value, now) ==>
        var user := old(rows)[value.value.tokenId].user;
        var rotated := Rotate(old(rows), value.value.tokenId, now);
        if user in users then r == Ok(SessionValue(|old(rows)|, secret)) && rows == Create(rotated, user, secret, now)
        else r == Err(InvalidSession) && rows == rotated
      ensures r.Ok? ==> Accepts(rows, r.value, now) && !Accepts(rows, value.value, now)
      ensures r.Ok? <==>
        && value.Some? && value.value.tokenId < |old(rows)|
        && old(rows)[value.value.tokenId].revokedAt == None
        && now < old(rows)[value.value.tokenId].expiresAt
        && old(rows)[value.value.tokenId].secret == value.value.secret
        && old(rows)[value.value.tokenId].user in users
      ensures r.Ok? ==>
        && r.value == SessionValue(|old(rows)|, secret) && |rows| == |old(rows)| + 1
        && rows[r.value.tokenId].user == old(rows)[value.value.tokenId].user
        && rows[value.value.tokenId].revokedAt == rows[value.value.tokenId].rotatedAt == Some(now)
        && forall i | 0 <= i < |old(rows)| && i != value.value.tokenId :: rows[i] == old(rows)[i]
    {
      if value.None? || value.value.tokenId >= |rows| {
        return Err(InvalidSession);
      }
      var id := value.value.tokenId;
      var session := rows[id];
      if session.revokedAt.Some? || session.expiresAt <= now || session.secret != value.value.secret {
        return Err(InvalidSession);
      }
      var count := RotateIfLive(id, now);
      if count != 1 || session.user !in users {
        return Err(InvalidSession);
      }
      var successor := CreateSession(session.user, secret, now);
      r := Ok(successor);
    }

    // Only a presented session is revoked, and it is not marked as rotated.
    method Logout(value: Option<SessionValue>, now: int)
      modifies this
      ensures |rows| == |old(rows)|
      ensures forall i | 0 <= i < |rows| ::
        var was := old(rows)[i];
        if value == Some(SessionValue(i, was.secret)) && was.revokedAt == None && now < was.expiresAt
        then rows[i] == was.(revokedAt := Some(now))
        else rows[i] == was
      ensures rows ==
        if value.Some? && Accepts(old(rows), value.value, now) then Revoke(old(rows), value.value.tokenId, now)
                      else old(rows)
      ensures value.Some? ==> !Accepts(rows, value.value, now)
    {
      if value.None? || value.value.tokenId >= |rows| {
        return;
      }
      var session := rows[value.value.tokenId];
      if session.revokedAt.Some? || session.expiresAt <= now || session.secret != value.value.secret {
        return;
      }
      rows := rows[value.value.tokenId := session.(revokedAt := Some(now))];
    }
  }

  /** A refresh request that nothing interrupts is the run of its three steps. */
  lemma RefreshIsItsSteps(s: Sys, q: nat, value: SessionValue, secret: nat)
    requires WellFormed(s) && q !in s.requests && Accepts(s.rows, value, s.now)
    ensures var p := Play(s, [BeginRefresh(q, value), CompareAndSet(q), CreateSuccessor(q, secret)]);
      var user := s.rows[value.tokenId].user;
      var rotated := Rotate(s.rows, value.tokenId, s.now);
      && p.Some? && p.value.requests == s.requests
      && p.value.rows == if user in s.users then Create(rotated, user, secret, s.now) else rotated
  {
    var s1 := Step(s, BeginRefresh(q, value));
    var s2 := Step(s1, CompareAndSet(q));
    var s3 := Step(s2, CreateSuccessor(q, secret));
    assert Play(s3, []) == Some(s3);
    assert Play(s2, [CreateSuccessor(q, secret)]) == Some(s3);
    assert [CompareAndSet(q), CreateSuccessor(q, secret)][1..] == [CreateSuccessor(q, secret)];
    assert Play(s1, [CompareAndSet(q), CreateSuccessor(q, secret)]) == Some(s3);
    assert [BeginRefresh(q, value), CompareAndSet(q), CreateSuccessor(q, secret)][1..]
        == [CompareAndSet(q), CreateSuccessor(q, secret)];
  }
}
