/**
 One-time tokens of App Auth: consumption, resending and revocation are a read with checks followed by one UPDATE,
 and requests interleave between the two.  `tokenId` stands for the random token id; `nextTokenId` hands out unused
 ones.  A resend replaces the token id and secret of the same row.
 */
module OneTimeTokens {
  import opened Wrappers

  datatype Purpose = EmailVerification | PasswordReset | Invite

  datatype Token = Token(
    tokenId: nat,
    secret: nat,
    purpose: Purpose,
    app: nat,
    expiresAt: int,
    consumedAt: Option<int>,
    revokedAt: Option<int>)

  datatype TokenValue = TokenValue(tokenId: nat, secret: nat)

  predicate Fresh(t: Token, now: int) {
    t.consumedAt.None? && t.revokedAt.None? && now < t.expiresAt
  }

  predicate Presents(t: Token, value: TokenValue, purpose: Purpose, app: nat, now: int) {
    t.tokenId == value.tokenId && t.secret == value.secret && t.purpose == purpose && t.app == app && Fresh(t, now)
  }

  // updateMany where id, consumedAt null, revokedAt null, expiresAt > now: by row, not by token value.
  function Consume(rows: seq<Token>, id: nat, now: int): seq<Token>
    requires id < |rows|
  {
    if Fresh(rows[id], now) then rows[id := rows[id].(consumedAt := Some(now))] else rows
  }

  function Replace(rows: seq<Token>, id: nat, value: TokenValue, expiresAt: int): seq<Token>
    requires id < |rows|
  {
    rows[id := rows[id].(tokenId := value.tokenId, secret := value.secret, expiresAt := expiresAt)]
  }

  function Revoke(rows: seq<Token>, id: nat, now: int): seq<Token>
    requires id < |rows|
  {
    rows[id := rows[id].(revokedAt := Some(now))]
  }

  predicate Resendable(t: Token) {
    t.purpose == Invite && t.consumedAt.None? && t.revokedAt.None?
  }

  predicate Revocable(t: Token) {
    t.purpose == Invite && t.revokedAt.None?
  }

  // -------------------------------------------------- interleaved requests

  // A request past its checks; a consumer remembers the value it was shown.
  datatype Progress = Consuming(id: nat, value: TokenValue) | Resending(id: nat) | Revoking(id: nat)

  datatype Sys = Sys(rows: seq<Token>, nextTokenId: nat, requests: map<nat, Progress>, now: int)

  datatype Event =
    | Tick(ms: nat)
    | Issue(purpose: Purpose, app: nat, secret: nat, ttl: nat)
    | BeginConsume(request: nat, id: nat, value: TokenValue, purpose: Purpose, app: nat)
    | FinishConsume(request: nat)
    | BeginResend(request: nat, id: nat)
    | FinishResend(request: nat, secret: nat, ttl: nat)
    | BeginRevoke(request: nat, id: nat)
    | FinishRevoke(request: nat)
    | Abandon(request: nat)

  predicate Enabled(s: Sys, e: Event) {
    match e
    case Tick(_) => true
    case Issue(_, _, _, _) => true
    case BeginConsume(q, id, value, purpose, app) =>
      q !in s.requests && id < |s.rows| && Presents(s.rows[id], value, purpose, app, s.now)
    case FinishConsume(q) => q in s.requests && s.requests[q].Consuming? && s.requests[q].id < |s.rows|
    case BeginResend(q, id) => q !in s.requests && id < |s.rows| && Resendable(s.rows[id])
    case FinishResend(q, _, _) => q in s.requests && s.requests[q].Resending? && s.requests[q].id < |s.rows|
    case BeginRevoke(q, id) => q !in s.requests && id < |s.rows| && Revocable(s.rows[id])
    case FinishRevoke(q) => q in s.requests && s.requests[q].Revoking? && s.requests[q].id < |s.rows|
    case Abandon(q) => q in s.requests
  }

  // This step accepts a token: its conditional update changes the row.
  predicate AcceptsToken(s: Sys, e: Event)
    requires Enabled(s, e)
  {
    e.FinishConsume? && Fresh(s.rows[s.requests[e.request].id], s.now)
  }

  function Step(s: Sys, e: Event): Sys
    requires Enabled(s, e)
  {
    match e
    case Tick(d) => s.(now := s.now + d)
    case Issue(purpose, app, secret, ttl) =>
      s.(rows := s.rows + [Token(s.nextTokenId, secret, purpose, app, s.now + ttl, None, None)],
         nextTokenId := s.nextTokenId + 1)
    case BeginConsume(q, id, value, _, _) => s.(requests := s.requests[q := Consuming(id, value)])
    case FinishConsume(q) => s.(rows := Consume(s.rows, s.requests[q].id, s.now), requests := s.requests - {q})
    case BeginResend(q, id) => s.(requests := s.requests[q := Resending(id)])
    case FinishResend(q, secret, ttl) =>
      s.(rows := Replace(s.rows, s.requests[q].id, TokenValue(s.nextTokenId, secret), s.now + ttl),
         nextTokenId := s.nextTokenId + 1, requests := s.requests - {q})
    case BeginRevoke(q, id) => s.(requests := s.requests[q := Revoking(id)])
    case FinishRevoke(q) => s.(rows := Revoke(s.rows, s.requests[q].id, s.now), requests := s.requests - {q})
    case Abandon(q) => s.(requests := s.requests - {q})
  }

  /** Uninterrupted, the steps of each method change exactly these columns. */
  lemma StepsWriteColumns(s: Sys, q: nat, id: nat, e: Event)
    requires q !in s.requests
    ensures e.Issue? ==>
      Step(s, e).rows == s.rows + [Token(s.nextTokenId, e.secret, e.purpose, e.app, s.now + e.ttl, None, None)]
    ensures e.BeginConsume? && e.request == q && Enabled(s, e) ==>
      Step(Step(s, e), FinishConsume(q)).rows == s.rows[e.id := s.rows[e.id].(consumedAt := Some(s.now))]
    ensures Enabled(s, BeginResend(q, id)) && e.FinishResend? && e.request == q ==>
      Step(Step(s, BeginResend(q, id)), e).rows
      == s.rows[id := Token(s.nextTokenId, e.secret, Invite, s.rows[id].app, s.now + e.ttl, None, None)]
    ensures Enabled(s, BeginRevoke(q, id)) ==>
      Step(Step(s, BeginRevoke(q, id)), FinishRevoke(q)).rows
      == s.rows[id := s.rows[id].(revokedAt := Some(s.now))]
  {
  }

  datatype Run = Run(states: seq<Sys>, events: seq<Event>)

  ghost predicate Follows(run: Run, i: nat)
    requires i < |run.events| < |run.states|
  {
    Enabled(run.states[i], run.events[i]) && run.states[i + 1] == Step(run.states[i], run.events[i])
  }

  ghost predicate ValidRun(run: Run) {
    && |run.states| == |run.events| + 1
    && run.states[0].rows == [] && run.states[0].requests == map[]
    && forall i | 0 <= i < |run.events| :: Follows(run, i)
  }

  ghost predicate AcceptsAt(run: Run, k: nat, id: nat)
    requires ValidRun(run) && k < |run.events|
  {
    assert Follows(run, k);
    AcceptsToken(run.states[k], run.events[k]) && run.states[k].requests[run.events[k].request].id == id
  }

  ghost function Acceptances(run: Run, n: nat, id: nat): nat
    requires ValidRun(run) && n <= |run.events|
  {
    if n == 0 then 0 else Acceptances(run, n - 1, id) + (if AcceptsAt(run, n - 1, id) then 1 else 0)
  }

  /** Under any interleaving a token row is consumed at most once, and the row records it. */
  lemma {:induction false} ConsumedAtMostOnce(run: Run, n: nat, id: nat)
    requires ValidRun(run) && n <= |run.events|
    ensures Acceptances(run, n, id)
      == if id < |run.states[n].rows| && run.states[n].rows[id].consumedAt.Some? then 1 else 0
  {
    if n == 0 {
    } else {
      ConsumedAtMostOnce(run, n - 1, id);
      assert Follows(run, n - 1);
    }
  }

  // Request q was begun at step j with the value row `id` had, for the row's own purpose and app, and in time.
  ghost predicate ShownAt(run: Run, j: nat, q: nat, id: nat)
    requires j < |run.events| < |run.states|
  {
    && run.events[j].BeginConsume? && run.events[j].request == q && run.events[j].id == id
    && id < |run.states[j].rows|
    && run.states[j].rows[id].tokenId == run.events[j].value.tokenId
    && run.states[j].rows[id].secret == run.events[j].value.secret
    && run.states[j].rows[id].purpose == run.events[j].purpose
    && run.states[j].rows[id].app == run.events[j].app
    && run.states[j].rows[id].consumedAt == None && run.states[j].rows[id].revokedAt == None
    && run.states[j].now < run.states[j].rows[id].expiresAt
  }

  lemma {:induction false} ConsumersWereShown(run: Run, n: nat, q: nat) returns (j: nat)
    requires ValidRun(run) && n <= |run.events|
    requires q in run.states[n].requests && run.states[n].requests[q].Consuming?
    ensures j < n && ShownAt(run, j, q, run.states[n].requests[q].id)
  {
    assert Follows(run, n - 1);
    var e := run.events[n - 1];
    if e.BeginConsume? && e.request == q {
      j := n - 1;
    } else {
      j := ConsumersWereShown(run, n - 1, q);
    }
  }

  /**
   A token is accepted only from a request that was shown the right value for the row's purpose and app, and only while
   the row is neither consumed nor revoked nor expired, both when shown and when accepted.
   */
  lemma AcceptedWasShown(run: Run, k: nat, id: nat)
    requires ValidRun(run) && k < |run.events| && AcceptsAt(run, k, id)
    ensures exists j: nat :: j < k && ShownAt(run, j, run.events[k].request, id)
    ensures id < |run.states[k].rows|
    ensures run.states[k].rows[id].consumedAt == None && run.states[k].rows[id].revokedAt == None
    ensures run.states[k].now < run.states[k].rows[id].expiresAt
  {
    assert Follows(run, k);
    var j := ConsumersWereShown(run, k, run.events[k].request);
  }

  lemma {:induction false} RevokedStays(run: Run, m: nat, n: nat, id: nat)
    requires ValidRun(run) && m <= n <= |run.events|
    requires id < |run.states[m].rows| && run.states[m].rows[id].revokedAt.Some?
    ensures id < |run.states[n].rows| && run.states[n].rows[id].revokedAt.Some?
  {
    if m == n {
    } else {
      RevokedStays(run, m, n - 1, id);
      assert Follows(run, n - 1);
    }
  }

  /** No token is accepted after the step that revoked it, whatever a request had read before. */
  lemma NeverAcceptedAfterRevocation(run: Run, m: nat, k: nat, id: nat)
    requires ValidRun(run) && m < k < |run.events|
    requires run.events[m].FinishRevoke? && run.events[m].request in run.states[m].requests
    requires run.states[m].requests[run.events[m].request].id == id
    ensures !AcceptsAt(run, k, id)
  {
    assert Follows(run, m);
    RevokedStays(run, m + 1, k, id);
    assert Follows(run, k);
  }

  // ------------------------------------------------------- replaced values

  ghost predicate IdsBelowNext(s: Sys) {
    && (forall i | 0 <= i < |s.rows| :: s.rows[i].tokenId < s.nextTokenId)
    && (forall q | q in s.requests && s.requests[q].Consuming? :: s.requests[q].value.tokenId < s.nextTokenId)
  }

  lemma {:induction false} TokenIdsAreIssued(run: Run, n: nat)
    requires ValidRun(run) && n <= |run.events|
    ensures IdsBelowNext(run.states[n])
  {
    if n == 0 {
    } else {
      TokenIdsAreIssued(run, n - 1);
      assert Follows(run, n - 1);
    }
  }

  ghost predicate Replaces(s: Sys, e: Event, id: nat) {
    e.FinishResend? && e.request in s.requests && s.requests[e.request].id == id
  }

  // Request q is consuming row id with this value.
  ghost predicate Holds(s: Sys, q: nat, id: nat, value: TokenValue) {
    q in s.requests && s.requests[q] == Consuming(id, value) && id < |s.rows|
  }

  // The row's current value is the one presented.
  ghost predicate Current(s: Sys, id: nat, tokenId: nat) {
    id < |s.rows| && s.rows[id].tokenId == tokenId
  }

  ghost predicate ReplacedBetween(run: Run, j: nat, k: nat, id: nat)
    requires j <= k <= |run.events| < |run.states|
  {
    exists i | j <= i < k :: Replaces(run.states[i], run.events[i], id)
  }

  lemma {:induction false} StaleIffReplaced(run: Run, j: nat, k: nat, q: nat, id: nat, value: TokenValue)
    requires ValidRun(run) && j <= k <= |run.events|
    requires forall i | j <= i <= k :: Holds(run.states[i], q, id, value)
    requires Current(run.states[j], id, value.tokenId)
    ensures !Current(run.states[k], id, value.tokenId) <==> ReplacedBetween(run, j, k, id)
  {
    if j == k {
    } else {
      StaleIffReplaced(run, j, k - 1, q, id, value);
      assert Follows(run, k - 1);
      TokenIdsAreIssued(run, k - 1);
      assert Holds(run.states[k - 1], q, id, value) && Holds(run.states[k], q, id, value);
      if ReplacedBetween(run, j, k - 1, id) {
        var i :| j <= i < k - 1 && Replaces(run.states[i], run.events[i], id);
        assert j <= i < k;
      }
    }
  }

  /**
   A request that began at j and is accepted at k was accepted on a replaced value exactly when a resend of that row
   was written in between.
   */
  lemma AcceptsReplacedValueIff(run: Run, j: nat, k: nat, id: nat)
    requires ValidRun(run) && j < k < |run.events| && AcceptsAt(run, k, id)
    requires run.events[j].BeginConsume? && run.events[j].request == run.events[k].request && run.events[j].id == id
    requires forall i | j < i < k ::
      run.events[i].Tick? || run.events[i].Issue? || run.events[i].request != run.events[k].request
    ensures !Current(run.states[k], id, run.events[j].value.tokenId) <==> ReplacedBetween(run, j + 1, k, id)
  {
    assert Follows(run, j);
    var q, value := run.events[j].request, run.events[j].value;
    HoldsThroughout(run, j + 1, k, q, id, value);
    StaleIffReplaced(run, j + 1, k, q, id, value);
  }

  lemma {:induction false} HoldsThroughout(run: Run, j: nat, k: nat, q: nat, id: nat, value: TokenValue)
    requires ValidRun(run) && j <= k <= |run.events| && Holds(run.states[j], q, id, value)
    requires forall i | j <= i < k :: run.events[i].Tick? || run.events[i].Issue? || run.events[i].request != q
    ensures forall i | j <= i <= k :: Holds(run.states[i], q, id, value)
  {
    if j == k {
    } else {
      HoldsThroughout(run, j, k - 1, q, id, value);
      assert Follows(run, k - 1);
      assert Holds(run.states[k - 1], q, id, value);
    }
  }

  // A value handed out and since replaced is in no row.
  ghost predicate Gone(s: Sys, tokenId: nat) {
    tokenId < s.nextTokenId && forall i | 0 <= i < |s.rows| :: s.rows[i].tokenId != tokenId
  }

  lemma {:induction false} GoneStaysGone(run: Run, m: nat, n: nat, tokenId: nat)
    requires ValidRun(run) && m <= n <= |run.events| && Gone(run.states[m], tokenId)
    ensures Gone(run.states[n], tokenId)
  {
    if m == n {
    } else {
      GoneStaysGone(run, m, n - 1, tokenId);
      assert Follows(run, n - 1);
    }
  }

  // Whole methods as steps: the update of a request directly follows its checks.
  ghost predicate Serial(run: Run) {
    forall k | 0 <= k < |run.events|
      && (run.events[k].FinishConsume? || run.events[k].FinishResend? || run.events[k].FinishRevoke?) ::
      k > 0 && (run.events[k - 1].BeginConsume? || run.events[k - 1].BeginResend? || run.events[k - 1].BeginRevoke?)
      && run.events[k - 1].request == run.events[k].request
  }

  /** With whole methods as steps, a replaced token value is never accepted again. */
  lemma ReplacedValueNeverAccepted(run: Run, m: nat, k: nat, tokenId: nat)
    requires ValidRun(run) && Serial(run) && m < k < |run.events| && Gone(run.states[m], tokenId)
    requires run.events[k].FinishConsume? && run.events[k].request in run.states[k].requests
    ensures run.states[k].requests[run.events[k].request].Consuming? ==>
      run.states[k].requests[run.events[k].request].value.tokenId != tokenId
  {
    assert Follows(run, k - 1) && Follows(run, k);
    GoneStaysGone(run, m, k - 1, tokenId);
  }

  lemma {:induction false} TokenIdsAreUnique(run: Run, n: nat, i: nat, j: nat)
    requires ValidRun(run) && n <= |run.events| && i < |run.states[n].rows| && j < |run.states[n].rows| && i != j
    ensures run.states[n].rows[i].tokenId != run.states[n].rows[j].tokenId
  {
    if n == 0 {
    } else {
      assert Follows(run, n - 1);
      TokenIdsAreIssued(run, n - 1);
      if i < |run.states[n - 1].rows| && j < |run.states[n - 1].rows| {
        TokenIdsAreUnique(run, n - 1, i, j);
      }
    }
  }

  /** A resend makes the value it replaces one that is in no row. */
  lemma ResendReplaces(run: Run, m: nat, id: nat)
    requires ValidRun(run) && m < |run.events| && id < |run.states[m].rows|
      && Replaces(run.states[m], run.events[m], id)
    ensures Gone(run.states[m + 1], run.states[m].rows[id].tokenId)
  {
    assert Follows(run, m);
    TokenIdsAreIssued(run, m);
    forall j: nat | j < |run.states[m].rows| && j != id
      ensures run.states[m].rows[j].tokenId != run.states[m].rows[id].tokenId
    {
      TokenIdsAreUnique(run, m, j, id);
    }
  }

  ghost predicate Leads(s: Sys, e: Event, t: Sys) {
    Enabled(s, e) && t == Step(s, e)
  }

  // Request 1 passes its checks, request 2 resends the invitation, then request 1 updates the row.
  function RacingEvents(): seq<Event> {
    [Issue(Invite, 0, 7, 1000), BeginConsume(1, 0, TokenValue(0, 7), Invite, 0), BeginResend(2, 0),
     FinishResend(2, 8, 1000), FinishConsume(1)]
  }

  function RacingStates(): seq<Sys> {
    var reading := Consuming(0, TokenValue(0, 7));
    [ Sys([], 0, map[], 0),
      Sys([Token(0, 7, Invite, 0, 1000, None, None)], 1, map[], 0),
      Sys([Token(0, 7, Invite, 0, 1000, None, None)], 1, map[1 := reading], 0),
      Sys([Token(0, 7, Invite, 0, 1000, None, None)], 1, map[1 := reading, 2 := Resending(0)], 0),
      Sys([Token(1, 8, Invite, 0, 1000, None, None)], 2, map[1 := reading], 0),
      Sys([Token(1, 8, Invite, 0, 1000, Some(0), None)], 2, map[], 0)]
  }

  lemma RacingStepsLead(i: nat)
    requires i < 5
    ensures Leads(RacingStates()[i], RacingEvents()[i], RacingStates()[i + 1])
  {
    var s, e, t := RacingStates()[i], RacingEvents()[i], RacingStates()[i + 1];
    assert t.rows == Step(s, e).rows;
    assert t.requests == Step(s, e).requests;
  }

  /** Without that, an invitation replaced between the check and the update is still accepted by its old value. */
  lemma ReplacedValueAcceptedInBetween()
    ensures exists run: Run ::
      ValidRun(run) && |run.events| == 5 && AcceptsAt(run, 4, 0) && run.events[1].BeginConsume? &&
      !Current(run.states[4], 0, run.events[1].value.tokenId)
  {
    var run := Run(RacingStates(), RacingEvents());
    forall i | 0 <= i < 5 ensures Follows(run, i) {
      RacingStepsLead(i);
      assert Leads(run.states[i], run.events[i], run.states[i + 1]);
    }
    assert AcceptsAt(run, 4, 0);
    assert !Current(run.states[4], 0, run.events[1].value.tokenId);
  }

  // --------------------------------------------------------- whole methods

  datatype TokenError = InvalidToken | InvitationNotFound | CannotBeResent

  class TokenService {
    var rows: seq<Token>
    var nextTokenId: nat

    ghost predicate Valid()
      reads this
    {
      && (forall i | 0 <= i < |rows| :: rows[i].tokenId < nextTokenId)
      && (forall i, j | 0 <= i < j < |rows| :: rows[i].tokenId != rows[j].tokenId)
    }

    constructor ()
      ensures Valid() && rows == []
    {
      rows, nextTokenId := [], 0;
    }

    method CreateOneTimeToken(purpose: Purpose, app: nat, secret: nat, ttl: nat, now: int) returns (value: TokenValue)
      requires Valid()
      modifies this
      ensures Valid() && value == TokenValue(old(nextTokenId), secret) && nextTokenId == old(nextTokenId) + 1
      ensures rows == old(rows) + [Token(value.tokenId, secret, purpose, app, now + ttl, None, None)]
    {
      value := TokenValue(nextTokenId, secret);
      rows := rows + [Token(nextTokenId, secret, purpose, app, now + ttl, None, None)];
      nextTokenId := nextTokenId + 1;
    }

    method FindByTokenId(tokenId: nat) returns (found: Option<nat>)
      ensures found.Some? ==> found.value < |rows| && rows[found.value].tokenId == tokenId
      ensures found.None? ==> forall i | 0 <= i < |rows| :: rows[i].tokenId != tokenId
    {
      for i := 0 to |rows|
        invariant forall k | 0 <= k < i :: rows[k].tokenId != tokenId
      {
        if rows[i].tokenId == tokenId {
          return Some(i);
        }
      }
      found := None;
    }

    // `value` is absent when the presented string does not match the token pattern.
    method ConsumeOneTimeToken(
      value: Option<TokenValue>, purpose: Purpose, app: nat, now: int) returns (r: Result<nat, TokenError>)
      requires Valid()
      modifies this
      ensures Valid() && nextTokenId == old(nextTokenId)
      ensures r.Ok? <==>
        value.Some? && exists id: nat :: id < |old(rows)| && Presents(old(rows)[id], value.value, purpose, app, now)
      ensures r.Ok? ==> r.value < |old(rows)| && Presents(old(rows)[r.value], value.value, purpose, app, now)
                        && rows == Consume(old(rows), r.value, now)
      ensures r.Err? ==> r.error == InvalidToken && rows == old(rows)
      ensures value.None? ==> r.Err?
      ensures r.Err? && value.Some? ==> forall id | 0 <= id < |rows| && rows[id].tokenId == value.value.tokenId ::
        rows[id].secret != value.value.secret || rows[id].purpose != purpose || rows[id].app != app
        || rows[id].consumedAt != None || rows[id].revokedAt != None || rows[id].expiresAt <= now
      ensures r.Ok? ==>
        && r.value < |old(rows)| && rows == old(rows)[r.value := old(rows)[r.value].(consumedAt := Some(now))]
        && old(rows)[r.value].tokenId == value.value.tokenId && old(rows)[r.value].secret == value.value.secret
        && old(rows)[r.value].purpose == purpose && old(rows)[r.value].app == app
        && old(rows)[r.value].consumedAt == None && old(rows)[r.value].revokedAt == None
        && now < old(rows)[r.value].expiresAt
    {
      if value.None? {
        return Err(InvalidToken);
      }
      var found := FindByTokenId(value.value.tokenId);
      if found.None? {
        return Err(InvalidToken);
      }
      var token := rows[found.value];
      if token.app != app || token.purpose != purpose || token.revokedAt.Some? || token.consumedAt.Some?
         || token.expiresAt <= now || token.secret != value.value.secret {
        return Err(InvalidToken);
      }
      rows := rows[found.value := token.(consumedAt := Some(now))];
      r := Ok(found.value);
    }

    method ResendInvitation(id: nat, secret: nat, ttl: nat, now: int) returns (r: Result<TokenValue, TokenError>)
      requires Valid()
      modifies this
      ensures Valid()
      ensures r.Ok? <==>
        && id < |old(rows)| && old(rows)[id].purpose == Invite
        && old(rows)[id].consumedAt == None && old(rows)[id].revokedAt == None
      ensures r.Ok? ==>
        && r.value == TokenValue(old(nextTokenId), secret)
        && rows == old(rows)[id := Token(r.value.tokenId, secret, Invite, old(rows)[id].app, now + ttl, None, None)]
      ensures r.Ok? ==>
        rows == Replace(old(rows), id, r.value, now + ttl)
        && Presents(rows[id], r.value, Invite, rows[id].app, now + ttl - 1)
      ensures r.Ok? ==> forall i | 0 <= i < |rows| :: rows[i].tokenId != old(rows)[id].tokenId
      ensures r.Err? ==> rows == old(rows)
    {
      if id >= |rows| || rows[id].purpose != Invite {
        return Err(InvitationNotFound);
      }
      if rows[id].consumedAt.Some? || rows[id].revokedAt.Some? {
        return Err(CannotBeResent);
      }
      var value := TokenValue(nextTokenId, secret);
      rows := rows[id := rows[id].(tokenId := value.tokenId, secret := secret, expiresAt := now + ttl)];
      nextTokenId := nextTokenId + 1;
      r := Ok(value);
    }

    method RevokeInvitation(id: nat, now: int) returns (r: Result<Token, TokenError>)
      modifies this
      ensures nextTokenId == old(nextTokenId)
      ensures r.Ok? <==> id < |old(rows)| && old(rows)[id].purpose == Invite
      ensures r.Ok? ==>
        rows == (if Revocable(old(rows)[id]) then Revoke(old(rows), id, now) else old(rows)) && r.value == rows[id]
      ensures r.Ok? ==> r.value.revokedAt.Some?
      ensures r.Ok? && old(rows)[id].revokedAt == None ==>
        rows == old(rows)[id := old(rows)[id].(revokedAt := Some(now))]
      ensures r.Ok? && old(rows)[id].revokedAt != None ==> rows == old(rows)
      ensures r.Err? ==> rows == old(rows)
    {
      if id >= |rows| || rows[id].purpose != Invite {
        return Err(InvitationNotFound);
      }
      if rows[id].revokedAt.None? {
        rows := rows[id := rows[id].(revokedAt := Some(now))];
      }
      r := Ok(rows[id]);
    }
  }
}
