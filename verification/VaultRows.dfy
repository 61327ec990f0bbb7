/**
 Environment variables and provider credentials: a row in the core database points at a secret in a separate vault.
 `create` checks for a duplicate, stores the secret, inserts the row under a partial unique index, writes an audit
 entry and, when something throws after the secret was stored, deletes the secret again.  Requests interleave between
 all of these steps.
 */
module VaultRows {
  import opened Wrappers

  datatype Slot =
    | Variable(tenant: string, name: string)
    | Credential(tenant: string, provider: string, scopeType: string, scopeId: Option<string>, name: string)

  // What the partial unique index on active rows compares: COALESCE(scope_id, '').
  function IndexKey(slot: Slot): Slot {
    if slot.Credential? && slot.scopeId.None? then slot.(scopeId := Some("")) else slot
  }

  // The same key: every column equal, an absent scope counting as the empty one.
  predicate SameKey(a: Slot, b: Slot) {
    match (a, b)
    case (Variable(tenant, name), Variable(tenant', name')) => tenant == tenant' && name == name'
    case (Credential(tenant, provider, scopeType, scope, name),
          Credential(tenant', provider', scopeType', scope', name')) =>
      && tenant == tenant' && provider == provider' && scopeType == scopeType' && name == name'
      && (scope == scope' || (scope.None? && scope' == Some("")) || (scope == Some("") && scope'.None?))
    case _ => false
  }

  lemma SameKeyIff(a: Slot, b: Slot)
    ensures IndexKey(a) == IndexKey(b) <==> SameKey(a, b)
  {
  }

  datatype Row = Row(slot: Slot, secretId: nat, active: bool)

  // Where a request stands.
  datatype Progress =
    | Checked(slot: Slot)                         // no duplicate seen
    | Stored(slot: Slot, secretId: nat)           // secret in the vault, row not inserted
    | Inserted(secretId: nat)                     // row inserted, audit entry to come
    | CleaningUp(secretId: nat, hasRow: bool)     // in the catch block, before the compensating delete
    | Rotating(row: nat)
    | Revoking(row: nat)

  datatype Sys = Sys(rows: seq<Row>, vault: map<nat, string>, nextSecret: nat, requests: map<nat, Progress>)

  datatype Event =
    | BeginCreate(request: nat, slot: Slot)
    | StoreSecret(request: nat, secret: string)
    | StoreUnanswered(request: nat, secret: string)   // stored, but the answer with its id is lost
    | InsertRow(request: nat)
    | InsertError(request: nat)
    | InsertUnanswered(request: nat)                  // inserted, but the answer is lost and the insert throws
    | AuditWritten(request: nat)
    | AuditError(request: nat)
    | DeleteSecret(request: nat)
    | DeleteError(request: nat)
    | BeginRotate(request: nat, row: nat)
    | UpdateSecret(request: nat, secret: string)
    | BeginRevoke(request: nat, row: nat)
    | FinishRevoke(request: nat)
    | Crash(request: nat)

  predicate ActiveDuplicate(rows: seq<Row>, slot: Slot) {
    exists i :: 0 <= i < |rows| && rows[i].active && rows[i].slot == slot
  }

  predicate IndexViolated(rows: seq<Row>, slot: Slot) {
    exists i :: 0 <= i < |rows| && rows[i].active && IndexKey(rows[i].slot) == IndexKey(slot)
  }

  predicate Enabled(s: Sys, e: Event) {
    match e
    case BeginCreate(q, slot) => q !in s.requests && !ActiveDuplicate(s.rows, slot)
    case StoreSecret(q, _) => q in s.requests && s.requests[q].Checked?
    case InsertRow(q) => q in s.requests && s.requests[q].Stored?
    case StoreUnanswered(q, _) => q in s.requests && s.requests[q].Checked?
    case InsertError(q) => q in s.requests && s.requests[q].Stored?
    case InsertUnanswered(q) =>
      q in s.requests && s.requests[q].Stored? && !IndexViolated(s.rows, s.requests[q].slot)
    case AuditWritten(q) => q in s.requests && s.requests[q].Inserted?
    case AuditError(q) => q in s.requests && s.requests[q].Inserted?
    case DeleteSecret(q) => q in s.requests && s.requests[q].CleaningUp?
    case DeleteError(q) => q in s.requests && s.requests[q].CleaningUp?
    case BeginRotate(q, row) => q !in s.requests && row < |s.rows|
    case UpdateSecret(q, _) => q in s.requests && s.requests[q].Rotating?
    case BeginRevoke(q, row) => q !in s.requests && row < |s.rows|
    case FinishRevoke(q) => q in s.requests && s.requests[q].Revoking?
    case Crash(q) => q in s.requests
  }

  // The secret a creator is answerable for: no row points at it.
  function Owed(p: Progress): Option<nat> {
    match p
    case Stored(_, id) => Some(id)
    case CleaningUp(id, hasRow) => if hasRow then None else Some(id)
    case _ => None
  }

  function Revoked(rows: seq<Row>, row: nat): seq<Row> {
    if row < |rows| then rows[row := rows[row].(active := false)] else rows
  }

  function Rewritten(vault: map<nat, string>, rows: seq<Row>, row: nat, secret: string): map<nat, string> {
    if row < |rows| && rows[row].secretId in vault then vault[rows[row].secretId := secret] else vault
  }

  function Step(s: Sys, e: Event): Sys
    requires Enabled(s, e)
  {
    match e
    case BeginCreate(q, slot) => s.(requests := s.requests[q := Checked(slot)])
    case StoreSecret(q, secret) =>
      s.(vault := s.vault[s.nextSecret := secret], nextSecret := s.nextSecret + 1,
         requests := s.requests[q := Stored(s.requests[q].slot, s.nextSecret)])
    case InsertRow(q) =>
      var p := s.requests[q];
      if IndexViolated(s.rows, p.slot) then s.(requests := s.requests[q := CleaningUp(p.secretId, false)])
      else s.(rows := s.rows + [Row(p.slot, p.secretId, true)], requests := s.requests[q := Inserted(p.secretId)])
    case StoreUnanswered(q, secret) =>
      s.(vault := s.vault[s.nextSecret := secret], nextSecret := s.nextSecret + 1, requests := s.requests - {q})
    case InsertError(q) => s.(requests := s.requests[q := CleaningUp(s.requests[q].secretId, false)])
    case InsertUnanswered(q) =>
      var p := s.requests[q];
      s.(rows := s.rows + [Row(p.slot, p.secretId, true)], requests := s.requests[q := CleaningUp(p.secretId, true)])
    case AuditWritten(q) => s.(requests := s.requests - {q})
    case AuditError(q) => s.(requests := s.requests[q := CleaningUp(s.requests[q].secretId, true)])
    case DeleteSecret(q) =>
      s.(vault := s.vault - {s.requests[q].secretId}, requests := s.requests - {q})
    case DeleteError(q) => s.(requests := s.requests - {q})
    case BeginRotate(q, row) => s.(requests := s.requests[q := Rotating(row)])
    case UpdateSecret(q, secret) =>
      s.(vault := Rewritten(s.vault, s.rows, s.requests[q].row, secret), requests := s.requests - {q})
    case BeginRevoke(q, row) => s.(requests := s.requests[q := Revoking(row)])
    case FinishRevoke(q) => s.(rows := Revoked(s.rows, s.requests[q].row), requests := s.requests - {q})
    case Crash(q) => s.(requests := s.requests - {q})
  }

  /** Uninterrupted, a creation adds the row asked for and its secret, or nothing if the key is taken. */
  lemma CreateIsItsSteps(s: Sys, q: nat, slot: Slot, secret: string)
    requires Enabled(s, BeginCreate(q, slot)) && s.nextSecret !in s.vault
    ensures var t := Step(Step(Step(s, BeginCreate(q, slot)), StoreSecret(q, secret)), InsertRow(q));
      if exists i :: 0 <= i < |s.rows| && s.rows[i].active && SameKey(s.rows[i].slot, slot) then
        Step(t, DeleteSecret(q)).rows == s.rows && Step(t, DeleteSecret(q)).vault == s.vault
      else
        && Step(t, AuditWritten(q)).rows == s.rows + [Row(slot, s.nextSecret, true)]
        && Step(t, AuditWritten(q)).vault == s.vault[s.nextSecret := secret]
  {
    forall i | 0 <= i < |s.rows| ensures IndexKey(s.rows[i].slot) == IndexKey(slot) <==> SameKey(s.rows[i].slot, slot) {
      SameKeyIff(s.rows[i].slot, slot);
    }
  }

  /** Rotation rewrites the text of the row's secret, revocation deactivates the row. */
  lemma RotateAndRevokeAreTheirSteps(s: Sys, q: nat, row: nat, secret: string)
    requires q !in s.requests && row < |s.rows|
    ensures s.rows[row].secretId in s.vault ==>
      Step(Step(s, BeginRotate(q, row)), UpdateSecret(q, secret)).vault == s.vault[s.rows[row].secretId := secret]
    ensures Step(Step(s, BeginRevoke(q, row)), FinishRevoke(q)).rows == s.rows[row := s.rows[row].(active := false)]
  {
  }

  datatype Run = Run(states: seq<Sys>, events: seq<Event>)

  ghost predicate Follows(run: Run, i: nat)
    requires i < |run.events| < |run.states|
  {
    Enabled(run.states[i], run.events[i]) && run.states[i + 1] == Step(run.states[i], run.events[i])
  }

  ghost predicate ValidRun(run: Run) {
    && |run.states| == |run.events| + 1
    && run.states[0] == Sys([], map[], 0, map[])
    && forall i | 0 <= i < |run.events| :: Follows(run, i)
  }

  // ------------------------------------------------- one active row per key

  ghost predicate OneActive(rows: seq<Row>) {
    forall i, j | 0 <= i < j < |rows| && rows[i].active && rows[j].active ::
      IndexKey(rows[i].slot) != IndexKey(rows[j].slot)
  }

  /** However creates, rotates and revokes interleave, a key has at most one active row. */
  lemma {:induction false} AtMostOneActive(run: Run, n: nat)
    requires ValidRun(run) && n <= |run.events|
    ensures OneActive(run.states[n].rows)
  {
    if n == 0 {
    } else {
      AtMostOneActive(run, n - 1);
      assert Follows(run, n - 1);
    }
  }

  /** Spelled out in columns: two active rows differ in one of them. */
  lemma ActiveRowsDiffer(run: Run, n: nat, i: nat, j: nat)
    requires ValidRun(run) && n <= |run.events| && i < j < |run.states[n].rows|
    requires run.states[n].rows[i].active && run.states[n].rows[j].active
    ensures !SameKey(run.states[n].rows[i].slot, run.states[n].rows[j].slot)
  {
    AtMostOneActive(run, n);
    SameKeyIff(run.states[n].rows[i].slot, run.states[n].rows[j].slot);
  }

  // ------------------------------------------------------- rows and secrets

  ghost predicate HasRow(s: Sys, id: nat) {
    exists i :: 0 <= i < |s.rows| && s.rows[i].secretId == id
  }

  ghost predicate Owes(s: Sys, q: nat, id: nat) {
    q in s.requests && Owed(s.requests[q]) == Some(id)
  }

  ghost predicate IsOwed(s: Sys, id: nat) {
    exists q :: Owes(s, q, id)
  }

  // The secret a request holds in any way, a row pointing at it or not.
  function HeldSecret(p: Progress): Option<nat> {
    match p
    case Stored(_, id) => Some(id)
    case Inserted(id) => Some(id)
    case CleaningUp(id, _) => Some(id)
    case _ => None
  }

  ghost predicate Distinct(s: Sys) {
    && (forall i | 0 <= i < |s.rows| :: s.rows[i].secretId < s.nextSecret)
    && (forall i, j | 0 <= i < j < |s.rows| :: s.rows[i].secretId != s.rows[j].secretId)
    && (forall q | q in s.requests && HeldSecret(s.requests[q]).Some? :: HeldSecret(s.requests[q]).value < s.nextSecret)
    && (forall q, r | q in s.requests && r in s.requests && q != r && HeldSecret(s.requests[q]).Some? ::
          HeldSecret(s.requests[q]) != HeldSecret(s.requests[r]))
  }

  // A creator goes away and leaves its secret in the vault: its delete fails, it dies, or it never learns the id.
  predicate Loses(s: Sys, e: Event, id: nat) {
    || ((e.DeleteError? || e.Crash?) && e.request in s.requests && Owed(s.requests[e.request]) == Some(id))
    || (e.StoreUnanswered? && id == s.nextSecret)
  }

  // The cleanup after a failed audit insert, or an unanswered insert, deletes the secret of the row already inserted.
  predicate Cuts(s: Sys, e: Event, id: nat) {
    e.DeleteSecret? && e.request in s.requests && s.requests[e.request] == CleaningUp(id, true)
  }

  ghost predicate LostBefore(run: Run, n: nat, id: nat)
    requires n <= |run.events| <= |run.states|
  {
    exists k :: 0 <= k < n && Loses(run.states[k], run.events[k], id)
  }

  ghost predicate CutBefore(run: Run, n: nat, id: nat)
    requires n <= |run.events| <= |run.states|
  {
    exists k :: 0 <= k < n && Cuts(run.states[k], run.events[k], id)
  }

  // Who accounts for one secret id.
  ghost predicate Accounted(s: Sys, id: nat, lost: bool, cut: bool) {
    && (id in s.vault <==> (HasRow(s, id) && !cut) || IsOwed(s, id) || lost)
    && !(HasRow(s, id) && IsOwed(s, id))
    && !(HasRow(s, id) && lost)
    && !(IsOwed(s, id) && lost)
    && (cut ==> HasRow(s, id))
    && (lost ==> id < s.nextSecret)
    && (forall q | q in s.requests && HeldSecret(s.requests[q]) == Some(id) ::
          !cut && !lost && (Owed(s.requests[q]).None? ==> HasRow(s, id)))
  }

  // No secret is both in a row and still owed by its creator.
  ghost predicate OwedHaveNoRow(s: Sys) {
    forall id: nat :: !(HasRow(s, id) && IsOwed(s, id))
  }

  lemma HeldAfter(s: Sys, e: Event, q: nat)
    requires Enabled(s, e) && q in Step(s, e).requests
    ensures var held := HeldSecret(Step(s, e).requests[q]);
      if e.StoreSecret? && q == e.request then held == Some(s.nextSecret)
      else held.Some? ==> q in s.requests && held == HeldSecret(s.requests[q])
  {
  }

  lemma StepKeepsRowsDistinct(s: Sys, e: Event)
    requires Enabled(s, e) && Distinct(s) && OwedHaveNoRow(s)
    ensures var t := Step(s, e);
      && (forall i | 0 <= i < |t.rows| :: t.rows[i].secretId < t.nextSecret)
      && (forall i, j | 0 <= i < j < |t.rows| :: t.rows[i].secretId != t.rows[j].secretId)
  {
    if e.InsertRow? || e.InsertUnanswered? {
      var id := s.requests[e.request].secretId;
      assert IsOwed(s, id) by { assert Owes(s, e.request, id); }
      forall i | 0 <= i < |s.rows| ensures s.rows[i].secretId != id {
        assert s.rows[i].secretId == id ==> HasRow(s, id);
      }
    }
  }

  lemma StepKeepsHoldersDistinct(s: Sys, e: Event)
    requires Enabled(s, e) && Distinct(s)
    ensures var t := Step(s, e);
      && (forall q | q in t.requests && HeldSecret(t.requests[q]).Some? ::
            HeldSecret(t.requests[q]).value < t.nextSecret)
      && (forall q, r | q in t.requests && r in t.requests && q != r && HeldSecret(t.requests[q]).Some? ::
            HeldSecret(t.requests[q]) != HeldSecret(t.requests[r]))
  {
    var t := Step(s, e);
    forall q | q in t.requests && HeldSecret(t.requests[q]).Some?
      ensures HeldSecret(t.requests[q]).value < t.nextSecret
    {
      HeldAfter(s, e, q);
    }
    forall q, r | q in t.requests && r in t.requests && q != r && HeldSecret(t.requests[q]).Some?
      ensures HeldSecret(t.requests[q]) != HeldSecret(t.requests[r])
    {
      HeldAfter(s, e, q);
      HeldAfter(s, e, r);
    }
  }

  lemma StepKeepsDistinct(s: Sys, e: Event)
    requires Enabled(s, e) && Distinct(s) && OwedHaveNoRow(s)
    ensures Distinct(Step(s, e))
  {
    StepKeepsRowsDistinct(s, e);
    StepKeepsHoldersDistinct(s, e);
  }

  lemma RowsAfter(s: Sys, e: Event, id: nat)
    requires Enabled(s, e)
    ensures HasRow(Step(s, e), id) <==>
      HasRow(s, id)
      || ((e.InsertRow? || e.InsertUnanswered?) && s.requests[e.request].secretId == id
          && !IndexViolated(s.rows, s.requests[e.request].slot))
  {
    var t := Step(s, e);
    if HasRow(s, id) {
      var i :| 0 <= i < |s.rows| && s.rows[i].secretId == id;
      assert t.rows[i].secretId == id;
    }
    if (e.InsertRow? || e.InsertUnanswered?) && !IndexViolated(s.rows, s.requests[e.request].slot) {
      assert t.rows[|s.rows|].secretId == s.requests[e.request].secretId;
    }
    if HasRow(t, id) {
      var i :| 0 <= i < |t.rows| && t.rows[i].secretId == id;
      assert i < |s.rows| ==> s.rows[i].secretId == id;
    }
  }

  lemma OwedAfter(s: Sys, e: Event, id: nat)
    requires Enabled(s, e) && Distinct(s)
    ensures IsOwed(Step(s, e), id) <==>
      if e.StoreSecret? && id == s.nextSecret then true
      else if Owes(s, e.request, id) then Owes(Step(s, e), e.request, id)
      else IsOwed(s, id)
  {
    var t, q := Step(s, e), e.request;
    assert forall r | r != q :: Owes(t, r, id) <==> Owes(s, r, id);
    if e.StoreSecret? && id == s.nextSecret {
      assert Owes(t, q, id);
    } else if Owes(s, q, id) {
      assert forall r | r != q :: !Owes(s, r, id);
    } else {
      assert !Owes(t, q, id);
    }
  }

  lemma StepKeepsAccounted(s: Sys, e: Event, id: nat, lost: bool, cut: bool)
    requires Enabled(s, e) && Distinct(s) && Accounted(s, id, lost, cut)
    ensures Accounted(Step(s, e), id, lost || Loses(s, e, id), cut || Cuts(s, e, id))
  {
    RowsAfter(s, e, id);
    OwedAfter(s, e, id);
    VaultAfter(s, e, id);
    var t := Step(s, e);
    assert HasRow(s, id) ==> id < s.nextSecret;
    assert Owes(s, e.request, id) ==> IsOwed(s, id);
    forall q | q in t.requests && HeldSecret(t.requests[q]) == Some(id)
      ensures !(cut || Cuts(s, e, id)) && !(lost || Loses(s, e, id)) && (Owed(t.requests[q]).None? ==> HasRow(t, id))
    {
      if q != e.request {
        assert HeldSecret(s.requests[q]) == Some(id);
      }
    }
  }

  lemma VaultAfter(s: Sys, e: Event, id: nat)
    requires Enabled(s, e)
    ensures id in Step(s, e).vault <==>
      (id in s.vault && !(e.DeleteSecret? && s.requests[e.request].secretId == id))
      || ((e.StoreSecret? || e.StoreUnanswered?) && id == s.nextSecret)
  {
  }

  lemma {:induction false} RunIsAccounted(run: Run, n: nat)
    requires ValidRun(run) && n <= |run.events|
    ensures Distinct(run.states[n])
    ensures forall id: nat :: Accounted(run.states[n], id, LostBefore(run, n, id), CutBefore(run, n, id))
  {
    if n == 0 {
    } else {
      RunIsAccounted(run, n - 1);
      assert Follows(run, n - 1);
      var s, e := run.states[n - 1], run.events[n - 1];
      forall id: nat
        ensures Accounted(run.states[n], id, LostBefore(run, n, id), CutBefore(run, n, id))
        ensures !(HasRow(s, id) && IsOwed(s, id))
      {
        assert Accounted(s, id, LostBefore(run, n - 1, id), CutBefore(run, n - 1, id));
        StepKeepsAccounted(s, e, id, LostBefore(run, n - 1, id), CutBefore(run, n - 1, id));
        assert LostBefore(run, n, id) <==> LostBefore(run, n - 1, id) || Loses(s, e, id);
        assert CutBefore(run, n, id) <==> CutBefore(run, n - 1, id) || Cuts(s, e, id);
      }
      StepKeepsDistinct(s, e);
    }
  }

  // Audit inserts and compensating deletes succeed, answers arrive and no request dies.
  ghost predicate Clean(e: Event) {
    !e.AuditError? && !e.DeleteError? && !e.Crash? && !e.StoreUnanswered? && !e.InsertUnanswered?
  }

  ghost predicate CleanRun(run: Run) {
    forall i | 0 <= i < |run.events| :: Clean(run.events[i])
  }

  lemma {:induction false} CleanRunsLoseNothing(run: Run, n: nat)
    requires ValidRun(run) && CleanRun(run) && n <= |run.events|
    ensures forall q | q in run.states[n].requests && run.states[n].requests[q].CleaningUp? ::
      !run.states[n].requests[q].hasRow
    ensures forall id: nat :: !LostBefore(run, n, id) && !CutBefore(run, n, id)
  {
    if n == 0 {
    } else {
      CleanRunsLoseNothing(run, n - 1);
      assert Follows(run, n - 1);
      forall id: nat ensures !LostBefore(run, n, id) && !CutBefore(run, n, id) {
        assert !LostBefore(run, n - 1, id) && !CutBefore(run, n - 1, id);
        assert Clean(run.events[n - 1]);
      }
    }
  }

  /**
   In a clean run the secrets in the vault are, one to one, those of the rows and those of creators between storing
   the secret and inserting the row or cleaning up.
   */
  lemma SecretsMatchRowsAndCreators(run: Run, n: nat, id: nat)
    requires ValidRun(run) && CleanRun(run) && n <= |run.events|
    ensures Distinct(run.states[n])
    ensures id in run.states[n].vault <==> HasRow(run.states[n], id) || IsOwed(run.states[n], id)
    ensures !(HasRow(run.states[n], id) && IsOwed(run.states[n], id))
  {
    RunIsAccounted(run, n);
    CleanRunsLoseNothing(run, n);
    assert Accounted(run.states[n], id, LostBefore(run, n, id), CutBefore(run, n, id));
  }

  /**
   At rest a secret is an orphan exactly if a creator that owed it died, failed to delete it or never learned its id,
   and a row dangles exactly if its creator deleted the secret although the row was in.
   */
  lemma AtRest(run: Run, n: nat, id: nat)
    requires ValidRun(run) && n <= |run.events| && run.states[n].requests == map[]
    ensures id in run.states[n].vault && !HasRow(run.states[n], id) <==> LostBefore(run, n, id)
    ensures HasRow(run.states[n], id) && id !in run.states[n].vault <==> CutBefore(run, n, id)
  {
    RunIsAccounted(run, n);
    assert Accounted(run.states[n], id, LostBefore(run, n, id), CutBefore(run, n, id));
  }

  // A fault that leaves rows and vault apart: dying or failing to delete with a secret stored and no row inserted,
  // not learning the id of a stored secret, or deleting the secret after the row went in.
  predicate Harmful(s: Sys, e: Event) {
    || e.StoreUnanswered?
    || ((e.DeleteError? || e.Crash?) && e.request in s.requests && Owed(s.requests[e.request]).Some?)
    || (e.DeleteSecret? && e.request in s.requests
        && s.requests[e.request].CleaningUp? && s.requests[e.request].hasRow)
  }

  /** At rest the vault holds exactly the secrets of the rows if and only if the run had no harmful fault. */
  lemma CleanAtRestIff(run: Run, n: nat)
    requires ValidRun(run) && n <= |run.events| && run.states[n].requests == map[]
    ensures (forall id: nat :: id in run.states[n].vault <==> HasRow(run.states[n], id))
      <==> (forall k | 0 <= k < n :: !Harmful(run.states[k], run.events[k]))
  {
    forall id: nat ensures (id in run.states[n].vault <==> HasRow(run.states[n], id))
      <==> !LostBefore(run, n, id) && !CutBefore(run, n, id)
    {
      AtRest(run, n, id);
    }
    if k :| 0 <= k < n && Harmful(run.states[k], run.events[k]) {
      assert Follows(run, k);
      var p := run.states[k].requests[run.events[k].request];
      var id := if run.events[k].StoreUnanswered? then run.states[k].nextSecret
                else if run.events[k].DeleteSecret? then p.secretId else Owed(p).value;
      assert LostBefore(run, n, id) || CutBefore(run, n, id);
    }
  }

  /** So it is in clean runs. */
  lemma CleanAtRest(run: Run, n: nat, id: nat)
    requires ValidRun(run) && CleanRun(run) && n <= |run.events| && run.states[n].requests == map[]
    ensures id in run.states[n].vault <==> HasRow(run.states[n], id)
  {
    AtRest(run, n, id);
    CleanRunsLoseNothing(run, n);
  }

  // ------------------------------------------------ what a secret's text is

  // The step writes this text under this id: a creation under a new id, a rotation under its row's.
  predicate Writes(s: Sys, e: Event, id: nat, secret: string) {
    || ((e.StoreSecret? || e.StoreUnanswered?) && id == s.nextSecret && e.secret == secret)
    || (e.UpdateSecret? && e.request in s.requests && s.requests[e.request].Rotating?
        && s.requests[e.request].row < |s.rows| && s.rows[s.requests[e.request].row].secretId == id
        && id in s.vault && e.secret == secret)
  }

  /** A secret in the vault is what the last create or rotate that wrote it put there. */
  lemma {:induction false} SecretIsLastWritten(run: Run, n: nat, id: nat) returns (k: nat)
    requires ValidRun(run) && n <= |run.events| && id in run.states[n].vault
    ensures k < n && Writes(run.states[k], run.events[k], id, run.states[n].vault[id])
    ensures forall j, secret | k < j < n :: !Writes(run.states[j], run.events[j], id, secret)
  {
    assert Follows(run, n - 1);
    var s, e := run.states[n - 1], run.events[n - 1];
    if Writes(s, e, id, run.states[n].vault[id]) {
      k := n - 1;
    } else {
      k := SecretIsLastWritten(run, n - 1, id);
    }
  }

  ghost predicate Leads(s: Sys, e: Event, t: Sys) {
    Enabled(s, e) && t == Step(s, e)
  }

  function AuditErrorEvents(): seq<Event> {
    [BeginCreate(1, Variable("t", "K")), StoreSecret(1, "v"), InsertRow(1), AuditError(1), DeleteSecret(1)]
  }

  function AuditErrorStates(): seq<Sys> {
    var slot := Variable("t", "K");
    [ Sys([], map[], 0, map[]),
      Sys([], map[], 0, map[1 := Checked(slot)]),
      Sys([], map[0 := "v"], 1, map[1 := Stored(slot, 0)]),
      Sys([Row(slot, 0, true)], map[0 := "v"], 1, map[1 := Inserted(0)]),
      Sys([Row(slot, 0, true)], map[0 := "v"], 1, map[1 := CleaningUp(0, true)]),
      Sys([Row(slot, 0, true)], map[], 1, map[])]
  }

  lemma AuditErrorStepsLead(i: nat)
    requires i < 5
    ensures Leads(AuditErrorStates()[i], AuditErrorEvents()[i], AuditErrorStates()[i + 1])
  {
    var s, e, t := AuditErrorStates()[i], AuditErrorEvents()[i], AuditErrorStates()[i + 1];
    assert t.rows == Step(s, e).rows;
    assert t.vault == Step(s, e).vault;
    assert t.requests == Step(s, e).requests;
  }

  /** An audit insert that fails leaves an active row whose secret the cleanup deletes. */
  lemma AuditErrorLeavesDanglingRow()
    ensures exists run: Run ::
      ValidRun(run) && |run.events| == 5 && HasRow(run.states[5], 0) && 0 !in run.states[5].vault
  {
    var run := Run(AuditErrorStates(), AuditErrorEvents());
    forall i | 0 <= i < 5 ensures Follows(run, i) {
      AuditErrorStepsLead(i);
      assert Leads(run.states[i], run.events[i], run.states[i + 1]);
    }
    assert run.states[5].rows[0].secretId == 0;
  }

  // ---------------------------------------------------------- whole methods

  datatype CreateError = AlreadyExists | DatabaseError | NotFound | IsRevoked

  // What goes wrong outside the service's control.
  datatype Faults = Faults(insert: bool, audit: bool, delete: bool)

  class SecretService {
    var rows: seq<Row>
    var vault: map<nat, string>
    var nextSecret: nat

    ghost predicate Valid()
      reads this
    {
      && OneActive(rows)
      && (forall i | 0 <= i < |rows| :: rows[i].secretId < nextSecret)
      && (forall id | id in vault :: id < nextSecret)
    }

    constructor ()
      ensures Valid() && rows == [] && vault == map[]
    {
      rows, vault, nextSecret := [], map[], 0;
    }

    method HasActive(slot: Slot, coalesced: bool) returns (found: bool)
      ensures found == if coalesced then IndexViolated(rows, slot) else ActiveDuplicate(rows, slot)
      ensures !coalesced ==> (found <==> exists i :: 0 <= i < |rows| && rows[i].active && rows[i].slot == slot)
      ensures coalesced ==> (found <==> exists i :: 0 <= i < |rows| && rows[i].active && SameKey(rows[i].slot, slot))
    {
      found := false;
      for i := 0 to |rows|
        invariant found ==
          if coalesced then IndexViolated(rows[..i], slot) else ActiveDuplicate(rows[..i], slot)
      {
        assert rows[..i + 1] == rows[..i] + [rows[i]];
        if rows[i].active && (if coalesced then IndexKey(rows[i].slot) == IndexKey(slot) else rows[i].slot == slot) {
          found := true;
        }
      }
      assert rows[..|rows|] == rows;
      forall i | 0 <= i < |rows| ensures IndexKey(rows[i].slot) == IndexKey(slot) <==> SameKey(rows[i].slot, slot) {
        SameKeyIff(rows[i].slot, slot);
      }
    }

    method Create(slot: Slot, secret: string, faults: Faults) returns (r: Result<nat, CreateError>)
      requires Valid()
      modifies this
      ensures Valid()
      ensures IndexViolated(old(rows), slot) ==> r.Err? && rows == old(rows)
      ensures r.Ok? <==> !IndexViolated(old(rows), slot) && !faults.insert && !faults.audit
      ensures r.Ok? ==>
        rows == old(rows) + [Row(slot, old(nextSecret), true)] && vault == old(vault)[old(nextSecret) := secret]
      ensures r.Err? && !faults.delete && !faults.audit ==> rows == old(rows) && vault == old(vault)
      ensures r.Err? && !faults.delete ==> vault == old(vault)
    {
      var duplicate := HasActive(slot, false);
      if duplicate {
        return Err(AlreadyExists);
      }
      var secretId := nextSecret;
      vault, nextSecret := vault[secretId := secret], nextSecret + 1;
      var violated := HasActive(slot, true);
      if !violated && !faults.insert {
        rows := rows + [Row(slot, secretId, true)];
        if !faults.audit {
          return Ok(secretId);
        }
      }
      if !faults.delete {
        vault := vault - {secretId};
        assert vault == old(vault);
      }
      r := Err(if violated && !faults.insert then AlreadyExists else DatabaseError);
    }

    // Variables refuse to rotate once revoked; credentials do not ask.
    method Rotate(row: nat, secret: string) returns (r: Result<Row, CreateError>)
      requires Valid()
      modifies this
      ensures Valid() && rows == old(rows)
      ensures r.Ok? <==> row < |rows| && (rows[row].slot.Credential? || rows[row].active)
      ensures vault == if r.Ok? then Rewritten(old(vault), rows, row, secret) else old(vault)
      ensures r.Ok? && rows[row].secretId in old(vault) ==> vault == old(vault)[rows[row].secretId := secret]
      ensures r.Err? ==> vault == old(vault)
      ensures vault.Keys == old(vault).Keys
    {
      if row >= |rows| {
        return Err(NotFound);
      }
      if rows[row].slot.Variable? && !rows[row].active {
        return Err(IsRevoked);
      }
      if rows[row].secretId in vault {
        vault := vault[rows[row].secretId := secret];
      }
      r := Ok(rows[row]);
    }

    method Revoke(row: nat) returns (r: Result<Row, CreateError>)
      requires Valid()
      modifies this
      ensures Valid() && rows == Revoked(old(rows), row) && vault == old(vault)
      ensures r == if row < |rows| then Ok(rows[row]) else Err(NotFound)
      ensures r.Ok? ==> rows == old(rows)[row := old(rows)[row].(active := false)]
      ensures r.Err? ==> rows == old(rows)
      ensures row < |rows| && old(rows)[row].active ==> !IndexViolated(rows, rows[row].slot)
    {
      if row >= |rows| {
        return Err(NotFound);
      }
      rows := rows[row := rows[row].(active := false)];
      r := Ok(rows[row]);
    }
  }
}
