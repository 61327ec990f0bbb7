/** Playbook version chains and the assignment of versions to agents. */
module Playbooks {
  import opened Wrappers
  import opened Templates

  datatype Status = Draft | ActiveStatus | Other(name: string)

  // `rest` stands for the remaining content fields, which are copied or replaced together with these.
  datatype Content = Content(title: string, kind: string, category: string, rest: string)

  datatype Version = Version(number: nat, parent: Option<nat>, content: Content, status: Status)

  // A version's id is its index in `versions`.
  datatype Playbook = Playbook(
    tenant: nat,
    title: string,
    kind: string,
    category: string,
    status: Status,
    currentVersion: nat,
    versions: seq<Version>)

  // Absent fields of a request are None.
  datatype Change = Change(
    title: Option<string>,
    kind: Option<string>,
    category: Option<string>,
    rest: Option<string>,
    status: Option<Status>)

  // value?.trim() || fallback
  function TrimmedOr(value: Option<string>, fallback: string): string {
    if value.Some? && Trim(value.value) != "" then Trim(value.value) else fallback
  }

  // value || fallback
  function NonEmptyOr(value: Option<string>, fallback: string): string {
    if value.Some? && value.value != "" then value.value else fallback
  }

  predicate ChangesContent(c: Change) {
    c.title.Some? || c.kind.Some? || c.category.Some? || c.rest.Some?
  }

  function CreatePlaybook(tenant: nat, title: string, kind: string, category: string, rest: string): Playbook {
    Playbook(tenant, Trim(title), kind, Trim(category), Draft, 0,
             [Version(1, None, Content(Trim(title), kind, Trim(category), rest), Draft)])
  }

  function NextVersion(latest: Version, c: Change): Version {
    Version(
      latest.number + 1,
      Some(latest.number),
      Content(TrimmedOr(c.title, latest.content.title), NonEmptyOr(c.kind, latest.content.kind),
              TrimmedOr(c.category, latest.content.category),
              if c.rest.Some? then c.rest.value else latest.content.rest),
      if c.status.Some? then c.status.value else Draft)
  }

  // Index of the version with the greatest number.
  function Latest(versions: seq<Version>): (k: nat)
    requires versions != []
    ensures k < |versions| && forall i | 0 <= i < |versions| :: versions[i].number <= versions[k].number
  {
    var n := |versions| - 1;
    if n == 0 then 0 else
    var k := Latest(versions[..n]);
    assert forall i | 0 <= i < n :: versions[..n][i] == versions[i];
    if versions[n].number > versions[k].number then n else k
  }

  function UpdatePlaybook(p: Playbook, c: Change): Playbook
    requires p.versions != []
  {
    var k := Latest(p.versions);
    var versions :=
      if ChangesContent(c) then p.versions + [NextVersion(p.versions[k], c)]
      else if c.status.Some? then p.versions[k := p.versions[k].(status := c.status.value)]
      else p.versions;
    Playbook(
      p.tenant,
      TrimmedOr(c.title, p.title),
      NonEmptyOr(c.kind, p.kind),
      TrimmedOr(c.category, p.category),
      if c.status.Some? then c.status.value else p.status,
      if ChangesContent(c) then |p.versions| else p.currentVersion,
      versions)
  }

  function UpdateAll(p: Playbook, changes: seq<Change>): (r: Playbook)
    requires p.versions != []
    ensures r.versions != []
  {
    if changes == [] then p else UpdatePlaybook(UpdateAll(p, changes[..|changes| - 1]), changes[|changes| - 1])
  }

  /** Versions 1..n, each the child of the one before; the newest is current and the playbook shows its heading. */
  ghost predicate IsChain(p: Playbook) {
    && p.versions != []
    && (forall i | 0 <= i < |p.versions| :: p.versions[i].number == i + 1)
    && (forall i | 0 <= i < |p.versions| :: p.versions[i].parent == if i == 0 then None else Some(i))
    && p.currentVersion == |p.versions| - 1
    && var newest := p.versions[|p.versions| - 1].content;
    p.title == newest.title && p.kind == newest.kind && p.category == newest.category
  }

  lemma UpdateKeepsChain(p: Playbook, c: Change)
    requires IsChain(p)
    ensures IsChain(UpdatePlaybook(p, c))
    ensures UpdatePlaybook(p, c).tenant == p.tenant
    ensures |p.versions| <= |UpdatePlaybook(p, c).versions| <= |p.versions| + 1
    ensures |UpdatePlaybook(p, c).versions| == |p.versions| + 1 <==> ChangesContent(c)
    ensures forall i | 0 <= i < |p.versions| :: UpdatePlaybook(p, c).versions[i].content == p.versions[i].content
  {
    var k := Latest(p.versions);
    assert p.versions[|p.versions| - 1].number <= p.versions[k].number;
    assert k == |p.versions| - 1;
  }

  // A given value that is not blank is taken, trimmed; otherwise the old one stays.
  ghost predicate TakesTrimmed(given: Option<string>, was: string, now: string) {
    && (given.Some? && Trim(given.value) != "" ==> now == Trim(given.value))
    && (given.None? || Trim(given.value) == "" ==> now == was)
  }

  /**
   What an update changes, field by field: a version is added exactly if a content field is given, with the given
   fields and otherwise those of the version before; else a given status goes to the newest version.
   */
  lemma UpdateTakesEffect(p: Playbook, c: Change)
    requires IsChain(p)
    ensures var q := UpdatePlaybook(p, c);
      && TakesTrimmed(c.title, p.title, q.title) && TakesTrimmed(c.category, p.category, q.category)
      && q.kind == (if c.kind.Some? && c.kind.value != "" then c.kind.value else p.kind)
      && q.status == if c.status.Some? then c.status.value else p.status
    ensures var q, n := UpdatePlaybook(p, c), |p.versions|;
      if c.title.Some? || c.kind.Some? || c.category.Some? || c.rest.Some? then
        && |q.versions| == n + 1 && q.versions[..n] == p.versions
        && q.versions[n].content.rest == (if c.rest.Some? then c.rest.value else p.versions[n - 1].content.rest)
        && q.versions[n].status == if c.status.Some? then c.status.value else Draft
      else
        && |q.versions| == n && q.versions[..n - 1] == p.versions[..n - 1]
        && q.versions[n - 1].content == p.versions[n - 1].content
        && q.versions[n - 1].status == if c.status.Some? then c.status.value else p.versions[n - 1].status
  {
    UpdateKeepsChain(p, c);
    var k := Latest(p.versions);
    assert p.versions[|p.versions| - 1].number <= p.versions[k].number;
    assert k == |p.versions| - 1;
  }

  /** After any updates the versions form a chain, and content written earlier is as it was. */
  lemma {:induction false} ChainsOnlyGrow(p: Playbook, changes: seq<Change>)
    requires IsChain(p)
    ensures IsChain(UpdateAll(p, changes)) && |p.versions| <= |UpdateAll(p, changes).versions|
    ensures UpdateAll(p, changes).tenant == p.tenant
    ensures forall i | 0 <= i < |p.versions| :: UpdateAll(p, changes).versions[i].content == p.versions[i].content
  {
    if changes == [] {
    } else {
      ChainsOnlyGrow(p, changes[..|changes| - 1]);
      UpdateKeepsChain(UpdateAll(p, changes[..|changes| - 1]), changes[|changes| - 1]);
    }
  }

  /** A new playbook is a chain of one version. */
  lemma NewPlaybookIsChain(
    tenant: nat, title: string, kind: string, category: string, rest: string, changes: seq<Change>)
    ensures IsChain(UpdateAll(CreatePlaybook(tenant, title, kind, category, rest), changes))
  {
    ChainsOnlyGrow(CreatePlaybook(tenant, title, kind, category, rest), changes);
  }

  function CountContentChanges(changes: seq<Change>): nat {
    if changes == [] then 0
    else CountContentChanges(changes[..|changes| - 1]) + (if ChangesContent(changes[|changes| - 1]) then 1 else 0)
  }

  /** The number of versions is one more than the number of updates that touched content. */
  lemma {:induction false} OneVersionPerContentChange(p: Playbook, changes: seq<Change>)
    requires IsChain(p)
    ensures |UpdateAll(p, changes).versions| == |p.versions| + CountContentChanges(changes)
  {
    if changes == [] {
    } else {
      OneVersionPerContentChange(p, changes[..|changes| - 1]);
      ChainsOnlyGrow(p, changes[..|changes| - 1]);
      UpdateKeepsChain(UpdateAll(p, changes[..|changes| - 1]), changes[|changes| - 1]);
    }
  }

  // ------------------------------------------------------------ assignments

  datatype Assignment = Assignment(tenant: nat, agent: nat, playbook: nat, version: nat, enabled: bool, active: bool)

  predicate SameTarget(a: Assignment, b: Assignment) {
    a.tenant == b.tenant && a.agent == b.agent && a.playbook == b.playbook
  }

  // updateMany where tenant, agent, playbook, isActive.
  function Deactivate(rows: seq<Assignment>, a: Assignment): (r: seq<Assignment>)
    ensures |r| == |rows|
    ensures forall i | 0 <= i < |r| :: r[i] == if SameTarget(rows[i], a) then rows[i].(active := false) else rows[i]
  {
    if rows == [] then [] else
    [if SameTarget(rows[0], a) then rows[0].(active := false) else rows[0]] + Deactivate(rows[1..], a)
  }

  // The row of the unique key (tenant, agent, playbook, version); |rows| if there is none.
  function Find(rows: seq<Assignment>, a: Assignment): (k: nat)
    ensures k <= |rows|
    ensures k < |rows| ==> SameTarget(rows[k], a) && rows[k].version == a.version
    ensures k == |rows| ==> forall i | 0 <= i < |rows| :: !(SameTarget(rows[i], a) && rows[i].version == a.version)
  {
    if rows == [] then 0
    else if SameTarget(rows[0], a) && rows[0].version == a.version then 0
    else 1 + Find(rows[1..], a)
  }

  function Upsert(rows: seq<Assignment>, a: Assignment): seq<Assignment> {
    var k := Find(rows, a);
    if k < |rows| then rows[k := a] else rows + [a]
  }

  datatype Request = Request(
    tenant: nat,
    agent: nat,
    playbook: nat,
    version: nat,
    isEnabled: Option<bool>,
    isActive: Option<bool>)

  function Requested(q: Request): Assignment {
    var enabled := q.isEnabled.None? || q.isEnabled.value;
    Assignment(q.tenant, q.agent, q.playbook, q.version, enabled, enabled && (q.isActive.None? || q.isActive.value))
  }

  /** The row asked for: enabled unless that is refused, and active unless either is. */
  lemma RequestedFields(q: Request)
    ensures var a := Requested(q);
      && a.tenant == q.tenant && a.agent == q.agent && a.playbook == q.playbook && a.version == q.version
      && (a.enabled <==> q.isEnabled != Some(false))
      && (a.active <==> q.isEnabled != Some(false) && q.isActive != Some(false))
  {
  }

  // The rows before the upsert.
  function Cleared(rows: seq<Assignment>, a: Assignment): seq<Assignment> {
    if a.active then Deactivate(rows, a) else rows
  }

  function Assign(rows: seq<Assignment>, q: Request): seq<Assignment> {
    Upsert(Cleared(rows, Requested(q)), Requested(q))
  }

  ghost predicate WellAssigned(rows: seq<Assignment>) {
    && (forall i | 0 <= i < |rows| && rows[i].active :: rows[i].enabled)
    && (forall i, j | 0 <= i < j < |rows| && SameTarget(rows[i], rows[j]) ::
          rows[i].version != rows[j].version && !(rows[i].active && rows[j].active))
  }

  lemma ClearedAt(rows: seq<Assignment>, a: Assignment)
    ensures |Cleared(rows, a)| == |rows|
    ensures forall i | 0 <= i < |rows| ::
      Cleared(rows, a)[i] == if a.active && SameTarget(rows[i], a) then rows[i].(active := false) else rows[i]
  {
  }

  // Row k is the upserted one, every other row is as it was.
  lemma UpsertAt(rows: seq<Assignment>, a: Assignment) returns (k: nat)
    ensures k < |Upsert(rows, a)| && Upsert(rows, a)[k] == a
    ensures k <= |rows| && |Upsert(rows, a)| == if k < |rows| then |rows| else |rows| + 1
    ensures forall i | 0 <= i < |Upsert(rows, a)| && i != k :: i < |rows| && Upsert(rows, a)[i] == rows[i]
    ensures forall i | 0 <= i < |rows| && SameTarget(rows[i], a) && rows[i].version == a.version :: k < |rows|
    ensures k < |rows| ==> SameTarget(rows[k], a) && rows[k].version == a.version
  {
    k := Find(rows, a);
  }

  lemma ClearedStaysWellAssigned(rows: seq<Assignment>, a: Assignment)
    requires WellAssigned(rows)
    ensures WellAssigned(Cleared(rows, a))
    ensures a.active ==>
      forall i | 0 <= i < |Cleared(rows, a)| && SameTarget(Cleared(rows, a)[i], a) :: !Cleared(rows, a)[i].active
  {
    ClearedAt(rows, a);
  }

  /** Assigning keeps: active implies enabled, one row per key, one active row per agent and playbook. */
  lemma AssignKeepsWellAssigned(rows: seq<Assignment>, q: Request)
    requires WellAssigned(rows)
    ensures WellAssigned(Assign(rows, q))
  {
    var a, r := Requested(q), Assign(rows, q);
    var base := Cleared(rows, a);
    ClearedStaysWellAssigned(rows, a);
    var k := UpsertAt(base, a);
    forall i, j | 0 <= i < j < |r| && SameTarget(r[i], r[j])
      ensures r[i].version != r[j].version && !(r[i].active && r[j].active)
    {
      if i != k && j != k {
        assert SameTarget(base[i], base[j]);
      } else {
        var other := if i == k then j else i;
        assert r[other] == base[other] && SameTarget(base[other], a);
        assert k < |base| ==> (k < other && SameTarget(base[k], base[other])) || SameTarget(base[other], base[k]);
      }
    }
  }

  function AssignAll(requests: seq<Request>): seq<Assignment> {
    if requests == [] then [] else Assign(AssignAll(requests[..|requests| - 1]), requests[|requests| - 1])
  }

  /** So after any requests at most one assignment is active per tenant, agent and playbook. */
  lemma {:induction false} AssignmentsStayWellFormed(requests: seq<Request>)
    ensures WellAssigned(AssignAll(requests))
  {
    if requests == [] {
    } else {
      AssignmentsStayWellFormed(requests[..|requests| - 1]);
      AssignKeepsWellAssigned(AssignAll(requests[..|requests| - 1]), requests[|requests| - 1]);
    }
  }

  /** An active request is the one active assignment afterwards; rows of other targets are untouched. */
  lemma RequestTakesEffect(rows: seq<Assignment>, q: Request)
    requires WellAssigned(rows)
    ensures Requested(q) in Assign(rows, q)
    ensures forall b | b in rows && !SameTarget(b, Requested(q)) :: b in Assign(rows, q)
    ensures Requested(q).active ==>
      forall b | b in Assign(rows, q) && SameTarget(b, Requested(q)) && b.active :: b == Requested(q)
  {
    var a, r := Requested(q), Assign(rows, q);
    ClearedStaysWellAssigned(rows, a);
    ClearedAt(rows, a);
    var k := UpsertAt(Cleared(rows, a), a);
    forall b | b in rows && !SameTarget(b, a) ensures b in r {
      var i :| 0 <= i < |rows| && rows[i] == b;
      assert r[i] == b;
    }
  }

  // ------------------------------------------------------------ the service

  datatype PlaybookError = PlaybookNotFound | VersionNotFound

  // The assignment names a version of a playbook of its own tenant.
  predicate Resolves(a: Assignment, playbooks: seq<Playbook>) {
    && a.playbook < |playbooks|
    && playbooks[a.playbook].tenant == a.tenant
    && a.version < |playbooks[a.playbook].versions|
  }

  lemma AssignmentsComeFrom(rows: seq<Assignment>, q: Request, playbooks: seq<Playbook>)
    requires forall i | 0 <= i < |rows| :: Resolves(rows[i], playbooks)
    requires Resolves(Requested(q), playbooks)
    ensures forall i | 0 <= i < |Assign(rows, q)| :: Resolves(Assign(rows, q)[i], playbooks)
  {
    ClearedAt(rows, Requested(q));
    var k := UpsertAt(Cleared(rows, Requested(q)), Requested(q));
  }

  predicate OwnedBy(playbooks: seq<Playbook>, tenant: nat, id: nat) {
    id < |playbooks| && playbooks[id].tenant == tenant
  }

  class PlaybookService {
    var playbooks: seq<Playbook>
    var assignments: seq<Assignment>

    ghost predicate Valid()
      reads this
    {
      && (forall i | 0 <= i < |playbooks| :: IsChain(playbooks[i]))
      && WellAssigned(assignments)
      && forall i | 0 <= i < |assignments| :: Resolves(assignments[i], playbooks)
    }

    constructor ()
      ensures Valid() && playbooks == [] && assignments == []
    {
      playbooks, assignments := [], [];
    }

    method Create(tenant: nat, title: string, kind: string, category: string, rest: string) returns (id: nat)
      requires Valid()
      modifies this
      ensures Valid() && id == |old(playbooks)| && assignments == old(assignments)
      ensures playbooks == old(playbooks) + [CreatePlaybook(tenant, title, kind, category, rest)]
      ensures playbooks[id] == Playbook(
        tenant, Trim(title), kind, Trim(category), Draft, 0,
        [Version(1, None, Content(Trim(title), kind, Trim(category), rest), Draft)])
    {
      id := |playbooks|;
      var first := Version(1, None, Content(Trim(title), kind, Trim(category), rest), Draft);
      playbooks := playbooks + [Playbook(tenant, Trim(title), kind, Trim(category), Draft, 0, [first])];
    }

    method LatestVersion(versions: seq<Version>) returns (k: nat)
      requires versions != []
      ensures k == Latest(versions)
    {
      k := 0;
      for i := 1 to |versions|
        invariant k < i && k == Latest(versions[..i])
      {
        assert versions[..i + 1][..i] == versions[..i];
        if versions[i].number > versions[k].number {
          k := i;
        }
      }
      assert versions[..|versions|] == versions;
    }

    // A playbook of another tenant is not found.
    method Update(tenant: nat, id: nat, c: Change) returns (r: Result<Playbook, PlaybookError>)
      requires Valid()
      modifies this
      ensures Valid() && assignments == old(assignments)
      ensures !OwnedBy(old(playbooks), tenant, id) ==> r == Err(PlaybookNotFound) && playbooks == old(playbooks)
      ensures OwnedBy(old(playbooks), tenant, id) ==>
        r == Ok(UpdatePlaybook(old(playbooks)[id], c)) && playbooks == old(playbooks)[id := r.value]
    {
      if !OwnedBy(playbooks, tenant, id) {
        return Err(PlaybookNotFound);
      }
      var p := playbooks[id];
      UpdateKeepsChain(p, c);
      var k := LatestVersion(p.versions);
      var current, versions := p.currentVersion, p.versions;
      if ChangesContent(c) {
        current, versions := |versions|, versions + [NextVersion(versions[k], c)];
      } else if c.status.Some? {
        versions := versions[k := versions[k].(status := c.status.value)];
      }
      var updated := Playbook(
        p.tenant,
        TrimmedOr(c.title, p.title),
        NonEmptyOr(c.kind, p.kind),
        TrimmedOr(c.category, p.category),
        if c.status.Some? then c.status.value else p.status,
        current,
        versions);
      playbooks := playbooks[id := updated];
      r := Ok(updated);
    }

    // Without an explicit version the playbook's current one is assigned.
    method AssignPlaybook(
      tenant: nat, agent: nat, id: nat, version: Option<nat>, isEnabled: Option<bool>, isActive: Option<bool>)
      returns (r: Result<Assignment, PlaybookError>)
      requires Valid()
      modifies this
      ensures Valid() && playbooks == old(playbooks)
      ensures r.Err? ==> assignments == old(assignments)
      ensures r.Ok? <==> OwnedBy(playbooks, tenant, id) && (version.Some? ==> version.value < |playbooks[id].versions|)
      ensures !OwnedBy(playbooks, tenant, id) ==> r == Err(PlaybookNotFound)
      ensures r.Ok? ==>
        var chosen := if version.Some? then version.value else playbooks[id].currentVersion;
        var q := Request(tenant, agent, id, chosen, isEnabled, isActive);
        r.value == Requested(q) && assignments == Assign(old(assignments), q)
    {
      if !OwnedBy(playbooks, tenant, id) {
        return Err(PlaybookNotFound);
      }
      var chosen := if version.Some? then version.value else playbooks[id].currentVersion;
      if chosen >= |playbooks[id].versions| {
        return Err(VersionNotFound);
      }
      var enabled := if isEnabled.Some? then isEnabled.value else true;
      var active := enabled && (if isActive.Some? then isActive.value else true);
      var a := Assignment(tenant, agent, id, chosen, enabled, active);
      AssignKeepsWellAssigned(assignments, Request(tenant, agent, id, chosen, isEnabled, isActive));
      AssignmentsComeFrom(assignments, Request(tenant, agent, id, chosen, isEnabled, isActive), playbooks);
      if active {
        DeactivateOthers(a);
      }
      var k := Find(assignments, a);
      if k < |assignments| {
        assignments := assignments[k := a];
      } else {
        assignments := assignments + [a];
      }
      r := Ok(a);
    }

    method DeactivateOthers(a: Assignment)
      modifies this`assignments
      ensures assignments == Deactivate(old(assignments), a)
    {
      ghost var was := assignments;
      for i := 0 to |assignments|
        invariant |assignments| == |was|
        invariant forall k | 0 <= k < i ::
          assignments[k] == if SameTarget(was[k], a) then was[k].(active := false) else was[k]
        invariant forall k | i <= k < |was| :: assignments[k] == was[k]
      {
        if SameTarget(assignments[i], a) && assignments[i].active {
          assignments := assignments[i := assignments[i].(active := false)];
        }
      }
      assert assignments == Deactivate(was, a);
    }
  }
}
