/** What each statement on tenant content does, row by row: what is counted against the quotas,
    when a statement is refused, and which rows it leaves. */
module HostedEffects {
  import opened Wrappers
  import opened HostedContent

  // ---------------------------------------------------------------------
  // What is counted
  // ---------------------------------------------------------------------

  /** How many characters have a code of at least `code`. */
  function From(s: string, code: nat): nat {
    if s == "" then 0 else (if s[0] as int >= code then 1 else 0) + From(s[1..], code)
  }

  lemma {:induction false} FromSnoc(s: string, c: char, code: nat)
    ensures From(s + [c], code) == From(s, code) + if c as int >= code then 1 else 0
  {
    if s == "" {
      assert s + [c] == [c];
    } else {
      FromSnoc(s[1..], c, code);
      assert (s + [c])[1..] == s[1..] + [c];
    }
  }

  /** UTF-8 takes one byte for a character, one more from U+0080, another from U+0800 and
      another from U+10000 on. */
  lemma {:induction false} SizeExact(s: string)
    ensures Size(s) == |s| + From(s, 0x80) + From(s, 0x800) + From(s, 0x10000)
  {
    if s != "" {
      var front, last := s[..|s| - 1], s[|s| - 1];
      SizeExact(front);
      assert s == front + [last];
      FromSnoc(front, last, 0x80);
      FromSnoc(front, last, 0x800);
      FromSnoc(front, last, 0x10000);
    }
  }

  lemma {:induction false} SizeJoined(a: string, b: string)
    ensures Size(a + b) == Size(a) + Size(b)
  {
    if b == "" {
      assert a + b == a;
    } else {
      SizeJoined(a, b[..|b| - 1]);
      assert (a + b)[..|a + b| - 1] == a + b[..|b| - 1];
    }
  }

  /** Everything the tenant has stored, one content after the other. */
  function Stored(rows: seq<Row>, t: Id): string {
    if rows == [] then ""
    else if rows[0].tenant == t then rows[0].event.content + Stored(rows[1..], t)
    else Stored(rows[1..], t)
  }

  lemma {:induction false} StoredSnoc(rows: seq<Row>, row: Row, t: Id)
    ensures Stored(rows + [row], t) == Stored(rows, t) + if row.tenant == t then row.event.content else ""
  {
    if rows == [] {
      assert rows + [row] == [row];
    } else {
      StoredSnoc(rows[1..], row, t);
      assert (rows + [row])[1..] == rows[1..] + [row];
    }
  }

  lemma {:induction false} BytesExact(rows: seq<Row>, t: Id)
    ensures TenantBytes(rows, t) == Size(Stored(rows, t))
  {
    if rows != [] {
      var front, last := rows[..|rows| - 1], rows[|rows| - 1];
      BytesExact(front, t);
      assert rows == front + [last];
      StoredSnoc(front, last, t);
      SizeJoined(Stored(front, t), if last.tenant == t then last.event.content else "");
    }
  }

  /** The events are exactly the rows of the project, at these places of the table. */
  ghost predicate Located(rows: seq<Row>, t: Id, p: Id, events: seq<Event>, at: seq<nat>) {
    && |at| == |events| && (forall i, j :: 0 <= i < j < |at| ==> at[i] < at[j])
    && (forall i :: 0 <= i < |at| ==> at[i] < |rows| && rows[at[i]] == Row(t, p, events[i]))
    && (forall k :: 0 <= k < |rows| && rows[k].tenant == t && rows[k].project == p ==> k in at)
  }

  lemma {:induction false} LocatedSnoc(rows: seq<Row>, t: Id, p: Id, events: seq<Event>, at: seq<nat>, row: Row)
    requires Located(rows, t, p, events, at)
    ensures row.tenant != t || row.project != p ==> Located(rows + [row], t, p, events, at)
    ensures row.tenant == t && row.project == p ==> Located(rows + [row], t, p, events + [row.event], at + [|rows|])
  {
    var all, more := rows + [row], at + [|rows|];
    assert forall k :: 0 <= k < |rows| ==> all[k] == rows[k];
    assert forall i :: 0 <= i < |at| ==> more[i] == at[i];
    forall k | 0 <= k < |all| && all[k].tenant == t && all[k].project == p ensures k in at || k == |rows| {
      if k < |rows| {
        assert rows[k].tenant == t;
      }
    }
    assert more[|at|] == |rows|;
  }

  lemma {:induction false} EventsLocated(rows: seq<Row>, t: Id, p: Id) returns (at: seq<nat>)
    ensures Located(rows, t, p, EventsOf(rows, t, p), at)
  {
    at := [];
    if rows == [] {
      return;
    }
    var front, last := rows[..|rows| - 1], rows[|rows| - 1];
    var before := EventsLocated(front, t, p);
    LocatedSnoc(front, t, p, EventsOf(front, t, p), before, last);
    assert rows == front + [last];
    at := if last.tenant == t && last.project == p then before + [|front|] else before;
  }

  // ---------------------------------------------------------------------
  // Provisioning and recording
  // ---------------------------------------------------------------------

  lemma {:induction false} TenantEffect(s: Store, t: Id)
    ensures ProvisionTenant(s, t) == if t in s.tenants then Err(Integrity) else Ok(Store(s.tenants + {t}, s.projects, s.rows))
  {
  }

  /** The quota on projects comes first, then the keys. */
  lemma {:induction false} ProjectEffect(q: Quota, s: Store, t: Id, p: Id, mine: set<Id>)
    requires forall x :: x in mine <==> (t, x) in s.projects
    ensures ProvisionProject(q, s, t, p) ==
      if |mine| >= q.projects then Err(QuotaExceeded)
      else if t !in s.tenants || p in mine then Err(Integrity)
      else Ok(Store(s.tenants, s.projects + {(t, p)}, s.rows))
  {
    assert ProjectsOf(s, t) == mine by {
      forall x ensures x in ProjectsOf(s, t) <==> (t, x) in s.projects {
      }
    }
  }

  ghost predicate OfProjectRows(rows: seq<Row>, t: Id, p: Id, n: int) {
    exists k :: 0 <= k < |rows| && rows[k].tenant == t && rows[k].project == p && rows[k].event.seqNo == n
  }

  /** One more than the largest number stored for the project, and 1 where there is none. */
  ghost predicate NextNumber(rows: seq<Row>, t: Id, p: Id, n: int) {
    && (forall k :: 0 <= k < |rows| && rows[k].tenant == t && rows[k].project == p ==> rows[k].event.seqNo < n)
    && n >= 1 && (n > 1 ==> OfProjectRows(rows, t, p, n - 1))
  }

  lemma {:induction false} MaxSeqIn(events: seq<Event>)
    ensures MaxSeq(events) > 0 ==> exists i :: 0 <= i < |events| && events[i].seqNo == MaxSeq(events)
  {
    if events != [] {
      var front := events[..|events| - 1];
      MaxSeqIn(front);
      if MaxSeq(events) > 0 && events[|events| - 1].seqNo != MaxSeq(events) {
        var i :| 0 <= i < |front| && front[i].seqNo == MaxSeq(front);
        assert events[i].seqNo == MaxSeq(events);
      }
    }
  }

  lemma {:induction false} NumberExact(s: Store, t: Id, p: Id, kind: string, content: string, at: int)
    ensures var e := NextEvent(s, t, p, kind, content, at);
      e == Event(e.seqNo, kind, content, at) && NextNumber(s.rows, t, p, e.seqNo)
  {
    var events := EventsOf(s.rows, t, p);
    EventsInRows(s.rows, t, p);
    MaxSeqBounds(events);
    MaxSeqIn(events);
    forall k | 0 <= k < |s.rows| && s.rows[k].tenant == t && s.rows[k].project == p ensures s.rows[k].event.seqNo <= MaxSeq(events) {
      assert s.rows[k] == Row(t, p, s.rows[k].event);
      assert s.rows[k].event in events;
    }
    if MaxSeq(events) > 0 {
      var i :| 0 <= i < |events| && events[i].seqNo == MaxSeq(events);
      assert Row(t, p, events[i]) in s.rows;
    }
  }

  /** The event's bytes, the project's events and the tenant's bytes are checked in this order,
      then the project; an admitted event is stored last, under the next number. `places` are
      those of the project's events. */
  lemma {:induction false} RecordEffect(q: Quota, s: Store, t: Id, p: Id, kind: string, content: string, at: int, r: Result<Store, Error>)
    returns (places: seq<nat>)
    requires r == RecordEvent(q, s, t, p, kind, content, at)
    ensures Located(s.rows, t, p, EventsOf(s.rows, t, p), places)
    ensures r == Err(QuotaExceeded) <==>
      || Size(content) > q.eventBytes || |places| >= q.events || Size(Stored(s.rows, t)) + Size(content) > q.tenantBytes
    ensures r == Err(Integrity) <==> r != Err(QuotaExceeded) && (t, p) !in s.projects
    ensures r.Err? ==> r.error in {QuotaExceeded, Integrity}
    ensures r.Ok? ==>
      && |r.value.rows| == |s.rows| + 1 && r.value == Store(s.tenants, s.projects, s.rows + [r.value.rows[|s.rows|]])
      && var row := r.value.rows[|s.rows|];
      && row == Row(t, p, Event(row.event.seqNo, kind, content, at)) && NextNumber(s.rows, t, p, row.event.seqNo)
  {
    BytesExact(s.rows, t);
    NumberExact(s, t, p, kind, content, at);
    places := EventsLocated(s.rows, t, p);
  }

  // ---------------------------------------------------------------------
  // Deleting
  // ---------------------------------------------------------------------

  /** `after` are the rows at these places, in their order. */
  ghost predicate KeptAt(rows: seq<Row>, after: seq<Row>, at: seq<nat>) {
    && |at| == |after| && (forall i, j :: 0 <= i < j < |at| ==> at[i] < at[j])
    && (forall i :: 0 <= i < |at| ==> at[i] < |rows| && rows[at[i]] == after[i])
  }

  lemma {:induction false} KeptSnoc(rows: seq<Row>, after: seq<Row>, at: seq<nat>, row: Row)
    requires KeptAt(rows, after, at)
    ensures KeptAt(rows + [row], after, at) && KeptAt(rows + [row], after + [row], at + [|rows|])
  {
    forall i | 0 <= i < |at| ensures (rows + [row])[at[i]] == after[i] {
      assert rows[at[i]] == after[i];
    }
  }

  lemma {:induction false} WithoutAt(rows: seq<Row>, d: Delete) returns (at: seq<nat>)
    ensures KeptAt(rows, Without(rows, d), at)
    ensures forall k :: 0 <= k < |rows| ==> (k in at <==> !Gone(d, rows[k]))
  {
    at := [];
    if rows == [] {
      return;
    }
    var front, last := rows[..|rows| - 1], rows[|rows| - 1];
    var before := WithoutAt(front, d);
    KeptSnoc(front, Without(front, d), before, last);
    assert rows == front + [last];
    at := if Gone(d, last) then before else before + [|front|];
    forall k | 0 <= k < |rows| ensures k in at <==> !Gone(d, rows[k]) {
      OnePlace(before, |front|, k);
      if k < |front| {
        assert k in before <==> !Gone(d, front[k]);
      } else {
        assert |front| !in before;
      }
    }
  }

  lemma {:induction false} OnePlace(before: seq<nat>, n: nat, k: nat)
    ensures k in before + [n] <==> k in before || k == n
  {
  }

  /** A purge keeps every row but those of the tenant from before the cutoff. */
  lemma {:induction false} PurgeEffect(s: Store, t: Id, cutoff: int) returns (at: seq<nat>)
    ensures var u := PurgeBefore(s, t, cutoff);
      && u.tenants == s.tenants && u.projects == s.projects && KeptAt(s.rows, u.rows, at)
      && forall k :: 0 <= k < |s.rows| ==> (k in at <==> s.rows[k].tenant != t || s.rows[k].event.at >= cutoff)
  {
    at := WithoutAt(s.rows, Before(t, cutoff));
  }

  lemma {:induction false} EraseProjectEffect(s: Store, t: Id, p: Id) returns (at: seq<nat>)
    ensures var u := EraseProject(s, t, p);
      && u.tenants == s.tenants && u.projects == s.projects - {(t, p)} && KeptAt(s.rows, u.rows, at)
      && forall k :: 0 <= k < |s.rows| ==> (k in at <==> s.rows[k].tenant != t || s.rows[k].project != p)
  {
    at := WithoutAt(s.rows, OfProject(t, p));
  }

  lemma {:induction false} EraseTenantEffect(s: Store, t: Id) returns (at: seq<nat>)
    ensures var u := EraseTenant(s, t);
      && u.tenants == s.tenants - {t} && (forall k :: k in u.projects <==> k in s.projects && k.0 != t) && KeptAt(s.rows, u.rows, at)
      && forall k :: 0 <= k < |s.rows| ==> (k in at <==> s.rows[k].tenant != t)
  {
    at := WithoutAt(s.rows, OfTenant(t));
  }

  // ---------------------------------------------------------------------
  // Restoring
  // ---------------------------------------------------------------------

  /** The contents of a backup, one after the other. */
  function Copied(events: seq<EventCopy>): string {
    if events == [] then "" else Copied(events[..|events| - 1]) + events[|events| - 1].content
  }

  function AllCopied(projects: seq<ProjectCopy>): string {
    if projects == [] then "" else AllCopied(projects[..|projects| - 1]) + Copied(projects[|projects| - 1].events)
  }

  lemma {:induction false} CopySizeExact(events: seq<EventCopy>)
    ensures CopySize(events) == Size(Copied(events))
  {
    if events != [] {
      CopySizeExact(events[..|events| - 1]);
      SizeJoined(Copied(events[..|events| - 1]), events[|events| - 1].content);
    }
  }

  lemma {:induction false} BackupSizeExact(projects: seq<ProjectCopy>)
    ensures BackupSize(projects) == Size(AllCopied(projects))
  {
    if projects != [] {
      BackupSizeExact(projects[..|projects| - 1]);
      CopySizeExact(projects[|projects| - 1].events);
      SizeJoined(AllCopied(projects[..|projects| - 1]), Copied(projects[|projects| - 1].events));
    }
  }

  predicate CopyFits(q: Quota, t: Id, p: Id, e: EventCopy) {
    e.tenant == t && e.project == p && e.seqNo > 0 && e.kind != "" && Size(e.content) <= q.eventBytes
  }

  /** A backup that a restore accepts: everything in it names its own tenant and project, no
      project and no number in a project comes twice, and all four quotas are met. */
  ghost predicate Admitted(q: Quota, b: Backup) {
    && b.tenant != "" && |b.projects| <= q.projects && Size(AllCopied(b.projects)) <= q.tenantBytes
    && (forall i, j :: 0 <= i < j < |b.projects| ==> b.projects[i].project != b.projects[j].project)
    && forall i :: 0 <= i < |b.projects| ==>
         && b.projects[i].tenant == b.tenant && b.projects[i].project != "" && |b.projects[i].events| <= q.events
         && (forall k :: 0 <= k < |b.projects[i].events| ==> CopyFits(q, b.tenant, b.projects[i].project, b.projects[i].events[k]))
         && forall k, l :: 0 <= k < l < |b.projects[i].events| ==> b.projects[i].events[k].seqNo != b.projects[i].events[l].seqNo
  }

  lemma {:induction false} AdmittedIs(q: Quota, b: Backup)
    ensures Admitted(q, b) <==> ValidBackup(q, b)
  {
    BackupSizeExact(b.projects);
    forall i | 0 <= i < |b.projects| ensures ValidProject(q, b.tenant, b.projects[i]) <==>
      && b.projects[i].tenant == b.tenant && b.projects[i].project != "" && |b.projects[i].events| <= q.events
      && (forall k :: 0 <= k < |b.projects[i].events| ==> CopyFits(q, b.tenant, b.projects[i].project, b.projects[i].events[k]))
      && forall k, l :: 0 <= k < l < |b.projects[i].events| ==> b.projects[i].events[k].seqNo != b.projects[i].events[l].seqNo
    {
      ProjectAdmitted(q, b.tenant, b.projects[i]);
    }
  }

  lemma {:induction false} ProjectAdmitted(q: Quota, t: Id, c: ProjectCopy)
    ensures ValidProject(q, t, c) <==>
      && c.tenant == t && c.project != "" && |c.events| <= q.events
      && (forall k :: 0 <= k < |c.events| ==> CopyFits(q, t, c.project, c.events[k]))
      && forall k, l :: 0 <= k < l < |c.events| ==> c.events[k].seqNo != c.events[l].seqNo
  {
    forall k | 0 <= k < |c.events| ensures ValidCopy(q, t, c.project, c.events[k]) <==> CopyFits(q, t, c.project, c.events[k]) {
    }
  }

  /** The project's rows are its copies, each once, in the order of their numbers. */
  ghost predicate Holds(u: Store, t: Id, c: ProjectCopy) {
    var events := EventsOf(u.rows, t, c.project);
    && |events| == |c.events| && Ascending(events)
    && forall i :: 0 <= i < |c.events| ==>
         Event(c.events[i].seqNo, c.events[i].kind, c.events[i].content, c.events[i].at) in events
  }

  lemma {:induction false} CopiesIn(rows: seq<Row>, events: seq<EventCopy>)
    ensures forall r :: r in rows ==> r in InsertCopies(rows, events)
    ensures forall i :: 0 <= i < |events| ==> RowOf(events[i]) in InsertCopies(rows, events)
  {
    if events != [] {
      var front, last := events[..|events| - 1], events[|events| - 1];
      CopiesIn(rows, front);
      InsertMembers(InsertCopies(rows, front), RowOf(last));
      forall i | 0 <= i < |events| ensures RowOf(events[i]) in InsertCopies(rows, events) {
        if i < |front| {
          assert front[i] == events[i];
        }
      }
    }
  }

  lemma {:induction false} ProjectsIn(s: Store, t: Id, projects: seq<ProjectCopy>, k: nat)
    requires k < |projects|
    ensures forall i :: 0 <= i < |projects[k].events| ==> RowOf(projects[k].events[i]) in InsertProjects(s, t, projects).rows
  {
    var front, last := projects[..|projects| - 1], projects[|projects| - 1];
    CopiesIn(InsertProjects(s, t, front).rows, last.events);
    if k < |front| {
      ProjectsIn(s, t, front, k);
      assert front[k] == projects[k];
    }
  }

  lemma {:induction false} ProjectHeld(q: Quota, begun: Store, b: Backup, k: nat)
    requires ValidBackup(q, b) && k < |b.projects| && forall p :: EventsOf(begun.rows, b.tenant, p) == []
    ensures Holds(InsertProjects(begun, b.tenant, b.projects), b.tenant, b.projects[k])
  {
    var u, c := InsertProjects(begun, b.tenant, b.projects), b.projects[k];
    ProjectsAddEvents(q, begun, b.tenant, b.projects, k, EventsOf(u.rows, b.tenant, c.project));
    ProjectsIn(begun, b.tenant, b.projects, k);
    EventsInRows(u.rows, b.tenant, c.project);
    forall i | 0 <= i < |c.events|
      ensures Event(c.events[i].seqNo, c.events[i].kind, c.events[i].content, c.events[i].at) in EventsOf(u.rows, b.tenant, c.project)
    {
      assert ValidCopy(q, b.tenant, c.project, c.events[i]);
      assert RowOf(c.events[i]) in u.rows;
    }
  }

  /** Restoring an admitted backup of an unknown tenant adds the tenant with exactly the
      backup's projects and their events, and leaves every other project as it was. */
  lemma {:induction false} RestoreEffect(q: Quota, s: Store, b: Backup, r: Result<Store, Error>)
    requires Inv(q, s) && r == Restore(q, s, b)
    ensures r == Err(BadBackup) <==> !Admitted(q, b)
    ensures r == Err(Integrity) <==> Admitted(q, b) && b.tenant in s.tenants
    ensures r.Err? ==> r.error in {BadBackup, Integrity}
    ensures r.Ok? ==>
      && r.value.tenants == s.tenants + {b.tenant}
      && (forall k :: k in r.value.projects <==> k in s.projects || (k.0 == b.tenant && exists i :: 0 <= i < |b.projects| && b.projects[i].project == k.1))
      && (forall i :: 0 <= i < |b.projects| ==> Holds(r.value, b.tenant, b.projects[i]))
      && (forall x, p :: x != b.tenant ==> EventsOf(r.value.rows, x, p) == EventsOf(s.rows, x, p))
  {
    AdmittedIs(q, b);
    if r.Err? {
      return;
    }
    var begun := s.(tenants := s.tenants + {b.tenant});
    forall p ensures EventsOf(begun.rows, b.tenant, p) == [] {
      UnknownTenantEmpty(s, b.tenant, p);
    }
    ProjectsAddKeys(begun, b.tenant, b.projects);
    KeysAre(b.tenant, b.projects);
    forall i | 0 <= i < |b.projects| ensures Holds(r.value, b.tenant, b.projects[i]) {
      ProjectHeld(q, begun, b, i);
    }
    forall x, p | x != b.tenant ensures EventsOf(r.value.rows, x, p) == EventsOf(s.rows, x, p) {
      ProjectsAddOthers(q, begun, b.tenant, b.projects, x, p);
    }
  }

  lemma {:induction false} KeysAre(t: Id, projects: seq<ProjectCopy>)
    ensures forall k :: k in ProjectKeys(t, projects) <==> k.0 == t && exists i :: 0 <= i < |projects| && projects[i].project == k.1
  {
    forall k: (Id, Id) | k.0 == t && exists i :: 0 <= i < |projects| && projects[i].project == k.1 ensures k in ProjectKeys(t, projects) {
      var i :| 0 <= i < |projects| && projects[i].project == k.1;
      assert (t, projects[i].project) == k;
    }
  }

  /** Each step of a run is the statement it names, and a refused one changes nothing. */
  lemma {:induction false} StatementRuns(q: Quota, s: Store, a: Action, u: Store)
    requires u == Step(q, s, a)
    ensures a.AddTenant? ==> Commits(s, ProvisionTenant(s, a.t), u)
    ensures a.AddProject? ==> Commits(s, ProvisionProject(q, s, a.t, a.p), u)
    ensures a.Record? ==> Commits(s, RecordEvent(q, s, a.t, a.p, a.kind, a.content, a.at), u)
    ensures a.RestoreBackup? ==> Commits(s, Restore(q, s, a.b), u)
    ensures a.Purge? ==> u == PurgeBefore(s, a.t, a.cutoff)
    ensures a.DropProject? ==> u == EraseProject(s, a.t, a.p)
    ensures a.DropTenant? ==> u == EraseTenant(s, a.t)
  {
  }

  predicate Commits(s: Store, r: Result<Store, Error>, u: Store) {
    u == if r.Ok? then r.value else s
  }
}
