/** Tenant content under quotas, with backup and restore (`HostedContentStore`).
    A write that would pass a quota is refused whole; a restore admits a backup only
    after it has validated all of it. Every reachable store is within its quotas, and
    under the same quotas the backup of a tenant validates and restores that tenant's
    projects and events exactly. Event numbers are one more than the largest kept. */
module HostedContent {
  import opened Wrappers

  type Id = string

  datatype Quota = Quota(projects: nat, events: nat, eventBytes: nat, tenantBytes: nat)

  datatype Event = Event(seqNo: int, kind: string, content: string, at: int)

  /** A row of `hosted_content_events`. */
  datatype Row = Row(tenant: Id, project: Id, event: Event)

  /** The three tables. Events are read in order of their number, so each project's rows
      are kept that way. */
  datatype Store = Store(tenants: set<Id>, projects: set<(Id, Id)>, rows: seq<Row>)

  datatype Error = QuotaExceeded | Integrity | BadBackup

  // ---------------------------------------------------------------------
  // Sizes
  // ---------------------------------------------------------------------

  /** UTF-8 length of a character. */
  function CharBytes(c: char): nat {
    var n := c as int;
    if n < 0x80 then 1 else if n < 0x800 then 2 else if n < 0x10000 then 3 else 4
  }

  function Size(content: string): nat {
    if content == "" then 0 else Size(content[..|content| - 1]) + CharBytes(content[|content| - 1])
  }

  function TotalSize(events: seq<Event>): nat {
    if events == [] then 0 else TotalSize(events[..|events| - 1]) + Size(events[|events| - 1].content)
  }

  /** The events of one project, in table order. */
  function EventsOf(rows: seq<Row>, t: Id, p: Id): seq<Event> {
    if rows == [] then []
    else
      var before, last := EventsOf(rows[..|rows| - 1], t, p), rows[|rows| - 1];
      if last.tenant == t && last.project == p then before + [last.event] else before
  }

  /** Content bytes of one tenant. */
  function TenantBytes(rows: seq<Row>, t: Id): nat {
    if rows == [] then 0
    else TenantBytes(rows[..|rows| - 1], t) + (if rows[|rows| - 1].tenant == t then Size(rows[|rows| - 1].event.content) else 0)
  }

  function ProjectsOf(s: Store, t: Id): set<Id> {
    set k | k in s.projects && k.0 == t :: k.1
  }

  /** `MAX(event_seq)` or 0. */
  function MaxSeq(events: seq<Event>): (n: int)
    ensures n >= 0
  {
    if events == [] then 0
    else
      var rest, last := MaxSeq(events[..|events| - 1]), events[|events| - 1].seqNo;
      if last > rest then last else rest
  }

  // ---------------------------------------------------------------------
  // Operations
  // ---------------------------------------------------------------------

  function ProvisionTenant(s: Store, t: Id): Result<Store, Error> {
    if t in s.tenants then Err(Integrity) else Ok(s.(tenants := s.tenants + {t}))
  }

  function ProvisionProject(q: Quota, s: Store, t: Id, p: Id): Result<Store, Error> {
    if |ProjectsOf(s, t)| >= q.projects then Err(QuotaExceeded)
    else if t !in s.tenants || (t, p) in s.projects then Err(Integrity)
    else Ok(s.(projects := s.projects + {(t, p)}))
  }

  function NextEvent(s: Store, t: Id, p: Id, kind: string, content: string, at: int): Event {
    Event(MaxSeq(EventsOf(s.rows, t, p)) + 1, kind, content, at)
  }

  function RecordEvent(q: Quota, s: Store, t: Id, p: Id, kind: string, content: string, at: int): Result<Store, Error> {
    if Size(content) > q.eventBytes then Err(QuotaExceeded)
    else if |EventsOf(s.rows, t, p)| >= q.events then Err(QuotaExceeded)
    else if TenantBytes(s.rows, t) + Size(content) > q.tenantBytes then Err(QuotaExceeded)
    else if (t, p) !in s.projects then Err(Integrity)
    else Ok(s.(rows := s.rows + [Row(t, p, NextEvent(s, t, p, kind, content, at))]))
  }

  /** What a delete statement removes. */
  datatype Delete = Before(t: Id, cutoff: int) | OfProject(t: Id, p: Id) | OfTenant(t: Id)

  predicate Gone(d: Delete, r: Row) {
    match d
    case Before(t, cutoff) => r.tenant == t && r.event.at < cutoff
    case OfProject(t, p) => r.tenant == t && r.project == p
    case OfTenant(t) => r.tenant == t
  }

  /** Rows that do not satisfy a delete's condition. */
  function Without(rows: seq<Row>, d: Delete): seq<Row> {
    if rows == [] then []
    else if Gone(d, rows[|rows| - 1]) then Without(rows[..|rows| - 1], d)
    else Without(rows[..|rows| - 1], d) + [rows[|rows| - 1]]
  }

  function PurgeBefore(s: Store, t: Id, cutoff: int): Store {
    s.(rows := Without(s.rows, Before(t, cutoff)))
  }

  function EraseProject(s: Store, t: Id, p: Id): Store {
    s.(rows := Without(s.rows, OfProject(t, p)), projects := s.projects - {(t, p)})
  }

  function EraseTenant(s: Store, t: Id): Store {
    Store(s.tenants - {t}, (set k | k in s.projects && k.0 != t), Without(s.rows, OfTenant(t)))
  }

  // ---------------------------------------------------------------------
  // Backup and restore
  // ---------------------------------------------------------------------

  /** A decoded backup. Each project and event repeats where it belongs. */
  datatype EventCopy = EventCopy(tenant: Id, project: Id, seqNo: int, kind: string, content: string, at: int)
  datatype ProjectCopy = ProjectCopy(tenant: Id, project: Id, events: seq<EventCopy>)
  datatype Backup = Backup(tenant: Id, projects: seq<ProjectCopy>)

  function CopySize(events: seq<EventCopy>): nat {
    if events == [] then 0 else CopySize(events[..|events| - 1]) + Size(events[|events| - 1].content)
  }

  function BackupSize(projects: seq<ProjectCopy>): nat {
    if projects == [] then 0 else BackupSize(projects[..|projects| - 1]) + CopySize(projects[|projects| - 1].events)
  }

  predicate ValidCopy(q: Quota, t: Id, p: Id, e: EventCopy) {
    e.tenant == t && e.project == p && e.seqNo >= 1 && e.kind != "" && Size(e.content) <= q.eventBytes
  }

  predicate ValidProject(q: Quota, t: Id, c: ProjectCopy) {
    && c.tenant == t && c.project != "" && |c.events| <= q.events
    && (forall i :: 0 <= i < |c.events| ==> ValidCopy(q, t, c.project, c.events[i]))
    && (forall i, j :: 0 <= i < j < |c.events| ==> c.events[i].seqNo != c.events[j].seqNo)
  }

  /** What `_validate_tenant_backup` accepts. */
  predicate ValidBackup(q: Quota, b: Backup) {
    && b.tenant != "" && |b.projects| <= q.projects
    && (forall i :: 0 <= i < |b.projects| ==> ValidProject(q, b.tenant, b.projects[i]))
    && (forall i, j :: 0 <= i < j < |b.projects| ==> b.projects[i].project != b.projects[j].project)
    && BackupSize(b.projects) <= q.tenantBytes
  }

  predicate Later(r: Row, row: Row) {
    r.tenant == row.tenant && r.project == row.project && r.event.seqNo > row.event.seqNo
  }

  /** A row takes its place in its project's order. */
  function Insert(rows: seq<Row>, row: Row): seq<Row> {
    if Appends(rows, row) then rows + [row]
    else Insert(rows[..|rows| - 1], row) + [rows[|rows| - 1]]
  }

  function RowOf(e: EventCopy): Row {
    Row(e.tenant, e.project, Event(e.seqNo, e.kind, e.content, e.at))
  }

  function InsertCopies(rows: seq<Row>, events: seq<EventCopy>): seq<Row> {
    if events == [] then rows
    else Insert(InsertCopies(rows, events[..|events| - 1]), RowOf(events[|events| - 1]))
  }

  function InsertProjects(s: Store, t: Id, projects: seq<ProjectCopy>): Store {
    if projects == [] then s
    else
      var last := projects[|projects| - 1];
      var before := InsertProjects(s, t, projects[..|projects| - 1]);
      before.(projects := before.projects + {(t, last.project)}, rows := InsertCopies(before.rows, last.events))
  }

  /** `restore_tenant`: validate, then insert the tenant and everything of it, or nothing. */
  function Restore(q: Quota, s: Store, b: Backup): Result<Store, Error> {
    if !ValidBackup(q, b) then Err(BadBackup)
    else if b.tenant in s.tenants then Err(Integrity)
    else Ok(InsertProjects(s.(tenants := s.tenants + {b.tenant}), b.tenant, b.projects))
  }

  function CopyOf(t: Id, p: Id, e: Event): EventCopy {
    EventCopy(t, p, e.seqNo, e.kind, e.content, e.at)
  }

  function CopiesOf(t: Id, p: Id, events: seq<Event>): (copies: seq<EventCopy>)
    ensures |copies| == |events| && forall i :: 0 <= i < |events| ==> copies[i] == CopyOf(t, p, events[i])
  {
    seq(|events|, i requires 0 <= i < |events| => CopyOf(t, p, events[i]))
  }

  /** `backup_tenant`: every project of the tenant once, with its events in order. */
  ghost predicate IsBackup(s: Store, t: Id, b: Backup) {
    && b.tenant == t
    && (forall i, j :: 0 <= i < j < |b.projects| ==> b.projects[i].project != b.projects[j].project)
    && (forall p :: p in ProjectsOf(s, t) <==> exists i :: 0 <= i < |b.projects| && b.projects[i].project == p)
    && (forall i :: 0 <= i < |b.projects| ==> var p := b.projects[i].project;
          b.projects[i] == ProjectCopy(t, p, CopiesOf(t, p, EventsOf(s.rows, t, p))))
  }

  // ---------------------------------------------------------------------
  // Every store satisfies the quotas
  // ---------------------------------------------------------------------

  predicate Ascending(events: seq<Event>) {
    forall i, j :: 0 <= i < j < |events| ==> events[i].seqNo < events[j].seqNo
  }

  ghost predicate Tables(s: Store) {
    && (forall k :: k in s.projects ==> k.0 in s.tenants)
    && (forall r :: r in s.rows ==> (r.tenant, r.project) in s.projects && r.event.seqNo >= 1)
    && (forall t, p :: Ascending(EventsOf(s.rows, t, p)))
  }

  ghost predicate WithinQuota(q: Quota, s: Store) {
    && (forall t :: |ProjectsOf(s, t)| <= q.projects)
    && (forall t, p :: |EventsOf(s.rows, t, p)| <= q.events)
    && (forall r :: r in s.rows ==> Size(r.event.content) <= q.eventBytes)
    && (forall t :: TenantBytes(s.rows, t) <= q.tenantBytes)
  }

  ghost predicate Inv(q: Quota, s: Store) {
    Tables(s) && WithinQuota(q, s)
  }

  lemma {:induction false} AppendRow(rows: seq<Row>, row: Row, t: Id, p: Id)
    ensures EventsOf(rows + [row], t, p)
         == if row.tenant == t && row.project == p then EventsOf(rows, t, p) + [row.event] else EventsOf(rows, t, p)
    ensures TenantBytes(rows + [row], t) == TenantBytes(rows, t) + (if row.tenant == t then Size(row.event.content) else 0)
  {
    assert (rows + [row])[..|rows|] == rows;
  }

  lemma {:induction false} MaxSeqBounds(events: seq<Event>)
    ensures forall i :: 0 <= i < |events| ==> events[i].seqNo <= MaxSeq(events)
    ensures Ascending(events) && events != [] ==>
      MaxSeq(events) == if events[|events| - 1].seqNo >= 0 then events[|events| - 1].seqNo else 0
  {
    if events != [] {
      var front, last := events[..|events| - 1], events[|events| - 1];
      MaxSeqBounds(front);
      if Ascending(events) && front != [] {
        assert events[|front| - 1].seqNo < last.seqNo;
      }
    }
  }

  lemma {:induction false} AscendingSnoc(events: seq<Event>, e: Event)
    ensures Ascending(events + [e]) <==> Ascending(events) && forall x :: x in events ==> x.seqNo < e.seqNo
  {
    var all := events + [e];
    assert forall i :: 0 <= i < |events| ==> all[i] == events[i];
    if Ascending(all) {
      assert all[|events|] == e;
    }
  }

  lemma {:induction false} RecordEventKeeps(q: Quota, s: Store, t: Id, p: Id, kind: string, content: string, at: int, u: Store)
    requires Inv(q, s) && RecordEvent(q, s, t, p, kind, content, at) == Ok(u)
    ensures Inv(q, u)
  {
    var row := Row(t, p, NextEvent(s, t, p, kind, content, at));
    forall x, y ensures Ascending(EventsOf(u.rows, x, y)) && |EventsOf(u.rows, x, y)| <= q.events {
    }
    forall x ensures |ProjectsOf(u, x)| <= q.projects && TenantBytes(u.rows, x) <= q.tenantBytes {
      assert ProjectsOf(u, x) == ProjectsOf(s, x);
    }
  }

  lemma {:induction false} ProvisionProjectKeeps(q: Quota, s: Store, t: Id, p: Id)
    requires Inv(q, s) && ProvisionProject(q, s, t, p).Ok?
    ensures Inv(q, ProvisionProject(q, s, t, p).value)
  {
    var u := ProvisionProject(q, s, t, p).value;
    forall x ensures |ProjectsOf(u, x)| <= q.projects {
      assert ProjectsOf(u, x) == ProjectsOf(s, x) + if x == t then {p} else {};
    }
  }

  lemma {:induction false} WithoutRows(rows: seq<Row>, d: Delete)
    ensures forall r :: r in Without(rows, d) <==> r in rows && !Gone(d, r)
  {
    if rows != [] {
      WithoutRows(rows[..|rows| - 1], d);
    }
  }

  lemma {:induction false} WithoutSizes(rows: seq<Row>, d: Delete, t: Id, p: Id)
    ensures |EventsOf(Without(rows, d), t, p)| <= |EventsOf(rows, t, p)|
    ensures TenantBytes(Without(rows, d), t) <= TenantBytes(rows, t)
  {
    if rows != [] {
      WithoutSizes(rows[..|rows| - 1], d, t, p);
      AppendRow(Without(rows[..|rows| - 1], d), rows[|rows| - 1], t, p);
    }
  }

  lemma {:induction false} WithoutAscending(rows: seq<Row>, d: Delete, t: Id, p: Id)
    requires Ascending(EventsOf(rows, t, p))
    ensures Ascending(EventsOf(Without(rows, d), t, p))
    ensures forall e :: e in EventsOf(Without(rows, d), t, p) ==> e in EventsOf(rows, t, p)
  {
    if rows == [] {
      return;
    }
    var front, last := rows[..|rows| - 1], rows[|rows| - 1];
    var before, kept := EventsOf(front, t, p), EventsOf(Without(front, d), t, p);
    AppendRow(Without(front, d), last, t, p);
    if last.tenant != t || last.project != p {
      WithoutAscending(front, d, t, p);
      return;
    }
    AscendingSnoc(before, last.event);
    WithoutAscending(front, d, t, p);
    if !Gone(d, last) {
      AscendingSnoc(kept, last.event);
    }
  }

  lemma {:induction false} DeleteKeeps(q: Quota, s: Store, u: Store, d: Delete)
    requires Inv(q, s) && u.rows == Without(s.rows, d) && u.tenants <= s.tenants && u.projects <= s.projects
    requires forall k :: k in u.projects ==> k.0 in u.tenants
    requires forall r :: r in s.rows && !Gone(d, r) ==> (r.tenant, r.project) in u.projects
    ensures Inv(q, u)
  {
    forall t, p ensures Ascending(EventsOf(u.rows, t, p)) && |EventsOf(u.rows, t, p)| <= q.events {
      WithoutSizes(s.rows, d, t, p);
      WithoutAscending(s.rows, d, t, p);
    }
    WithoutRows(s.rows, d);
    forall t ensures |ProjectsOf(u, t)| <= q.projects && TenantBytes(u.rows, t) <= q.tenantBytes {
      WithoutSizes(s.rows, d, t, "");
      SubsetCardinality(ProjectsOf(u, t), ProjectsOf(s, t));
    }
  }

  lemma {:induction false} SubsetCardinality<T>(a: set<T>, b: set<T>)
    requires a <= b
    ensures |a| <= |b|
  {
    assert b == a + (b - a);
  }

  // ---------------------------------------------------------------------
  // Restoring
  // ---------------------------------------------------------------------

  predicate Appends(rows: seq<Row>, row: Row) {
    forall i :: 0 <= i < |rows| ==> !Later(rows[i], row)
  }

  lemma {:induction false} InsertMembers(rows: seq<Row>, row: Row)
    ensures forall r :: r in Insert(rows, row) <==> r in rows || r == row
  {
    if !Appends(rows, row) {
      var front, last := rows[..|rows| - 1], rows[|rows| - 1];
      InsertMembers(front, row);
      assert rows == front + [last];
    }
  }

  lemma {:induction false} InsertSizes(rows: seq<Row>, row: Row, t: Id, p: Id)
    ensures |EventsOf(Insert(rows, row), t, p)| == |EventsOf(rows, t, p)| + (if row.tenant == t && row.project == p then 1 else 0)
    ensures TenantBytes(Insert(rows, row), t) == TenantBytes(rows, t) + (if row.tenant == t then Size(row.event.content) else 0)
  {
    if Appends(rows, row) {
      AppendRow(rows, row, t, p);
    } else {
      var front, last := rows[..|rows| - 1], rows[|rows| - 1];
      InsertSizes(front, row, t, p);
      AppendRow(front, last, t, p);
      AppendRow(Insert(front, row), last, t, p);
    }
  }

  lemma {:induction false} InsertElsewhere(rows: seq<Row>, row: Row, t: Id, p: Id)
    requires row.tenant != t || row.project != p
    ensures EventsOf(Insert(rows, row), t, p) == EventsOf(rows, t, p)
  {
    if Appends(rows, row) {
      AppendRow(rows, row, t, p);
    } else {
      var front, last := rows[..|rows| - 1], rows[|rows| - 1];
      InsertElsewhere(front, row, t, p);
      AppendRow(Insert(front, row), last, t, p);
    }
  }

  lemma {:induction false} EventsInRows(rows: seq<Row>, t: Id, p: Id)
    ensures forall e :: e in EventsOf(rows, t, p) <==> Row(t, p, e) in rows
  {
    if rows != [] {
      EventsInRows(rows[..|rows| - 1], t, p);
      assert rows == rows[..|rows| - 1] + [rows[|rows| - 1]];
    }
  }

  lemma {:induction false} AppendAscending(rows: seq<Row>, row: Row)
    requires Ascending(EventsOf(rows, row.tenant, row.project)) && Appends(rows, row)
    requires forall e :: e in EventsOf(rows, row.tenant, row.project) ==> e.seqNo != row.event.seqNo
    ensures Ascending(EventsOf(rows + [row], row.tenant, row.project))
  {
    var events := EventsOf(rows, row.tenant, row.project);
    AppendRow(rows, row, row.tenant, row.project);
    EventsInRows(rows, row.tenant, row.project);
    forall e | e in events ensures e.seqNo < row.event.seqNo {
      var i :| 0 <= i < |rows| && rows[i] == Row(row.tenant, row.project, e);
      assert !Later(rows[i], row);
    }
    AscendingSnoc(events, row.event);
  }

  /** Inserting a new number keeps the project's events in order. */
  lemma {:induction false} InsertAscending(rows: seq<Row>, row: Row)
    requires Ascending(EventsOf(rows, row.tenant, row.project))
    requires forall e :: e in EventsOf(rows, row.tenant, row.project) ==> e.seqNo != row.event.seqNo
    ensures Ascending(EventsOf(Insert(rows, row), row.tenant, row.project))
  {
    var t, p := row.tenant, row.project;
    if Appends(rows, row) {
      AppendAscending(rows, row);
    } else {
      var front, last := rows[..|rows| - 1], rows[|rows| - 1];
      AscendingSnoc(EventsOf(front, t, p), last.event);
      InsertAscending(front, row);
      AppendRow(Insert(front, row), last, t, p);
      if last.tenant == t && last.project == p {
        LastIsLater(rows, row);
        InsertedEvents(front, row);
        AscendingSnoc(EventsOf(Insert(front, row), t, p), last.event);
      }
    }
  }

  lemma {:induction false} InsertedEvents(rows: seq<Row>, row: Row)
    ensures forall e :: e in EventsOf(Insert(rows, row), row.tenant, row.project) ==>
      e == row.event || e in EventsOf(rows, row.tenant, row.project)
  {
    InsertMembers(rows, row);
    EventsInRows(rows, row.tenant, row.project);
    EventsInRows(Insert(rows, row), row.tenant, row.project);
  }

  lemma {:induction false} LastIsLater(rows: seq<Row>, row: Row)
    requires Ascending(EventsOf(rows, row.tenant, row.project)) && rows != []
    requires exists i :: 0 <= i < |rows| && Later(rows[i], row)
    requires rows[|rows| - 1].tenant == row.tenant && rows[|rows| - 1].project == row.project
    ensures rows[|rows| - 1].event.seqNo > row.event.seqNo
  {
    var front, last := rows[..|rows| - 1], rows[|rows| - 1];
    var i :| 0 <= i < |rows| && Later(rows[i], row);
    EventsInRows(front, row.tenant, row.project);
    AscendingSnoc(EventsOf(front, row.tenant, row.project), last.event);
    if i < |front| {
      assert front[i] == Row(row.tenant, row.project, rows[i].event);
    }
  }

  /** What a project's copies add to a table that has none of its events. */
  lemma {:induction false} CopiesAdd(q: Quota, rows: seq<Row>, t: Id, p: Id, events: seq<EventCopy>, x: Id, y: Id)
    requires forall i :: 0 <= i < |events| ==> ValidCopy(q, t, p, events[i])
    requires forall i, j :: 0 <= i < j < |events| ==> events[i].seqNo != events[j].seqNo
    requires EventsOf(rows, t, p) == []
    ensures var after := InsertCopies(rows, events);
      && |EventsOf(after, t, p)| == |events| && Ascending(EventsOf(after, t, p))
      && (forall e :: e in EventsOf(after, t, p) ==> exists i :: 0 <= i < |events| && events[i].seqNo == e.seqNo)
      && (x != t || y != p ==> EventsOf(after, x, y) == EventsOf(rows, x, y))
      && TenantBytes(after, x) == TenantBytes(rows, x) + (if x == t then CopySize(events) else 0)
      && (forall r :: r in after ==> r in rows || (r.tenant == t && r.project == p && r.event.seqNo >= 1 && Size(r.event.content) <= q.eventBytes))
  {
    if events != [] {
      var front, last := events[..|events| - 1], events[|events| - 1];
      CopiesAdd(q, rows, t, p, front, x, y);
      var before := InsertCopies(rows, front);
      InsertSizes(before, RowOf(last), t, p);
      InsertSizes(before, RowOf(last), x, y);
      if x != t || y != p {
        InsertElsewhere(before, RowOf(last), x, y);
      }
      InsertMembers(before, RowOf(last));
      InsertedEvents(before, RowOf(last));
      InsertAscending(before, RowOf(last));
      forall e | e in EventsOf(InsertCopies(rows, events), t, p)
        ensures exists i :: 0 <= i < |events| && events[i].seqNo == e.seqNo
      {
        if e == RowOf(last).event {
          assert events[|events| - 1].seqNo == e.seqNo;
        } else {
          var i :| 0 <= i < |front| && front[i].seqNo == e.seqNo;
          assert events[i].seqNo == e.seqNo;
        }
      }
    }
  }

  ghost predicate ValidProjects(q: Quota, t: Id, projects: seq<ProjectCopy>) {
    && (forall i :: 0 <= i < |projects| ==> ValidProject(q, t, projects[i]))
    && (forall i, j :: 0 <= i < j < |projects| ==> projects[i].project != projects[j].project)
  }

  function ProjectKeys(t: Id, projects: seq<ProjectCopy>): set<(Id, Id)> {
    set i | 0 <= i < |projects| :: (t, projects[i].project)
  }

  predicate Lists(projects: seq<ProjectCopy>, p: Id) {
    exists i :: 0 <= i < |projects| && projects[i].project == p
  }

  lemma {:induction false} ProjectsAddKeys(s: Store, t: Id, projects: seq<ProjectCopy>)
    ensures var u := InsertProjects(s, t, projects);
      u.tenants == s.tenants && u.projects == s.projects + ProjectKeys(t, projects)
  {
    if projects != [] {
      var front, last := projects[..|projects| - 1], projects[|projects| - 1];
      ProjectsAddKeys(s, t, front);
      assert ProjectKeys(t, projects) == ProjectKeys(t, front) + {(t, last.project)} by {
        forall i | 0 <= i < |front| ensures front[i] == projects[i] {
        }
        assert projects[|front|] == last;
      }
    }
  }

  /** Restoring touches no other project ... */
  lemma {:induction false} ProjectsAddOthers(q: Quota, s: Store, t: Id, projects: seq<ProjectCopy>, x: Id, y: Id)
    requires ValidProjects(q, t, projects) && forall p :: EventsOf(s.rows, t, p) == []
    requires x != t || !Lists(projects, y)
    ensures EventsOf(InsertProjects(s, t, projects).rows, x, y) == EventsOf(s.rows, x, y)
  {
    if projects != [] {
      var front, last := projects[..|projects| - 1], projects[|projects| - 1];
      assert projects[|front|] == last;
      assert !Lists(front, last.project) && (x != t || !Lists(front, y));
      ProjectsAddOthers(q, s, t, front, x, y);
      ProjectsAddOthers(q, s, t, front, t, last.project);
      CopiesAdd(q, InsertProjects(s, t, front).rows, t, last.project, last.events, x, y);
    }
  }

  /** ... adds the backup's bytes to its own tenant only, and rows that are well formed. */
  lemma {:induction false} ProjectsAddBytes(q: Quota, s: Store, t: Id, projects: seq<ProjectCopy>, x: Id)
    requires ValidProjects(q, t, projects) && forall p :: EventsOf(s.rows, t, p) == []
    ensures var u := InsertProjects(s, t, projects);
      && TenantBytes(u.rows, x) == TenantBytes(s.rows, x) + (if x == t then BackupSize(projects) else 0)
      && (forall r :: r in u.rows && r !in s.rows ==>
            r.event.seqNo >= 1 && Size(r.event.content) <= q.eventBytes && (r.tenant, r.project) in u.projects)
  {
    if projects != [] {
      var front, last := projects[..|projects| - 1], projects[|projects| - 1];
      assert projects[|front|] == last;
      assert !Lists(front, last.project);
      ProjectsAddBytes(q, s, t, front, x);
      ProjectsAddOthers(q, s, t, front, t, last.project);
      CopiesAdd(q, InsertProjects(s, t, front).rows, t, last.project, last.events, x, last.project);
    }
  }

  /** The rows before the last project of the backup have nothing of it. */
  lemma {:induction false} LastIsNew(q: Quota, s: Store, t: Id, projects: seq<ProjectCopy>)
    requires ValidProjects(q, t, projects) && projects != [] && forall p :: EventsOf(s.rows, t, p) == []
    ensures var front := projects[..|projects| - 1];
      && ValidProjects(q, t, front)
      && EventsOf(InsertProjects(s, t, front).rows, t, projects[|projects| - 1].project) == []
  {
    var front, last := projects[..|projects| - 1], projects[|projects| - 1];
    assert projects[|front|] == last;
    assert !Lists(front, last.project);
    ProjectsAddOthers(q, s, t, front, t, last.project);
  }

  lemma {:induction false} LastProjectEvents(q: Quota, rows: seq<Row>, t: Id, last: ProjectCopy, events: seq<Event>)
    requires ValidProject(q, t, last) && EventsOf(rows, t, last.project) == []
    requires events == EventsOf(InsertCopies(rows, last.events), t, last.project)
    ensures |events| == |last.events| && Ascending(events)
    ensures CopiesAscend(last.events) ==> CopiesOf(t, last.project, events) == last.events
  {
    CopiesAdd(q, rows, t, last.project, last.events, t, last.project);
    if CopiesAscend(last.events) {
      CopiesExact(q, rows, t, last.project, last.events);
    }
  }

  /** Each project of the backup gets as many events as it has copies, in order; given in
      order, exactly those. */
  lemma {:induction false} ProjectsAddEvents(q: Quota, s: Store, t: Id, projects: seq<ProjectCopy>, k: nat, events: seq<Event>)
    requires ValidProjects(q, t, projects) && k < |projects| && forall p :: EventsOf(s.rows, t, p) == []
    requires events == EventsOf(InsertProjects(s, t, projects).rows, t, projects[k].project)
    ensures |events| == |projects[k].events| && Ascending(events)
    ensures CopiesAscend(projects[k].events) ==> CopiesOf(t, projects[k].project, events) == projects[k].events
    decreases |projects|
  {
    var front, last := projects[..|projects| - 1], projects[|projects| - 1];
    var before := InsertProjects(s, t, front);
    LastIsNew(q, s, t, projects);
    if k == |front| {
      LastProjectEvents(q, before.rows, t, last, events);
    } else {
      CopiesAdd(q, before.rows, t, last.project, last.events, t, projects[k].project);
      ProjectsAddEvents(q, s, t, front, k, events);
    }
  }

  predicate CopiesAscend(events: seq<EventCopy>) {
    forall i, j :: 0 <= i < j < |events| ==> events[i].seqNo < events[j].seqNo
  }

  lemma {:induction false} CopiesExact(q: Quota, rows: seq<Row>, t: Id, p: Id, events: seq<EventCopy>)
    requires forall i :: 0 <= i < |events| ==> ValidCopy(q, t, p, events[i])
    requires CopiesAscend(events) && EventsOf(rows, t, p) == []
    ensures CopiesOf(t, p, EventsOf(InsertCopies(rows, events), t, p)) == events
  {
    if events != [] {
      var front, last := events[..|events| - 1], events[|events| - 1];
      var before := InsertCopies(rows, front);
      CopiesExact(q, rows, t, p, front);
      NoneLater(before, t, p, events);
      AppendRow(before, RowOf(last), t, p);
    }
  }

  /** Copies in order go after those before them. */
  lemma {:induction false} NoneLater(rows: seq<Row>, t: Id, p: Id, events: seq<EventCopy>)
    requires events != [] && CopiesAscend(events)
    requires CopiesOf(t, p, EventsOf(rows, t, p)) == events[..|events| - 1]
    requires events[|events| - 1].tenant == t && events[|events| - 1].project == p
    ensures Appends(rows, RowOf(events[|events| - 1]))
  {
    var placed := EventsOf(rows, t, p);
    EventsInRows(rows, t, p);
    forall i | 0 <= i < |rows| ensures !Later(rows[i], RowOf(events[|events| - 1])) {
      if rows[i].tenant == t && rows[i].project == p {
        assert rows[i] == Row(t, p, rows[i].event);
        var j :| 0 <= j < |placed| && placed[j] == rows[i].event;
        assert CopiesOf(t, p, placed)[j] == events[j];
      }
    }
  }

  lemma {:induction false} AddedKeys(s: Store, t: Id, projects: seq<ProjectCopy>, u: Store, x: Id)
    requires forall p :: (t, p) !in s.projects
    requires u.projects == s.projects + ProjectKeys(t, projects)
    ensures ProjectsOf(u, x) == if x == t then set i | 0 <= i < |projects| :: projects[i].project else ProjectsOf(s, x)
  {
    var names := set i | 0 <= i < |projects| :: projects[i].project;
    forall p ensures (t, p) in ProjectKeys(t, projects) <==> p in names {
    }
    forall p ensures p in ProjectsOf(u, x) <==> p in (if x == t then names else ProjectsOf(s, x)) {
      assert p in ProjectsOf(u, x) <==> (x, p) in u.projects;
      assert p in ProjectsOf(s, x) <==> (x, p) in s.projects;
    }
  }

  lemma {:induction false} KeyCount(s: Store, t: Id, projects: seq<ProjectCopy>)
    requires forall p :: (t, p) !in s.projects
    ensures |ProjectsOf(InsertProjects(s, t, projects), t)| <= |projects|
    ensures forall x :: x != t ==> ProjectsOf(InsertProjects(s, t, projects), x) == ProjectsOf(s, x)
  {
    ProjectsAddKeys(s, t, projects);
    var u := InsertProjects(s, t, projects);
    AddedKeys(s, t, projects, u, t);
    ImageCount(projects);
    forall x | x != t ensures ProjectsOf(u, x) == ProjectsOf(s, x) {
      AddedKeys(s, t, projects, u, x);
    }
  }

  lemma {:induction false} ImageCount(projects: seq<ProjectCopy>)
    ensures |set i | 0 <= i < |projects| :: projects[i].project| <= |projects|
  {
    var ids := set i | 0 <= i < |projects| :: projects[i].project;
    if projects == [] {
      assert ids == {};
    } else {
      var front, last := projects[..|projects| - 1], projects[|projects| - 1];
      ImageCount(front);
      assert ids == (set i | 0 <= i < |front| :: front[i].project) + {last.project} by {
        assert projects[|front|] == last;
        forall i | 0 <= i < |front| ensures front[i] == projects[i] {
        }
      }
    }
  }

  /** A tenant the tables do not know has no events. */
  lemma {:induction false} UnknownTenantEmpty(s: Store, t: Id, p: Id)
    requires Tables(s) && (t, p) !in s.projects
    ensures EventsOf(s.rows, t, p) == [] && (t !in s.tenants ==> TenantBytes(s.rows, t) == 0)
  {
    NoRows(s.rows, t, p);
  }

  lemma {:induction false} NoRows(rows: seq<Row>, t: Id, p: Id)
    ensures (forall r :: r in rows ==> r.tenant != t || r.project != p) ==> EventsOf(rows, t, p) == []
    ensures (forall r :: r in rows ==> r.tenant != t) ==> TenantBytes(rows, t) == 0
  {
    if rows != [] {
      NoRows(rows[..|rows| - 1], t, p);
    }
  }

  lemma {:induction false} RestoredInOrder(q: Quota, begun: Store, b: Backup, x: Id, y: Id)
    requires ValidBackup(q, b) && forall p :: EventsOf(begun.rows, b.tenant, p) == []
    requires Ascending(EventsOf(begun.rows, x, y)) && |EventsOf(begun.rows, x, y)| <= q.events
    ensures var events := EventsOf(InsertProjects(begun, b.tenant, b.projects).rows, x, y);
      Ascending(events) && |events| <= q.events
  {
    if x == b.tenant && Lists(b.projects, y) {
      var k :| 0 <= k < |b.projects| && b.projects[k].project == y;
      ProjectsAddEvents(q, begun, b.tenant, b.projects, k, EventsOf(InsertProjects(begun, b.tenant, b.projects).rows, x, y));
    } else {
      ProjectsAddOthers(q, begun, b.tenant, b.projects, x, y);
    }
  }

  lemma {:induction false} RestoredSizes(q: Quota, begun: Store, b: Backup, x: Id)
    requires ValidBackup(q, b) && (forall p :: EventsOf(begun.rows, b.tenant, p) == []) && TenantBytes(begun.rows, b.tenant) == 0
    requires forall p :: (b.tenant, p) !in begun.projects
    requires TenantBytes(begun.rows, x) <= q.tenantBytes && |ProjectsOf(begun, x)| <= q.projects
    ensures var u := InsertProjects(begun, b.tenant, b.projects);
      TenantBytes(u.rows, x) <= q.tenantBytes && |ProjectsOf(u, x)| <= q.projects
  {
    KeyCount(begun, b.tenant, b.projects);
    ProjectsAddBytes(q, begun, b.tenant, b.projects, x);
  }

  /** A restore of any valid backup keeps tables and quotas. */
  lemma {:induction false} RestoreKeeps(q: Quota, s: Store, b: Backup, u: Store)
    requires Inv(q, s) && Restore(q, s, b) == Ok(u)
    ensures Inv(q, u)
  {
    var t, begun := b.tenant, s.(tenants := s.tenants + {b.tenant});
    UnknownTenantEmpty(s, t, "");
    forall p ensures EventsOf(begun.rows, t, p) == [] {
      UnknownTenantEmpty(s, t, p);
    }
    forall x, y ensures Ascending(EventsOf(u.rows, x, y)) && |EventsOf(u.rows, x, y)| <= q.events {
      RestoredInOrder(q, begun, b, x, y);
    }
    forall x ensures TenantBytes(u.rows, x) <= q.tenantBytes && |ProjectsOf(u, x)| <= q.projects {
      assert ProjectsOf(begun, x) == ProjectsOf(s, x);
      RestoredSizes(q, begun, b, x);
    }
    ProjectsAddKeys(begun, t, b.projects);
    ProjectsAddBytes(q, begun, t, b.projects, t);
  }

  // ---------------------------------------------------------------------
  // Backups validate and restore exactly
  // ---------------------------------------------------------------------

  lemma {:induction false} CopySizeIs(t: Id, p: Id, events: seq<Event>)
    ensures CopySize(CopiesOf(t, p, events)) == TotalSize(events)
  {
    if events != [] {
      var front := events[..|events| - 1];
      CopySizeIs(t, p, front);
      assert CopiesOf(t, p, events)[..|front|] == CopiesOf(t, p, front);
    }
  }

  /** Content bytes of some projects of a tenant. */
  ghost function BytesIn(rows: seq<Row>, t: Id, ps: set<Id>): nat {
    if rows == [] then 0
    else
      var last := rows[|rows| - 1];
      BytesIn(rows[..|rows| - 1], t, ps) + (if last.tenant == t && last.project in ps then Size(last.event.content) else 0)
  }

  lemma {:induction false} BytesInAdd(rows: seq<Row>, t: Id, ps: set<Id>, p: Id)
    requires p !in ps
    ensures BytesIn(rows, t, ps + {p}) == BytesIn(rows, t, ps) + TotalSize(EventsOf(rows, t, p))
  {
    if rows != [] {
      BytesInAdd(rows[..|rows| - 1], t, ps, p);
    }
  }

  lemma {:induction false} BytesInAll(rows: seq<Row>, t: Id, ps: set<Id>)
    ensures BytesIn(rows, t, ps) <= TenantBytes(rows, t)
    ensures (forall r :: r in rows && r.tenant == t ==> r.project in ps) ==> BytesIn(rows, t, ps) == TenantBytes(rows, t)
    ensures ps == {} ==> BytesIn(rows, t, ps) == 0
  {
    if rows != [] {
      BytesInAll(rows[..|rows| - 1], t, ps);
    }
  }

  lemma {:induction false} BackupSizeIs(rows: seq<Row>, t: Id, projects: seq<ProjectCopy>)
    requires forall i, j :: 0 <= i < j < |projects| ==> projects[i].project != projects[j].project
    requires forall i :: 0 <= i < |projects| ==>
      projects[i] == ProjectCopy(t, projects[i].project, CopiesOf(t, projects[i].project, EventsOf(rows, t, projects[i].project)))
    ensures BackupSize(projects) == BytesIn(rows, t, set i | 0 <= i < |projects| :: projects[i].project)
  {
    var ids := set i | 0 <= i < |projects| :: projects[i].project;
    if projects == [] {
      assert ids == {};
      BytesInAll(rows, t, ids);
    } else {
      var front, last := projects[..|projects| - 1], projects[|projects| - 1];
      var before := set i | 0 <= i < |front| :: front[i].project;
      BackupSizeIs(rows, t, front);
      CopySizeIs(t, last.project, EventsOf(rows, t, last.project));
      assert projects[|front|] == last;
      assert ids == before + {last.project} by {
        forall i | 0 <= i < |front| ensures front[i] == projects[i] {
        }
      }
      BytesInAdd(rows, t, before, last.project);
    }
  }

  /** Names a backup needs: the tenant's, its projects' and its events' kinds. */
  ghost predicate Named(s: Store, t: Id) {
    && t != "" && (forall p :: p in ProjectsOf(s, t) ==> p != "")
    && (forall r :: r in s.rows && r.tenant == t ==> r.event.kind != "")
  }

  lemma {:induction false} BackupProjectValid(q: Quota, s: Store, t: Id, b: Backup, i: nat)
    requires Inv(q, s) && IsBackup(s, t, b) && i < |b.projects|
    ensures ValidProject(q, t, b.projects[i]) <==>
      b.projects[i].project != "" && forall e :: e in EventsOf(s.rows, t, b.projects[i].project) ==> e.kind != ""
  {
    var p := b.projects[i].project;
    var events, copies := EventsOf(s.rows, t, p), b.projects[i].events;
    EventsInRows(s.rows, t, p);
    forall k | 0 <= k < |copies| ensures ValidCopy(q, t, p, copies[k]) <==> events[k].kind != "" {
      assert copies[k] == CopyOf(t, p, events[k]);
      assert Row(t, p, events[k]) in s.rows;
    }
    if p != "" && forall e :: e in events ==> e.kind != "" {
      forall k | 0 <= k < |copies| ensures ValidCopy(q, t, p, copies[k]) {
        assert events[k] in events;
      }
    }
    if ValidProject(q, t, b.projects[i]) {
      forall e | e in events ensures e.kind != "" {
        var k :| 0 <= k < |events| && events[k] == e;
        assert ValidCopy(q, t, p, copies[k]);
      }
    }
  }

  lemma {:induction false} BackupCounts(q: Quota, s: Store, t: Id, b: Backup)
    requires Inv(q, s) && IsBackup(s, t, b)
    ensures |b.projects| <= q.projects && BackupSize(b.projects) <= q.tenantBytes
  {
    var ids := set i | 0 <= i < |b.projects| :: b.projects[i].project;
    assert ids == ProjectsOf(s, t);
    DistinctCount(b.projects);
    BackupSizeIs(s.rows, t, b.projects);
    BytesInAll(s.rows, t, ids);
  }

  lemma {:induction false} DistinctCount(projects: seq<ProjectCopy>)
    requires forall i, j :: 0 <= i < j < |projects| ==> projects[i].project != projects[j].project
    ensures |set i | 0 <= i < |projects| :: projects[i].project| == |projects|
  {
    var ids := set i | 0 <= i < |projects| :: projects[i].project;
    if projects == [] {
      assert ids == {};
    } else {
      var front, last := projects[..|projects| - 1], projects[|projects| - 1];
      var before := set i | 0 <= i < |front| :: front[i].project;
      DistinctCount(front);
      assert projects[|front|] == last;
      assert ids == before + {last.project} by {
        forall i | 0 <= i < |front| ensures front[i] == projects[i] {
        }
      }
      assert last.project !in before;
    }
  }

  /** Under the same quota a backup validates exactly when nothing in it is nameless. */
  lemma {:induction false} BackupValidates(q: Quota, s: Store, t: Id, b: Backup)
    requires Inv(q, s) && IsBackup(s, t, b)
    ensures ValidBackup(q, b) <==> Named(s, t)
  {
    BackupCounts(q, s, t, b);
    forall i | 0 <= i < |b.projects|
      ensures ValidProject(q, t, b.projects[i]) <==>
        b.projects[i].project != "" && forall e :: e in EventsOf(s.rows, t, b.projects[i].project) ==> e.kind != ""
    {
      BackupProjectValid(q, s, t, b, i);
      EventsInRows(s.rows, t, b.projects[i].project);
    }
    if ValidBackup(q, b) {
      forall p | p in ProjectsOf(s, t) ensures p != "" {
        var i :| 0 <= i < |b.projects| && b.projects[i].project == p;
        assert ValidProject(q, t, b.projects[i]);
      }
      forall r | r in s.rows && r.tenant == t ensures r.event.kind != "" {
        assert r.project in ProjectsOf(s, t);
        var i :| 0 <= i < |b.projects| && b.projects[i].project == r.project;
        EventsInRows(s.rows, t, r.project);
        assert ValidProject(q, t, b.projects[i]);
        assert r == Row(t, r.project, r.event);
        assert r.event in EventsOf(s.rows, t, r.project);
      }
    }
    if Named(s, t) {
      forall i | 0 <= i < |b.projects| ensures ValidProject(q, t, b.projects[i]) {
        EventsInRows(s.rows, t, b.projects[i].project);
        assert b.projects[i].project in ProjectsOf(s, t);
      }
    }
  }

  /** Restoring a backup into a store without the tenant gives back its projects and events
      exactly, so a new backup is the same, and leaves every other tenant alone. */
  lemma {:induction false} RestoreReproduces(q: Quota, s: Store, t: Id, b: Backup, target: Store, u: Store)
    requires Inv(q, s) && IsBackup(s, t, b) && Named(s, t)
    requires Inv(q, target) && t !in target.tenants && u == OrSame(target, Restore(q, target, b))
    ensures Restore(q, target, b) == Ok(u)
    ensures ProjectsOf(u, t) == ProjectsOf(s, t) && forall p :: EventsOf(u.rows, t, p) == EventsOf(s.rows, t, p)
    ensures IsBackup(u, t, b)
    ensures forall x, p :: x != t ==> EventsOf(u.rows, x, p) == EventsOf(target.rows, x, p)
  {
    var begun := target.(tenants := target.tenants + {t});
    BackupValidates(q, s, t, b);
    forall p ensures EventsOf(begun.rows, t, p) == [] {
      UnknownTenantEmpty(target, t, p);
    }
    ProjectsAddKeys(begun, t, b.projects);
    assert ProjectsOf(u, t) == ProjectsOf(s, t) by {
      forall p | p in ProjectsOf(s, t) ensures (t, p) in ProjectKeys(t, b.projects) {
        var i :| 0 <= i < |b.projects| && b.projects[i].project == p;
      }
    }
    forall p ensures EventsOf(u.rows, t, p) == EventsOf(s.rows, t, p) {
      RestoredEvents(q, s, t, b, begun, p);
    }
    forall x, p | x != t ensures EventsOf(u.rows, x, p) == EventsOf(target.rows, x, p) {
      ProjectsAddOthers(q, begun, t, b.projects, x, p);
    }
  }

  lemma {:induction false} SameCopies(t: Id, p: Id, a: seq<Event>, b: seq<Event>)
    requires CopiesOf(t, p, a) == CopiesOf(t, p, b)
    ensures a == b
  {
    forall i | 0 <= i < |CopiesOf(t, p, a)| ensures a[i] == b[i] {
      assert CopyOf(t, p, a[i]) == CopyOf(t, p, b[i]);
    }
  }

  lemma {:induction false} RestoredEvents(q: Quota, s: Store, t: Id, b: Backup, begun: Store, p: Id)
    requires Inv(q, s) && IsBackup(s, t, b) && ValidBackup(q, b)
    requires forall x :: EventsOf(begun.rows, t, x) == []
    ensures EventsOf(InsertProjects(begun, t, b.projects).rows, t, p) == EventsOf(s.rows, t, p)
  {
    if Lists(b.projects, p) {
      var k :| 0 <= k < |b.projects| && b.projects[k].project == p;
      var had, has := EventsOf(s.rows, t, p), EventsOf(InsertProjects(begun, t, b.projects).rows, t, p);
      assert CopiesAscend(b.projects[k].events);
      ProjectsAddEvents(q, begun, t, b.projects, k, has);
      SameCopies(t, p, has, had);
    } else {
      ProjectsAddOthers(q, begun, t, b.projects, t, p);
      assert p !in ProjectsOf(s, t);
      UnknownTenantEmpty(s, t, p);
    }
  }

  // ---------------------------------------------------------------------
  // Runs
  // ---------------------------------------------------------------------

  datatype Action =
    | AddTenant(t: Id)
    | AddProject(t: Id, p: Id)
    | Record(t: Id, p: Id, kind: string, content: string, at: int)
    | Purge(t: Id, cutoff: int)
    | DropProject(t: Id, p: Id)
    | DropTenant(t: Id)
    | RestoreBackup(b: Backup)

  function OrSame(s: Store, r: Result<Store, Error>): Store {
    if r.Ok? then r.value else s
  }

  function Step(q: Quota, s: Store, a: Action): Store {
    match a
    case AddTenant(t) => OrSame(s, ProvisionTenant(s, t))
    case AddProject(t, p) => OrSame(s, ProvisionProject(q, s, t, p))
    case Record(t, p, kind, content, at) => OrSame(s, RecordEvent(q, s, t, p, kind, content, at))
    case Purge(t, cutoff) => PurgeBefore(s, t, cutoff)
    case DropProject(t, p) => EraseProject(s, t, p)
    case DropTenant(t) => EraseTenant(s, t)
    case RestoreBackup(b) => OrSame(s, Restore(q, s, b))
  }

  function Run(q: Quota, actions: seq<Action>): Store {
    if actions == [] then Store({}, {}, []) else Step(q, Run(q, actions[..|actions| - 1]), actions[|actions| - 1])
  }

  lemma {:induction false} AddTenantKeeps(q: Quota, s: Store, t: Id)
    requires Inv(q, s)
    ensures Inv(q, s.(tenants := s.tenants + {t}))
  {
    forall x ensures ProjectsOf(s.(tenants := s.tenants + {t}), x) == ProjectsOf(s, x) {
    }
  }

  /** Every reachable store satisfies all four quotas, restored tenants included. */
  lemma {:induction false} RunWithinQuota(q: Quota, actions: seq<Action>)
    ensures Inv(q, Run(q, actions))
  {
    if actions != [] {
      var s := Run(q, actions[..|actions| - 1]);
      RunWithinQuota(q, actions[..|actions| - 1]);
      StepKeeps(q, s, actions[|actions| - 1]);
    } else {
      forall t ensures ProjectsOf(Run(q, []), t) == {} {
      }
    }
  }

  lemma {:induction false} StepKeeps(q: Quota, s: Store, a: Action)
    requires Inv(q, s)
    ensures Inv(q, Step(q, s, a))
  {
    var u := Step(q, s, a);
    if u == s {
      return;
    }
    match a {
      case AddTenant(t) => AddTenantKeeps(q, s, t); return;
      case AddProject(t, p) => ProvisionProjectKeeps(q, s, t, p); return;
      case Record(t, p, kind, content, at) => RecordEventKeeps(q, s, t, p, kind, content, at, u); return;
      case Purge(t, cutoff) => DeleteKeeps(q, s, u, Before(t, cutoff)); return;
      case DropProject(t, p) => DeleteKeeps(q, s, u, OfProject(t, p)); return;
      case DropTenant(t) => DeleteKeeps(q, s, u, OfTenant(t)); return;
      case RestoreBackup(b) => RestoreKeeps(q, s, b, u); return;
    }
  }

  // ---------------------------------------------------------------------
  // Numbers recur after a purge
  // ---------------------------------------------------------------------

  /** The largest number of some of a stream's events is still its largest exactly if its
      last event is among them. */
  lemma {:induction false} LargestKept(events: seq<Event>, kept: seq<Event>)
    requires events != [] && Ascending(events) && Ascending(kept)
    requires forall e :: e in events ==> e.seqNo >= 1
    requires forall e :: e in kept ==> e in events
    ensures MaxSeq(kept) + 1 > MaxSeq(events) <==> events[|events| - 1] in kept
  {
    var last := events[|events| - 1];
    MaxSeqBounds(events);
    MaxSeqBounds(kept);
    assert last in events && MaxSeq(events) == last.seqNo;
    if kept == [] {
      return;
    }
    var largest := kept[|kept| - 1];
    assert largest in kept && largest in events;
    var i :| 0 <= i < |events| && events[i] == largest;
    assert i < |events| - 1 ==> largest.seqNo < last.seqNo;
    if last in kept {
      var j :| 0 <= j < |kept| && kept[j] == last;
      assert kept[j].seqNo <= MaxSeq(kept);
    }
  }

  /** A consumer that has read everything sees the next event exactly if its project's last
      event is still stored: `MAX + 1` gives a purged number out again, and a poll from the
      old cursor passes over it. */
  lemma {:induction false} NextEventSeenIff(q: Quota, s: Store, t: Id, p: Id, d: Delete, kind: string, content: string, at: int)
    requires Inv(q, s) && EventsOf(s.rows, t, p) != []
    ensures var events := EventsOf(s.rows, t, p);
      var cursor := MaxSeq(events);
      var kept := EventsOf(Without(s.rows, d), t, p);
      NextEvent(s.(rows := Without(s.rows, d)), t, p, kind, content, at).seqNo > cursor <==> events[|events| - 1] in kept
  {
    var events, kept := EventsOf(s.rows, t, p), EventsOf(Without(s.rows, d), t, p);
    WithoutAscending(s.rows, d, t, p);
    forall e | e in events ensures e.seqNo >= 1 {
      EventsInRows(s.rows, t, p);
      assert Row(t, p, e) in s.rows;
    }
    LargestKept(events, kept);
  }

  // ---------------------------------------------------------------------
  // The store
  // ---------------------------------------------------------------------

  class HostedContentStore {
    const quota: Quota
    var tenants: set<Id>
    var projects: set<(Id, Id)>
    var rows: seq<Row>

    ghost function View(): Store
      reads this
    {
      Store(tenants, projects, rows)
    }

    constructor (quota: Quota)
      ensures this.quota == quota && View() == Store({}, {}, [])
    {
      this.quota := quota;
      tenants, projects, rows := {}, {}, [];
    }

    method AddTenant(t: Id) returns (failed: Option<Error>)
      modifies this`tenants
      ensures View() == OrSame(old(View()), ProvisionTenant(old(View()), t))
      ensures failed.None? <==> ProvisionTenant(old(View()), t).Ok?
    {
      if t in tenants {
        return Some(Integrity);
      }
      tenants := tenants + {t};
      failed := None;
    }

    method AddProject(t: Id, p: Id) returns (failed: Option<Error>)
      modifies this`projects
      ensures View() == OrSame(old(View()), ProvisionProject(quota, old(View()), t, p))
      ensures failed == if ProvisionProject(quota, old(View()), t, p).Ok? then None else Some(ProvisionProject(quota, old(View()), t, p).error)
    {
      if |set k | k in projects && k.0 == t :: k.1| >= quota.projects {
        return Some(QuotaExceeded);
      }
      if t !in tenants || (t, p) in projects {
        return Some(Integrity);
      }
      projects := projects + {(t, p)};
      failed := None;
    }

    method Record(t: Id, p: Id, kind: string, content: string, at: int) returns (r: Result<int, Error>)
      modifies this`rows
      ensures View() == OrSame(old(View()), RecordEvent(quota, old(View()), t, p, kind, content, at))
      ensures r == match RecordEvent(quota, old(View()), t, p, kind, content, at)
        case Ok(_) => Ok(NextEvent(old(View()), t, p, kind, content, at).seqNo)
        case Err(e) => Err(e)
    {
      var size := Size(content);
      if size > quota.eventBytes {
        return Err(QuotaExceeded);
      }
      var events := EventsOf(rows, t, p);
      if |events| >= quota.events || TenantBytes(rows, t) + size > quota.tenantBytes {
        return Err(QuotaExceeded);
      }
      if (t, p) !in projects {
        return Err(Integrity);
      }
      var seqNo := MaxSeq(events) + 1;
      rows := rows + [Row(t, p, Event(seqNo, kind, content, at))];
      r := Ok(seqNo);
    }

    /** The checks on one project's events, collecting their numbers and bytes. */
    method ValidateEvents(t: Id, p: Id, events: seq<EventCopy>) returns (ok: bool, bytes: nat)
      ensures ok <==>
        (forall i :: 0 <= i < |events| ==> ValidCopy(quota, t, p, events[i]))
        && forall i, j :: 0 <= i < j < |events| ==> events[i].seqNo != events[j].seqNo
      ensures ok ==> bytes == CopySize(events)
    {
      var sequences: set<int> := {};
      bytes := 0;
      var i := 0;
      while i < |events|
        invariant 0 <= i <= |events| && bytes == CopySize(events[..i])
        invariant forall j :: 0 <= j < i ==> ValidCopy(quota, t, p, events[j])
        invariant forall j, k :: 0 <= j < k < i ==> events[j].seqNo != events[k].seqNo
        invariant forall n :: n in sequences <==> exists j :: 0 <= j < i && events[j].seqNo == n
      {
        var e := events[i];
        assert events[..i + 1][..i] == events[..i];
        if !ValidCopy(quota, t, p, e) || e.seqNo in sequences {
          return false, bytes;
        }
        sequences := sequences + {e.seqNo};
        bytes := bytes + Size(e.content);
        i := i + 1;
      }
      assert events[..i] == events;
      ok := true;
    }

    method ValidateProject(t: Id, c: ProjectCopy) returns (ok: bool, bytes: nat)
      ensures ok <==> ValidProject(quota, t, c)
      ensures ok ==> bytes == CopySize(c.events)
    {
      if c.tenant != t || c.project == "" || |c.events| > quota.events {
        return false, 0;
      }
      ok, bytes := ValidateEvents(t, c.project, c.events);
    }

    method Validate(b: Backup) returns (ok: bool)
      ensures ok <==> ValidBackup(quota, b)
    {
      if b.tenant == "" || |b.projects| > quota.projects {
        return false;
      }
      var ids: set<Id> := {};
      var tenantBytes := 0;
      var i := 0;
      while i < |b.projects|
        invariant 0 <= i <= |b.projects| && tenantBytes == BackupSize(b.projects[..i])
        invariant forall j :: 0 <= j < i ==> ValidProject(quota, b.tenant, b.projects[j])
        invariant forall j, k :: 0 <= j < k < i ==> b.projects[j].project != b.projects[k].project
        invariant forall p :: p in ids <==> exists j :: 0 <= j < i && b.projects[j].project == p
      {
        var c := b.projects[i];
        assert b.projects[..i + 1][..i] == b.projects[..i];
        var valid, bytes := ValidateProject(b.tenant, c);
        if !valid || c.project in ids {
          return false;
        }
        ids := ids + {c.project};
        tenantBytes := tenantBytes + bytes;
        i := i + 1;
      }
      assert b.projects[..i] == b.projects;
      ok := tenantBytes <= quota.tenantBytes;
    }

    method InsertEvents(events: seq<EventCopy>)
      modifies this`rows
      ensures rows == InsertCopies(old(rows), events)
    {
      var k := 0;
      while k < |events|
        invariant 0 <= k <= |events| && rows == InsertCopies(old(rows), events[..k])
      {
        assert events[..k + 1][..k] == events[..k];
        rows := Insert(rows, RowOf(events[k]));
        k := k + 1;
      }
      assert events[..k] == events;
    }

    /** The insert loops of a restore. */
    method InsertAll(t: Id, copies: seq<ProjectCopy>)
      modifies this`projects, this`rows
      ensures View() == InsertProjects(old(View()), t, copies)
    {
      var i := 0;
      while i < |copies|
        invariant 0 <= i <= |copies|
        invariant View() == InsertProjects(old(View()), t, copies[..i])
      {
        assert copies[..i + 1][..i] == copies[..i];
        projects := projects + {(t, copies[i].project)};
        InsertEvents(copies[i].events);
        i := i + 1;
      }
      assert copies[..i] == copies;
    }

    method RestoreTenant(b: Backup) returns (failed: Option<Error>)
      modifies this
      ensures View() == OrSame(old(View()), Restore(quota, old(View()), b))
      ensures failed == if Restore(quota, old(View()), b).Ok? then None else Some(Restore(quota, old(View()), b).error)
    {
      var ok := Validate(b);
      if !ok {
        return Some(BadBackup);
      }
      if b.tenant in tenants {
        return Some(Integrity);
      }
      tenants := tenants + {b.tenant};
      InsertAll(b.tenant, b.projects);
      failed := None;
    }
  }
}