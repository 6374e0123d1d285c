/** Exporting a project and importing it elsewhere (`TransferRepository`), and what every
    run of the evidence store's writers keeps. */
module Transfer {
  import opened Wrappers
  import opened EvidenceStore

  /** The records of an export by type, each in its order. An event whose number is 0 has
      none. */
  datatype Bundle = Bundle(
    project: Id,
    scopes: seq<(Id, Scope)>,
    sessions: seq<(Id, Session)>,
    events: seq<(Id, Event)>,
    memories: seq<(Id, Memory)>,
    sources: seq<((Id, Id), string)>,
    edges: seq<((Id, Id, Relation), Edge)>,
    receipts: seq<(Stream, Receipt)>)

  // ---------------------------------------------------------------------
  // Inserting rows
  // ---------------------------------------------------------------------

  /** Insert rows one by one; a repeated key fails. */
  function InsertAll<K, V>(table: map<K, V>, rows: seq<(K, V)>): Option<map<K, V>>
    decreases |rows|
  {
    if rows == [] then Some(table)
    else if rows[0].0 in table then None
    else InsertAll(table[rows[0].0 := rows[0].1], rows[1..])
  }

  predicate DistinctKeys<K(==), V>(rows: seq<(K, V)>) {
    forall i, j :: 0 <= i < j < |rows| ==> rows[i].0 != rows[j].0
  }

  predicate NewKeys<K, V>(table: map<K, V>, rows: seq<(K, V)>) {
    forall i :: 0 <= i < |rows| ==> rows[i].0 !in table
  }

  /** The result holds exactly the old rows and the inserted ones. */
  ghost predicate Extends<K(!new), V>(table: map<K, V>, rows: seq<(K, V)>, after: map<K, V>) {
    && (forall k :: k in table ==> k in after && after[k] == table[k])
    && (forall i :: 0 <= i < |rows| ==> rows[i].0 in after && after[rows[i].0] == rows[i].1)
    && (forall k :: k in after && k !in table ==> exists i :: 0 <= i < |rows| && rows[i].0 == k)
  }

  lemma {:induction false} InsertAllExact<K(!new), V>(table: map<K, V>, rows: seq<(K, V)>)
    ensures InsertAll(table, rows).Some? <==> DistinctKeys(rows) && NewKeys(table, rows)
    ensures InsertAll(table, rows).Some? ==> Extends(table, rows, InsertAll(table, rows).value)
    decreases |rows|
  {
    if rows != [] && rows[0].0 !in table {
      var next, rest := table[rows[0].0 := rows[0].1], rows[1..];
      InsertAllExact(next, rest);
      if DistinctKeys(rows) && NewKeys(table, rows) {
        assert forall i :: 0 <= i < |rest| ==> rest[i] == rows[i + 1];
      }
      if InsertAll(next, rest).Some? {
        var after := InsertAll(next, rest).value;
        forall i | 0 <= i < |rows|
          ensures rows[i].0 in after && after[rows[i].0] == rows[i].1 && rows[i].0 !in table
        {
          if i > 0 {
            assert rows[i] == rest[i - 1];
          }
        }
        forall i, j | 0 <= i < j < |rows| ensures rows[i].0 != rows[j].0 {
          assert rows[j] == rest[j - 1];
          if i > 0 {
            assert rows[i] == rest[i - 1];
          }
        }
        forall k | k in after && k !in table ensures exists i :: 0 <= i < |rows| && rows[i].0 == k {
          if k != rows[0].0 {
            var i :| 0 <= i < |rest| && rest[i].0 == k;
            assert rows[i + 1].0 == k;
          }
        }
      }
    }
  }

  // ---------------------------------------------------------------------
  // Import
  // ---------------------------------------------------------------------

  /** An event without a number gets its position among the imported events. */
  function WithNumbers(rows: seq<(Id, Event)>): seq<(Id, Event)> {
    seq(|rows|, i requires 0 <= i < |rows| =>
      (rows[i].0, if rows[i].1.seqNo == 0 then rows[i].1.(seqNo := i + 1) else rows[i].1))
  }

  function PastAll<V>(nextId: Id, rows: seq<(Id, V)>): Id
    decreases |rows|
  {
    if rows == [] then nextId else PastAll(Past(nextId, rows[0].0), rows[1..])
  }

  /** An identifier above every one in use. */
  function NextId(s: Store, b: Bundle): Id {
    PastAll(PastAll(PastAll(PastAll(Past(s.nextId, b.project), b.scopes), b.sessions), b.events), b.memories)
  }

  /** Unique keys and checks, enforced as rows are inserted. */
  predicate Constraints(s: Store) {
    && Numbered(s.events) && ScopesDistinct(s.scopes) && SessionsDistinct(s.sessions)
    && forall k :: k in s.receipts ==> 0 <= s.receipts[k].acknowledged <= s.receipts[k].delivered
  }

  /** Foreign keys, checked at commit: to projects, memories and events, ... */
  predicate RowsRefer(s: Store) {
    && (forall x :: x in s.scopes ==> s.scopes[x].project in s.nextSeq)
    && (forall x :: x in s.sessions ==> s.sessions[x].project in s.nextSeq)
    && (forall e :: e in s.events ==> s.events[e].project in s.nextSeq)
    && (forall m :: m in s.memories ==> s.memories[m].project in s.nextSeq)
    && (forall k :: k in s.sources ==> k.0 in s.memories && k.1 in s.events)
    && (forall k :: k in s.edges ==> k.0 in s.memories && k.1 in s.memories && s.edges[k].project in s.nextSeq)
    && (forall k :: k in s.receipts ==> k.project in s.nextSeq)
  }

  /** ... and to scopes and sessions. */
  predicate ContextsRefer(s: Store) {
    EventsKnown(s.scopes, s.sessions, s.events) && MemoriesKnown(s.scopes, s.memories) && SessionsKnown(s.scopes, s.sessions)
  }

  /** `validate_imported_active_sources`: it looks at the header's project only. */
  predicate InvalidLinks(s: Store, p: Id) {
    exists k :: k in s.sources && k.0 in s.memories && s.memories[k.0].project == p && !EventOf(s, p, k.1)
  }

  predicate MissingSources(s: Store, p: Id) {
    exists m :: m in s.memories && s.memories[m].project == p && s.memories[m].status == Active && !HasSource(s, m, p)
  }

  /** The tables after all inserts and the cursor reset. */
  function Loaded(s: Store, b: Bundle): Option<Store> {
    var scopes, sessions := InsertAll(s.scopes, b.scopes), InsertAll(s.sessions, b.sessions);
    var events, memories := InsertAll(s.events, WithNumbers(b.events)), InsertAll(s.memories, b.memories);
    var sources, edges := InsertAll(s.sources, b.sources), InsertAll(s.edges, b.edges);
    var receipts := InsertAll(s.receipts, b.receipts);
    if scopes.None? || sessions.None? || events.None? || memories.None? || sources.None? || edges.None? || receipts.None? then None
    else Some(Store(s.nextSeq[b.project := |b.events| + 1], scopes.value, sessions.value, events.value, memories.value,
      sources.value, edges.value, receipts.value, NextId(s, b)))
  }

  /** What is wrong with the loaded tables: unique keys and checks fail on insertion,
      foreign keys at commit. */
  function ImportProblem(t: Store, p: Id): Option<Error> {
    if !Constraints(t) then Some(Integrity)
    else if InvalidLinks(t, p) then Some(InvalidSource)
    else if MissingSources(t, p) then Some(NoSource)
    else if !RowsRefer(t) || !ContextsRefer(t) then Some(Integrity)
    else None
  }

  /** `import_project` without the legacy option: one transaction. */
  function Import(s: Store, b: Bundle): Result<Store, Error> {
    if b.project in s.nextSeq then Err(InvalidExport)
    else
      var loaded := Loaded(s, b);
      if loaded.None? then Err(Integrity)
      else
        var problem := ImportProblem(loaded.value, b.project);
        if problem.Some? then Err(problem.value) else Ok(loaded.value)
  }

  /** What the inserts and the cursor reset did. */
  ghost predicate LoadedAs(s: Store, b: Bundle, t: Store) {
    && t.nextSeq == s.nextSeq[b.project := |b.events| + 1]
    && t.nextId == NextId(s, b)
    && NewKeys(s.events, b.events) && NewKeys(s.memories, b.memories)
    && DistinctKeys(b.events) && DistinctKeys(b.memories)
    && Extends(s.scopes, b.scopes, t.scopes)
    && Extends(s.sessions, b.sessions, t.sessions)
    && Extends(s.events, WithNumbers(b.events), t.events)
    && Extends(s.memories, b.memories, t.memories)
    && Extends(s.sources, b.sources, t.sources)
    && Extends(s.edges, b.edges, t.edges)
    && Extends(s.receipts, b.receipts, t.receipts)
  }

  lemma {:induction false} LoadedExtends(s: Store, b: Bundle, t: Store)
    requires Loaded(s, b) == Some(t)
    ensures LoadedAs(s, b, t)
  {
    InsertAllExact(s.scopes, b.scopes);
    InsertAllExact(s.sessions, b.sessions);
    InsertAllExact(s.events, WithNumbers(b.events));
    NumberedKeys(s.events, b.events);
    InsertAllExact(s.memories, b.memories);
    InsertAllExact(s.sources, b.sources);
    InsertAllExact(s.edges, b.edges);
    InsertAllExact(s.receipts, b.receipts);
  }

  lemma {:induction false} NumberedKeys(table: map<Id, Event>, rows: seq<(Id, Event)>)
    ensures NewKeys(table, WithNumbers(rows)) <==> NewKeys(table, rows)
    ensures DistinctKeys(WithNumbers(rows)) <==> DistinctKeys(rows)
  {
    assert forall i :: 0 <= i < |rows| ==> WithNumbers(rows)[i].0 == rows[i].0;
  }

  /** What a committed import did, in one place. */
  ghost predicate Brought(s: Store, b: Bundle, t: Store) {
    && LoadedAs(s, b, t) && Constraints(t) && RowsRefer(t) && ContextsRefer(t)
    && !InvalidLinks(t, b.project) && !MissingSources(t, b.project)
  }

  lemma {:induction false} ImportChecks(s: Store, b: Bundle, t: Store)
    requires Import(s, b) == Ok(t)
    ensures b.project !in s.nextSeq && Loaded(s, b) == Some(t) && Constraints(t) && RowsRefer(t) && ContextsRefer(t)
    ensures !InvalidLinks(t, b.project) && !MissingSources(t, b.project)
  {
  }

  lemma {:induction false} ImportBrings(s: Store, b: Bundle, t: Store)
    requires Import(s, b) == Ok(t)
    ensures b.project !in s.nextSeq && Brought(s, b, t)
  {
    ImportChecks(s, b, t);
    LoadedExtends(s, b, t);
  }

  // ---------------------------------------------------------------------
  // What an import keeps, read off the store and the bundle before the call
  // ---------------------------------------------------------------------

  /** The memory, in the store or among the records, belongs to project q. */
  ghost predicate MemoryIn(s: Store, b: Bundle, m: Id, q: Id) {
    || (m in s.memories && s.memories[m].project == q)
    || exists i :: 0 <= i < |b.memories| && b.memories[i].0 == m && b.memories[i].1.project == q
  }

  ghost predicate EventIn(s: Store, b: Bundle, e: Id, q: Id) {
    || (e in s.events && s.events[e].project == q)
    || exists i :: 0 <= i < |b.events| && b.events[i].0 == e && b.events[i].1.project == q
  }

  lemma {:induction false} MemoryLoaded(s: Store, b: Bundle, t: Store, m: Id, q: Id)
    requires Extends(s.memories, b.memories, t.memories)
    ensures MemoryIn(s, b, m, q) <==> m in t.memories && t.memories[m].project == q
  {
    if m in t.memories && m !in s.memories {
      var i :| 0 <= i < |b.memories| && b.memories[i].0 == m;
      assert t.memories[b.memories[i].0] == b.memories[i].1;
    }
  }

  lemma {:induction false} EventLoaded(s: Store, b: Bundle, t: Store, e: Id, q: Id)
    requires Extends(s.events, WithNumbers(b.events), t.events)
    ensures EventIn(s, b, e, q) <==> EventOf(t, q, e)
  {
    var rows := WithNumbers(b.events);
    assert forall i :: 0 <= i < |rows| ==> rows[i].0 == b.events[i].0 && rows[i].1.project == b.events[i].1.project;
    if e in t.events && e !in s.events {
      var i :| 0 <= i < |rows| && rows[i].0 == e;
      assert t.events[rows[i].0] == rows[i].1;
    }
    if exists i :: 0 <= i < |b.events| && b.events[i].0 == e && b.events[i].1.project == q {
      var i :| 0 <= i < |b.events| && b.events[i].0 == e && b.events[i].1.project == q;
      assert t.events[rows[i].0] == rows[i].1;
    }
  }

  /** The record of an active memory of some other project comes with a source record to an
      event of that project. */
  ghost predicate ComesSourced(s: Store, b: Bundle, i: nat)
    requires i < |b.memories|
  {
    exists j :: 0 <= j < |b.sources| && b.sources[j].0.0 == b.memories[i].0 &&
      EventIn(s, b, b.sources[j].0.1, b.memories[i].1.project)
  }

  ghost predicate ForeignSourced(s: Store, b: Bundle) {
    forall i :: 0 <= i < |b.memories| && b.memories[i].1.project != b.project && b.memories[i].1.status == Active ==>
      ComesSourced(s, b, i)
  }

  lemma {:induction false} RecordSourced(s: Store, b: Bundle, t: Store, i: nat)
    requires Extends(s.memories, b.memories, t.memories) && Extends(s.events, WithNumbers(b.events), t.events)
    requires Extends(s.sources, b.sources, t.sources)
    requires i < |b.memories| && ComesSourced(s, b, i)
    ensures b.memories[i].0 in t.memories && Sourced(t, b.memories[i].0)
  {
    var m, q := b.memories[i].0, b.memories[i].1.project;
    assert t.memories[b.memories[i].0] == b.memories[i].1;
    var j :| 0 <= j < |b.sources| && b.sources[j].0.0 == m && EventIn(s, b, b.sources[j].0.1, q);
    EventLoaded(s, b, t, b.sources[j].0.1, q);
    assert b.sources[j].0 in t.sources && b.sources[j].0 == (m, b.sources[j].0.1);
  }

  lemma {:induction false} SourcedRecord(s: Store, b: Bundle, t: Store, i: nat)
    requires Local(s) && NewKeys(s.memories, b.memories)
    requires Extends(s.memories, b.memories, t.memories) && Extends(s.events, WithNumbers(b.events), t.events)
    requires Extends(s.sources, b.sources, t.sources)
    requires i < |b.memories| && b.memories[i].0 in t.memories && Sourced(t, b.memories[i].0)
    ensures ComesSourced(s, b, i)
  {
    var m, q := b.memories[i].0, b.memories[i].1.project;
    assert t.memories[b.memories[i].0] == b.memories[i].1;
    var e :| (m, e) in t.sources && e in t.events && t.events[e].project == q;
    assert (m, e) in s.sources ==> LocalSource(s, (m, e));
    var j :| 0 <= j < |b.sources| && b.sources[j].0 == (m, e);
    EventLoaded(s, b, t, e, q);
  }

  /** Strict import is exact for the header's project and blind to every other: the store
      keeps "active implies a same-project source" if and only if each active memory record
      of some other project comes with such a source. */
  lemma {:induction false} ImportProvenance(s: Store, b: Bundle, t: Store)
    requires Local(s) && Provenance(s) && Import(s, b) == Ok(t)
    ensures Provenance(t) <==> ForeignSourced(s, b)
  {
    ImportBrings(s, b, t);
    BroughtProvenance(s, b, t);
  }

  lemma {:induction false} BroughtProvenance(s: Store, b: Bundle, t: Store)
    requires Local(s) && Provenance(s) && Brought(s, b, t)
    ensures Provenance(t) <==> ForeignSourced(s, b)
  {
    if Provenance(t) {
      forall i | 0 <= i < |b.memories| && b.memories[i].1.project != b.project && b.memories[i].1.status == Active
        ensures ComesSourced(s, b, i)
      {
        assert t.memories[b.memories[i].0] == b.memories[i].1;
        SourcedRecord(s, b, t, i);
      }
    }
    if ForeignSourced(s, b) {
      forall m | m in t.memories && t.memories[m].status == Active ensures Sourced(t, m) {
        ActiveSourcedAfter(s, b, t, m);
      }
    }
  }

  lemma {:induction false} StaysSourced(s: Store, b: Bundle, t: Store, m: Id)
    requires Extends(s.memories, b.memories, t.memories) && Extends(s.events, WithNumbers(b.events), t.events)
    requires Extends(s.sources, b.sources, t.sources)
    requires m in s.memories && Sourced(s, m)
    ensures m in t.memories && Sourced(t, m)
  {
    var e :| (m, e) in s.sources && e in s.events && s.events[e].project == s.memories[m].project;
    assert (m, e) in t.sources && e in t.events;
  }

  lemma {:induction false} HeaderSourced(t: Store, p: Id, m: Id)
    requires !MissingSources(t, p) && m in t.memories && t.memories[m].project == p && t.memories[m].status == Active
    ensures Sourced(t, m)
  {
    assert HasSource(t, m, p);
    var k :| k in t.sources && k.0 == m && EventOf(t, p, k.1);
    assert (m, k.1) == k;
  }

  lemma {:induction false} ActiveSourcedAfter(s: Store, b: Bundle, t: Store, m: Id)
    requires Provenance(s) && ForeignSourced(s, b) && !MissingSources(t, b.project)
    requires Extends(s.memories, b.memories, t.memories) && Extends(s.events, WithNumbers(b.events), t.events)
    requires Extends(s.sources, b.sources, t.sources)
    requires m in t.memories && t.memories[m].status == Active
    ensures Sourced(t, m)
  {
    if m in s.memories {
      StaysSourced(s, b, t, m);
      return;
    }
    if t.memories[m].project == b.project {
      HeaderSourced(t, b.project, m);
      return;
    }
    var i :| 0 <= i < |b.memories| && b.memories[i].0 == m;
    assert t.memories[b.memories[i].0] == b.memories[i].1;
    RecordSourced(s, b, t, i);
  }

  /** Source and edge records join rows of one project. */
  ghost predicate SourceStays(s: Store, b: Bundle, j: nat)
    requires j < |b.sources|
  {
    exists q :: MemoryIn(s, b, b.sources[j].0.0, q) && EventIn(s, b, b.sources[j].0.1, q)
  }

  ghost predicate EdgeStays(s: Store, b: Bundle, j: nat)
    requires j < |b.edges|
  {
    MemoryIn(s, b, b.edges[j].0.0, b.edges[j].1.project) && MemoryIn(s, b, b.edges[j].0.1, b.edges[j].1.project)
  }

  ghost predicate LinksStay(s: Store, b: Bundle) {
    && (forall j :: 0 <= j < |b.sources| ==> SourceStays(s, b, j))
    && (forall j :: 0 <= j < |b.edges| ==> EdgeStays(s, b, j))
  }

  lemma {:induction false} SourceRecordLocal(s: Store, b: Bundle, t: Store, j: nat)
    requires LoadedAs(s, b, t) && j < |b.sources|
    ensures SourceStays(s, b, j) <==> LocalSource(t, b.sources[j].0)
  {
    var k := b.sources[j].0;
    if SourceStays(s, b, j) {
      var q :| MemoryIn(s, b, k.0, q) && EventIn(s, b, k.1, q);
      MemoryLoaded(s, b, t, k.0, q);
      EventLoaded(s, b, t, k.1, q);
    }
    if LocalSource(t, k) {
      MemoryLoaded(s, b, t, k.0, t.memories[k.0].project);
      EventLoaded(s, b, t, k.1, t.memories[k.0].project);
    }
  }

  lemma {:induction false} EdgeRecordLocal(s: Store, b: Bundle, t: Store, j: nat)
    requires LoadedAs(s, b, t) && j < |b.edges|
    ensures b.edges[j].0 in t.edges && (EdgeStays(s, b, j) <==> LocalEdge(t, b.edges[j].0))
  {
    var k, q := b.edges[j].0, b.edges[j].1.project;
    assert t.edges[b.edges[j].0] == b.edges[j].1;
    MemoryLoaded(s, b, t, k.0, q);
    MemoryLoaded(s, b, t, k.1, q);
  }

  lemma {:induction false} ImportLocal(s: Store, b: Bundle, t: Store)
    requires Local(s) && LoadedAs(s, b, t)
    ensures Local(t) <==> LinksStay(s, b)
  {
    if Local(t) {
      forall j | 0 <= j < |b.sources| ensures SourceStays(s, b, j) {
        SourceRecordLocal(s, b, t, j);
        assert b.sources[j].0 in t.sources;
      }
      forall j | 0 <= j < |b.edges| ensures EdgeStays(s, b, j) {
        EdgeRecordLocal(s, b, t, j);
      }
    }
    if LinksStay(s, b) {
      forall k | k in t.sources ensures LocalSource(t, k) {
        SourceLocalAfter(s, b, t, k);
      }
      forall k | k in t.edges ensures LocalEdge(t, k) {
        EdgeLocalAfter(s, b, t, k);
      }
    }
  }

  lemma {:induction false} SourceLocalAfter(s: Store, b: Bundle, t: Store, k: (Id, Id))
    requires Local(s) && LoadedAs(s, b, t) && LinksStay(s, b) && k in t.sources
    ensures LocalSource(t, k)
  {
    if k in s.sources {
      assert LocalSource(s, k);
      return;
    }
    var j :| 0 <= j < |b.sources| && b.sources[j].0 == k;
    SourceRecordLocal(s, b, t, j);
  }

  lemma {:induction false} EdgeLocalAfter(s: Store, b: Bundle, t: Store, k: (Id, Id, Relation))
    requires Local(s) && LoadedAs(s, b, t) && LinksStay(s, b) && k in t.edges
    ensures LocalEdge(t, k)
  {
    if k in s.edges {
      assert LocalEdge(s, k);
      return;
    }
    var j :| 0 <= j < |b.edges| && b.edges[j].0 == k;
    EdgeRecordLocal(s, b, t, j);
  }

  /** The event records belong to the header's project, and none has a number below zero or
      above their count. */
  predicate NumbersInOrder(b: Bundle) {
    forall i :: 0 <= i < |b.events| ==> b.events[i].1.project == b.project && 0 <= b.events[i].1.seqNo <= |b.events|
  }

  /** Distinct numbers in 1 .. n are at most n, so n of them are all. */
  lemma {:induction false} DistinctAtMost(a: seq<int>, n: nat)
    requires forall x, y :: 0 <= x < y < |a| ==> a[x] != a[y]
    requires forall x :: 0 <= x < |a| ==> 1 <= a[x] <= n
    ensures |a| <= n
    decreases n
  {
    if a == [] {
      return;
    }
    assert 1 <= a[0] <= n;
    if n in a {
      var j :| 0 <= j < |a| && a[j] == n;
      DistinctAtMost(a[..j] + a[j + 1..], n - 1);
    } else {
      DistinctAtMost(a, n - 1);
    }
  }

  lemma {:induction false} DistinctCover(a: seq<int>, v: nat)
    requires forall x, y :: 0 <= x < y < |a| ==> a[x] != a[y]
    requires forall x :: 0 <= x < |a| ==> 1 <= a[x] <= |a|
    requires 1 <= v <= |a|
    ensures v in a
  {
    if v !in a {
      var lowered := seq(|a|, i requires 0 <= i < |a| => if a[i] > v then a[i] - 1 else a[i]);
      DistinctAtMost(lowered, |a| - 1);
    }
  }

  lemma {:induction false} BroughtNumbers(s: Store, b: Bundle, t: Store, v: nat)
    requires LoadedAs(s, b, t) && Numbered(t.events) && NumbersInOrder(b) && 1 <= v <= |b.events|
    ensures HasEvent(t.events, b.project, v)
  {
    var rows := WithNumbers(b.events);
    var a := seq(|rows|, i requires 0 <= i < |rows| => rows[i].1.seqNo);
    forall x, y | 0 <= x < y < |a| ensures a[x] != a[y] {
      assert t.events[rows[x].0] == rows[x].1 && t.events[rows[y].0] == rows[y].1;
      assert b.events[x].0 != b.events[y].0;
    }
    DistinctCover(a, v);
    var i :| 0 <= i < |a| && a[i] == v;
    assert t.events[rows[i].0] == rows[i].1;
  }

  lemma {:induction false} OrderedGapFree(s: Store, b: Bundle, t: Store)
    requires GapFree(s.nextSeq, s.events) && b.project !in s.nextSeq
    requires LoadedAs(s, b, t) && Numbered(t.events) && NumbersInOrder(b)
    ensures GapFree(t.nextSeq, t.events)
  {
    var rows := WithNumbers(b.events);
    forall e | e in t.events ensures t.events[e].project in t.nextSeq && 1 <= t.events[e].seqNo < t.nextSeq[t.events[e].project] {
      if e !in s.events {
        var i :| 0 <= i < |rows| && rows[i].0 == e;
        assert t.events[rows[i].0] == rows[i].1;
      }
    }
    forall p, n | p in t.nextSeq && 1 <= n < t.nextSeq[p] ensures HasEvent(t.events, p, n) {
      if p == b.project {
        BroughtNumbers(s, b, t, n);
      } else {
        assert HasEvent(s.events, p, n);
        var e :| e in s.events && s.events[e].project == p && s.events[e].seqNo == n;
        assert e in t.events;
      }
    }
  }

  lemma {:induction false} ForeignEventClashes(s: Store, b: Bundle, t: Store, i: nat)
    requires GapFree(s.nextSeq, s.events) && LoadedAs(s, b, t) && i < |b.events|
    requires InRange(t.nextSeq, t.events) && b.events[i].1.project != b.project
    ensures !Numbered(t.events)
  {
    var rows := WithNumbers(b.events);
    var e, q, n := rows[i].0, rows[i].1.project, rows[i].1.seqNo;
    assert t.events[rows[i].0] == rows[i].1;
    assert HasEvent(s.events, q, n);
    var d :| d in s.events && s.events[d].project == q && s.events[d].seqNo == n;
    assert d in t.events && t.events[d] == s.events[d];
    assert b.events[i].0 == e && d != e;
  }

  lemma {:induction false} GapFreeOrdered(s: Store, b: Bundle, t: Store, i: nat)
    requires GapFree(s.nextSeq, s.events) && GapFree(t.nextSeq, t.events) && LoadedAs(s, b, t) && i < |b.events|
    ensures b.events[i].1.project == b.project && 0 <= b.events[i].1.seqNo <= |b.events|
  {
    var rows := WithNumbers(b.events);
    assert t.events[rows[i].0] == rows[i].1;
    if b.events[i].1.project != b.project {
      ForeignEventClashes(s, b, t, i);
    }
  }

  /** The count-based cursor reset is right, for every project, if and only if the event
      records are the header's own and numbered up to their count. */
  lemma {:induction false} ImportGapFree(s: Store, b: Bundle, t: Store)
    requires GapFree(s.nextSeq, s.events) && b.project !in s.nextSeq && LoadedAs(s, b, t) && Numbered(t.events)
    ensures GapFree(t.nextSeq, t.events) <==> NumbersInOrder(b)
  {
    if NumbersInOrder(b) {
      OrderedGapFree(s, b, t);
    }
    if GapFree(t.nextSeq, t.events) {
      forall i | 0 <= i < |b.events| ensures b.events[i].1.project == b.project && 0 <= b.events[i].1.seqNo <= |b.events| {
        GapFreeOrdered(s, b, t, i);
      }
    }
  }

  lemma {:induction false} PastAllCovers<V>(nextId: Id, rows: seq<(Id, V)>)
    ensures PastAll(nextId, rows) >= nextId
    ensures forall i :: 0 <= i < |rows| ==> rows[i].0 < PastAll(nextId, rows)
    decreases |rows|
  {
    if rows != [] {
      PastAllCovers(Past(nextId, rows[0].0), rows[1..]);
      forall i | 0 <= i < |rows| ensures rows[i].0 < PastAll(nextId, rows) {
        if i > 0 {
          assert rows[i] == rows[1..][i - 1];
        }
      }
    }
  }

  ghost predicate Below<V>(rows: seq<(Id, V)>, nextId: Id) {
    forall i :: 0 <= i < |rows| ==> rows[i].0 < nextId
  }

  lemma {:induction false} NextIdCovers(s: Store, b: Bundle)
    ensures NextId(s, b) >= s.nextId && NextId(s, b) > b.project
    ensures Below(b.scopes, NextId(s, b)) && Below(b.sessions, NextId(s, b))
    ensures Below(b.events, NextId(s, b)) && Below(b.memories, NextId(s, b))
  {
    var afterScopes := PastAll(Past(s.nextId, b.project), b.scopes);
    var afterSessions := PastAll(afterScopes, b.sessions);
    PastAllCovers(Past(s.nextId, b.project), b.scopes);
    PastAllCovers(afterScopes, b.sessions);
    PastAllCovers(afterSessions, b.events);
    PastAllCovers(PastAll(afterSessions, b.events), b.memories);
  }

  lemma {:induction false} KeysBelow<V>(table: map<Id, V>, rows: seq<(Id, V)>, after: map<Id, V>, nextId: Id)
    requires Extends(table, rows, after) && Below(rows, nextId) && forall k :: k in table ==> k < nextId
    ensures forall k :: k in after ==> k < nextId
  {
  }

  lemma {:induction false} ImportIssued(s: Store, b: Bundle, t: Store)
    requires Issued(s) && LoadedAs(s, b, t) && RowsRefer(t)
    ensures Issued(t)
  {
    NextIdCovers(s, b);
    KeysBelow(s.scopes, b.scopes, t.scopes, t.nextId);
    KeysBelow(s.sessions, b.sessions, t.sessions, t.nextId);
    assert Below(WithNumbers(b.events), t.nextId);
    KeysBelow(s.events, WithNumbers(b.events), t.events, t.nextId);
    KeysBelow(s.memories, b.memories, t.memories, t.nextId);
  }

  /** What a strict import asks of a bundle, and what it leaves to the bundle's author: the
      store obeys all its rules afterwards if and only if the event numbers are in order,
      the links stay in their projects, and foreign active memories come sourced. */
  lemma {:induction false} ImportKeeps(s: Store, b: Bundle, t: Store)
    requires Inv(s) && Import(s, b) == Ok(t)
    ensures Inv(t) <==> NumbersInOrder(b) && LinksStay(s, b) && ForeignSourced(s, b)
  {
    ImportBrings(s, b, t);
    BroughtKeeps(s, b, t);
  }

  lemma {:induction false} BroughtKeeps(s: Store, b: Bundle, t: Store)
    requires Inv(s) && b.project !in s.nextSeq && Brought(s, b, t)
    ensures Inv(t) <==> NumbersInOrder(b) && LinksStay(s, b) && ForeignSourced(s, b)
  {
    Rules(s);
    Rules(t);
    ImportIssued(s, b, t);
    ImportGapFree(s, b, t);
    ImportLocal(s, b, t);
    BroughtProvenance(s, b, t);
    assert Known(t);
  }

  /** A bundle for a new project with nothing but an active memory of another project. */
  function LoneMemory(header: Id, m: Id, p: Id, body: string): Bundle {
    Bundle(header, [], [], [], [(m, Memory(p, Active, None, body))], [], [], [])
  }

  lemma {:induction false} LoneMemoryLoads(s: Store, m: Id, p: Id, header: Id, body: string, t: Store)
    requires m !in s.memories
    requires t == s.(nextSeq := s.nextSeq[header := 1], memories := s.memories[m := Memory(p, Active, None, body)],
      nextId := NextId(s, LoneMemory(header, m, p, body)))
    ensures Loaded(s, LoneMemory(header, m, p, body)) == Some(t)
  {
    var b := LoneMemory(header, m, p, body);
    assert WithNumbers(b.events) == [];
    assert b.memories[0].0 == m && b.memories[1..] == [];
    assert InsertAll(s.memories, b.memories) == InsertAll(t.memories, b.memories[1..]) == Some(t.memories);
    assert s.nextSeq[header := |b.events| + 1] == t.nextSeq;
  }

  lemma {:induction false} LoneMemoryRefers(s: Store, m: Id, p: Id, header: Id, body: string, t: Store)
    requires Inv(s) && p in s.nextSeq && header !in s.nextSeq && m !in s.memories
    requires t == s.(nextSeq := s.nextSeq[header := 1], memories := s.memories[m := Memory(p, Active, None, body)], nextId := t.nextId)
    ensures RowsRefer(t) && ContextsRefer(t) && Constraints(t) && !InvalidLinks(t, header) && !MissingSources(t, header)
  {
    Rules(s);
    forall k | k in t.sources ensures k.0 in t.memories && k.1 in t.events {
      assert LocalSource(s, k);
    }
    forall k | k in t.edges ensures k.0 in t.memories && k.1 in t.memories && t.edges[k].project in t.nextSeq {
      assert LocalEdge(s, k);
    }
  }

  /** So a bundle can bring in an active memory of an existing project without evidence. */
  lemma {:induction false} ForeignMemoryBreaksProvenance(s: Store, m: Id, p: Id, header: Id, body: string)
    requires Inv(s) && p in s.nextSeq && header !in s.nextSeq && m !in s.memories
    ensures Import(s, LoneMemory(header, m, p, body)).Ok?
    ensures !Provenance(Import(s, LoneMemory(header, m, p, body)).value)
  {
    Rules(s);
    var b := LoneMemory(header, m, p, body);
    var t := s.(nextSeq := s.nextSeq[header := 1], memories := s.memories[m := Memory(p, Active, None, body)], nextId := NextId(s, b));
    LoneMemoryLoads(s, m, p, header, body, t);
    LoneMemoryRefers(s, m, p, header, body, t);
    assert !ComesSourced(s, b, 0);
    ImportProvenance(s, b, t);
  }

  /** A bundle for a new project with nothing but one event under this number. */
  function LoneEvent(header: Id, e: Id, n: int, body: string): Bundle {
    Bundle(header, [], [], [(e, Event(header, n, Context(None, None), body))], [], [], [], [])
  }

  lemma {:induction false} LoneEventLoads(s: Store, header: Id, e: Id, n: int, body: string, t: Store)
    requires e !in s.events && n != 0
    requires t == s.(nextSeq := s.nextSeq[header := 2], events := s.events[e := Event(header, n, Context(None, None), body)],
      nextId := NextId(s, LoneEvent(header, e, n, body)))
    ensures Loaded(s, LoneEvent(header, e, n, body)) == Some(t)
  {
    var b := LoneEvent(header, e, n, body);
    var rows := WithNumbers(b.events);
    assert rows == b.events && rows[1..] == [] && rows[0].0 == e;
    assert InsertAll(s.events, rows) == InsertAll(t.events, rows[1..]) == Some(t.events);
    assert s.nextSeq[header := |b.events| + 1] == t.nextSeq;
  }

  /** The tables with one more project and one event of it. */
  ghost predicate OneMoreEvent(s: Store, header: Id, e: Id, row: Event, t: Store) {
    && header !in s.nextSeq && e !in s.events && row.project == header && row.context == Context(None, None)
    && t == s.(nextSeq := s.nextSeq[header := 2], events := s.events[e := row], nextId := t.nextId)
  }

  lemma {:induction false} LoneEventRefers(s: Store, header: Id, e: Id, row: Event, t: Store)
    requires Inv(s) && OneMoreEvent(s, header, e, row, t)
    ensures RowsRefer(t)
  {
    Rules(s);
    forall k | k in t.sources ensures k.0 in t.memories && k.1 in t.events {
      assert LocalSource(s, k);
    }
    forall k | k in t.edges ensures k.0 in t.memories && k.1 in t.memories && t.edges[k].project in t.nextSeq {
      assert LocalEdge(s, k);
    }
  }

  lemma {:induction false} LoneEventChecked(s: Store, header: Id, e: Id, row: Event, t: Store)
    requires Inv(s) && OneMoreEvent(s, header, e, row, t)
    ensures ContextsRefer(t) && Constraints(t)
  {
    Rules(s);
  }

  lemma {:induction false} LoneEventSourced(s: Store, header: Id, e: Id, row: Event, t: Store)
    requires Inv(s) && OneMoreEvent(s, header, e, row, t)
    ensures !InvalidLinks(t, header) && !MissingSources(t, header)
  {
    Rules(s);
  }

  /** A negative number is kept as it comes, and the cursor set by counting: the project is
      not numbered up to its cursor, and no cursor ever reaches back to the event. */
  lemma {:induction false} NegativeNumberImports(s: Store, header: Id, e: Id, n: int, body: string)
    requires Inv(s) && header !in s.nextSeq && e !in s.events && n < 0
    ensures Import(s, LoneEvent(header, e, n, body)).Ok?
    ensures var t := Import(s, LoneEvent(header, e, n, body)).value;
      && t.nextSeq[header] == 2 && !HasEvent(t.events, header, 1) && !GapFree(t.nextSeq, t.events)
      && e in t.events && t.events[e].seqNo < 0
  {
    Rules(s);
    var b, row := LoneEvent(header, e, n, body), Event(header, n, Context(None, None), body);
    var t := s.(nextSeq := s.nextSeq[header := 2], events := s.events[e := row], nextId := NextId(s, b));
    LoneEventLoads(s, header, e, n, body, t);
    LoneEventRefers(s, header, e, row, t);
    LoneEventChecked(s, header, e, row, t);
    LoneEventSourced(s, header, e, row, t);
    assert forall d :: d in t.events && t.events[d].project == header ==> d == e;
  }

  // ---------------------------------------------------------------------
  // References to scopes and sessions
  // ---------------------------------------------------------------------

  /** The reference is answered by the store or by a record. */
  predicate Answers<V>(table: map<Id, V>, rows: seq<(Id, V)>, reference: Option<Id>) {
    reference.None? || reference.value in table || exists j :: 0 <= j < |rows| && rows[j].0 == reference.value
  }

  /** Every scope and session that the records name is in the store or among them. */
  ghost predicate Answered(s: Store, b: Bundle) {
    && (forall i :: 0 <= i < |b.events| ==>
          Answers(s.scopes, b.scopes, b.events[i].1.context.scope) && Answers(s.sessions, b.sessions, b.events[i].1.context.session))
    && (forall i :: 0 <= i < |b.memories| ==> Answers(s.scopes, b.scopes, b.memories[i].1.scope))
    && (forall i :: 0 <= i < |b.sessions| ==> Answers(s.scopes, b.scopes, b.sessions[i].1.scope))
  }

  lemma {:induction false} AnswersRefers<V>(table: map<Id, V>, rows: seq<(Id, V)>, after: map<Id, V>, reference: Option<Id>)
    requires Extends(table, rows, after)
    ensures Answers(table, rows, reference) <==> Refers(after, reference)
  {
    if reference.Some? && reference.value in after && reference.value !in table {
      var i :| 0 <= i < |rows| && rows[i].0 == reference.value;
    }
  }

  lemma {:induction false} EventAnswered(s: Store, b: Bundle, t: Store, i: nat)
    requires LoadedAs(s, b, t) && i < |b.events|
    ensures var e, c := b.events[i].0, b.events[i].1.context;
      && e in t.events && t.events[e].context == c
      && (Answers(s.scopes, b.scopes, c.scope) <==> Refers(t.scopes, c.scope))
      && (Answers(s.sessions, b.sessions, c.session) <==> Refers(t.sessions, c.session))
  {
    var rows := WithNumbers(b.events);
    assert t.events[rows[i].0] == rows[i].1 && rows[i].0 == b.events[i].0;
    AnswersRefers(s.scopes, b.scopes, t.scopes, b.events[i].1.context.scope);
    AnswersRefers(s.sessions, b.sessions, t.sessions, b.events[i].1.context.session);
  }

  lemma {:induction false} EventsAnswered(s: Store, b: Bundle, t: Store)
    requires EventsKnown(s.scopes, s.sessions, s.events) && LoadedAs(s, b, t)
    ensures EventsKnown(t.scopes, t.sessions, t.events) <==>
      forall i :: 0 <= i < |b.events| ==>
        Answers(s.scopes, b.scopes, b.events[i].1.context.scope) && Answers(s.sessions, b.sessions, b.events[i].1.context.session)
  {
    if EventsKnown(t.scopes, t.sessions, t.events) {
      forall i | 0 <= i < |b.events|
        ensures Answers(s.scopes, b.scopes, b.events[i].1.context.scope) && Answers(s.sessions, b.sessions, b.events[i].1.context.session)
      {
        EventAnswered(s, b, t, i);
      }
    }
    if forall i :: 0 <= i < |b.events| ==>
      Answers(s.scopes, b.scopes, b.events[i].1.context.scope) && Answers(s.sessions, b.sessions, b.events[i].1.context.session)
    {
      forall e | e in t.events && e !in s.events
        ensures Refers(t.scopes, t.events[e].context.scope) && Refers(t.sessions, t.events[e].context.session)
      {
        var i :| 0 <= i < |WithNumbers(b.events)| && WithNumbers(b.events)[i].0 == e;
        EventAnswered(s, b, t, i);
      }
    }
  }

  lemma {:induction false} MemoriesAnswered(s: Store, b: Bundle, t: Store)
    requires MemoriesKnown(s.scopes, s.memories) && LoadedAs(s, b, t)
    ensures MemoriesKnown(t.scopes, t.memories) <==>
      forall i :: 0 <= i < |b.memories| ==> Answers(s.scopes, b.scopes, b.memories[i].1.scope)
  {
    forall i | 0 <= i < |b.memories|
      ensures t.memories[b.memories[i].0] == b.memories[i].1
      ensures Answers(s.scopes, b.scopes, b.memories[i].1.scope) <==> Refers(t.scopes, b.memories[i].1.scope)
    {
      AnswersRefers(s.scopes, b.scopes, t.scopes, b.memories[i].1.scope);
    }
  }

  lemma {:induction false} SessionsAnswered(s: Store, b: Bundle, t: Store)
    requires SessionsKnown(s.scopes, s.sessions) && LoadedAs(s, b, t)
    ensures SessionsKnown(t.scopes, t.sessions) <==>
      forall i :: 0 <= i < |b.sessions| ==> Answers(s.scopes, b.scopes, b.sessions[i].1.scope)
  {
    forall i | 0 <= i < |b.sessions|
      ensures t.sessions[b.sessions[i].0] == b.sessions[i].1
      ensures Answers(s.scopes, b.scopes, b.sessions[i].1.scope) <==> Refers(t.scopes, b.sessions[i].1.scope)
    {
      AnswersRefers(s.scopes, b.scopes, t.scopes, b.sessions[i].1.scope);
    }
  }

  /** The foreign keys to scopes and sessions hold after the inserts if and only if every
      record's references are answered. */
  lemma {:induction false} ContextsExact(s: Store, b: Bundle, t: Store)
    requires ContextsRefer(s) && LoadedAs(s, b, t)
    ensures ContextsRefer(t) <==> Answered(s, b)
  {
    EventsAnswered(s, b, t);
    MemoriesAnswered(s, b, t);
    SessionsAnswered(s, b, t);
  }

  // ---------------------------------------------------------------------
  // Export
  // ---------------------------------------------------------------------

  /** The rows list exactly the wanted part of a table, each row once. */
  ghost predicate Lists<K(!new), V>(rows: seq<(K, V)>, table: map<K, V>, wanted: set<K>) {
    && DistinctKeys(rows)
    && (forall i :: 0 <= i < |rows| ==> rows[i].0 in wanted && rows[i].0 in table && table[rows[i].0] == rows[i].1)
    && (forall k :: k in wanted ==> exists i :: 0 <= i < |rows| && rows[i].0 == k)
  }

  function ScopesOf(s: Store, p: Id): set<Id> {
    set x | x in s.scopes && s.scopes[x].project == p
  }

  function SessionsOf(s: Store, p: Id): set<Id> {
    set x | x in s.sessions && s.sessions[x].project == p
  }

  function EventsOf(s: Store, p: Id): set<Id> {
    set e | e in s.events && s.events[e].project == p
  }

  function MemoriesOf(s: Store, p: Id): set<Id> {
    set m | m in s.memories && s.memories[m].project == p
  }

  function SourcesOf(s: Store, p: Id): set<(Id, Id)> {
    set k | k in s.sources && k.0 in s.memories && s.memories[k.0].project == p
  }

  function EdgesOf(s: Store, p: Id): set<(Id, Id, Relation)> {
    set k | k in s.edges && s.edges[k].project == p
  }

  function ReceiptsOf(s: Store, p: Id): set<Stream> {
    set k | k in s.receipts && k.project == p
  }

  /** `export_project`: each query's rows; events are ordered by their number. */
  ghost predicate IsExport(s: Store, p: Id, b: Bundle) {
    && b.project == p && p in s.nextSeq
    && Lists(b.scopes, s.scopes, ScopesOf(s, p))
    && Lists(b.sessions, s.sessions, SessionsOf(s, p))
    && Lists(b.events, s.events, EventsOf(s, p))
    && (forall i, j :: 0 <= i < j < |b.events| ==> b.events[i].1.seqNo < b.events[j].1.seqNo)
    && Lists(b.memories, s.memories, MemoriesOf(s, p))
    && Lists(b.sources, s.sources, SourcesOf(s, p))
    && Lists(b.edges, s.edges, EdgesOf(s, p))
    && Lists(b.receipts, s.receipts, ReceiptsOf(s, p))
  }

  /** Increasing numbers that are exactly 1 .. n are 1, 2, ... n. */
  lemma {:induction false} IncreasingCounts(a: seq<int>, n: nat, i: nat)
    requires forall x, y :: 0 <= x < y < |a| ==> a[x] < a[y]
    requires forall x :: 0 <= x < |a| ==> 1 <= a[x] <= n
    requires forall v :: 1 <= v <= n ==> v in a
    requires i <= n && i <= |a|
    ensures forall x :: 0 <= x < i ==> a[x] == x + 1
    decreases i
  {
    if i > 0 {
      IncreasingCounts(a, n, i - 1);
      assert i in a;
      assert forall x :: 0 <= x < i - 1 ==> a[x] != i;
      var j :| 0 <= j < |a| && a[j] == i;
      assert i >= 2 ==> a[i - 2] < a[i - 1];
    }
  }

  lemma {:induction false} IncreasingAbove(a: seq<int>, i: nat)
    requires forall x, y :: 0 <= x < y < |a| ==> a[x] < a[y]
    requires forall x :: 0 <= x < |a| ==> 1 <= a[x]
    requires i < |a|
    ensures a[i] >= i + 1
  {
    if i > 0 {
      IncreasingAbove(a, i - 1);
    }
  }

  lemma {:induction false} IncreasingLength(a: seq<int>, n: nat)
    requires forall x, y :: 0 <= x < y < |a| ==> a[x] < a[y]
    requires forall x :: 0 <= x < |a| ==> 1 <= a[x] <= n
    requires forall v :: 1 <= v <= n ==> v in a
    ensures |a| == n && forall x :: 0 <= x < n ==> a[x] == x + 1
  {
    if a != [] {
      IncreasingAbove(a, |a| - 1);
    }
    assert |a| <= n;
    IncreasingCounts(a, n, |a|);
    assert |a| < n ==> |a| + 1 in a;
  }

  /** The events of an export are numbered by their position, up to the cursor. */
  lemma {:induction false} ExportNumbers(s: Store, p: Id, b: Bundle)
    requires GapFree(s.nextSeq, s.events) && IsExport(s, p, b)
    ensures |b.events| + 1 == s.nextSeq[p]
    ensures forall i :: 0 <= i < |b.events| ==> b.events[i].1.seqNo == i + 1
  {
    var n := s.nextSeq[p] - 1;
    var a := seq(|b.events|, i requires 0 <= i < |b.events| => b.events[i].1.seqNo);
    forall v | 1 <= v <= n ensures v in a {
      assert HasEvent(s.events, p, v);
      var e :| e in s.events && s.events[e].project == p && s.events[e].seqNo == v;
      assert e in EventsOf(s, p);
      var i :| 0 <= i < |b.events| && b.events[i].0 == e;
      assert a[i] == v;
    }
    forall x | 0 <= x < |a| ensures 1 <= a[x] <= n {
      assert b.events[x].0 in EventsOf(s, p);
    }
    IncreasingLength(a, n);
    forall i | 0 <= i < |b.events| ensures b.events[i].1.seqNo == i + 1 {
      assert a[i] == i + 1;
    }
  }

  /** Numbers in order, links among the project's own records, no foreign memory: an export
      is a bundle that an import keeps the rules with, whatever the store. */
  lemma {:induction false} ExportInOrder(s: Store, p: Id, b: Bundle, target: Store)
    requires Inv(s) && IsExport(s, p, b)
    ensures NumbersInOrder(b) && WithNumbers(b.events) == b.events && LinksStay(target, b) && ForeignSourced(target, b)
  {
    Rules(s);
    ExportNumbers(s, p, b);
    forall i | 0 <= i < |b.events| ensures b.events[i].1.project == p {
      assert b.events[i].0 in EventsOf(s, p);
    }
    forall i | 0 <= i < |b.memories| ensures b.memories[i].1.project == p {
      assert b.memories[i].0 in MemoriesOf(s, p);
    }
    forall j | 0 <= j < |b.sources| ensures SourceStays(target, b, j) {
      ExportedSourceStays(s, p, b, target, j);
    }
    forall j | 0 <= j < |b.edges| ensures EdgeStays(target, b, j) {
      ExportedEdgeStays(s, p, b, target, j);
    }
  }

  lemma {:induction false} ExportedMemoryIn(s: Store, p: Id, b: Bundle, target: Store, m: Id)
    requires IsExport(s, p, b) && m in MemoriesOf(s, p)
    ensures MemoryIn(target, b, m, p) && exists i :: 0 <= i < |b.memories| && b.memories[i].0 == m
  {
    var i :| 0 <= i < |b.memories| && b.memories[i].0 == m;
  }

  lemma {:induction false} ExportedSourceStays(s: Store, p: Id, b: Bundle, target: Store, j: nat)
    requires Local(s) && IsExport(s, p, b) && j < |b.sources|
    ensures SourceStays(target, b, j)
  {
    var k := b.sources[j].0;
    assert k in SourcesOf(s, p) && LocalSource(s, k);
    ExportedMemoryIn(s, p, b, target, k.0);
    assert k.1 in EventsOf(s, p);
    var i :| 0 <= i < |b.events| && b.events[i].0 == k.1;
    assert EventIn(target, b, k.1, p);
  }

  lemma {:induction false} ExportedEdgeStays(s: Store, p: Id, b: Bundle, target: Store, j: nat)
    requires Local(s) && IsExport(s, p, b) && j < |b.edges|
    ensures EdgeStays(target, b, j)
  {
    var k := b.edges[j].0;
    assert k in EdgesOf(s, p) && LocalEdge(s, k);
    ExportedMemoryIn(s, p, b, target, k.0);
    ExportedMemoryIn(s, p, b, target, k.1);
  }

  /** The target store has none of the bundle's ids. */
  ghost predicate Fresh(t: Store, b: Bundle) {
    && b.project !in t.nextSeq
    && NewKeys(t.scopes, b.scopes) && NewKeys(t.sessions, b.sessions)
    && NewKeys(t.events, b.events) && NewKeys(t.memories, b.memories)
  }

  lemma {:induction false} ExportKeysNew(s: Store, p: Id, b: Bundle, target: Store)
    requires Inv(s) && IsExport(s, p, b) && Inv(target) && Fresh(target, b)
    ensures NewKeys(target.sources, b.sources) && NewKeys(target.edges, b.edges) && NewKeys(target.receipts, b.receipts)
  {
    Rules(s);
    Rules(target);
    forall j | 0 <= j < |b.sources| ensures b.sources[j].0 !in target.sources {
      var k := b.sources[j].0;
      assert k in SourcesOf(s, p);
      ExportedMemoryIn(s, p, b, target, k.0);
      assert k in target.sources ==> LocalSource(target, k);
    }
    forall j | 0 <= j < |b.edges| ensures b.edges[j].0 !in target.edges {
      var k := b.edges[j].0;
      assert k in EdgesOf(s, p) && LocalEdge(s, k);
      ExportedMemoryIn(s, p, b, target, k.0);
      assert k in target.edges ==> LocalEdge(target, k);
    }
    forall j | 0 <= j < |b.receipts| ensures b.receipts[j].0 !in target.receipts {
      assert b.receipts[j].0 in ReceiptsOf(s, p);
    }
  }

  lemma {:induction false} ExportLoads(s: Store, p: Id, b: Bundle, target: Store)
    requires Inv(s) && IsExport(s, p, b) && Inv(target) && Fresh(target, b)
    ensures Loaded(target, b).Some?
  {
    ExportInOrder(s, p, b, target);
    ExportKeysNew(s, p, b, target);
    InsertAllExact(target.scopes, b.scopes);
    InsertAllExact(target.sessions, b.sessions);
    InsertAllExact(target.events, b.events);
    InsertAllExact(target.memories, b.memories);
    InsertAllExact(target.sources, b.sources);
    InsertAllExact(target.edges, b.edges);
    InsertAllExact(target.receipts, b.receipts);
  }

  /** The same rows in both tables. */
  ghost predicate Same<K(!new), V>(here: set<K>, table: map<K, V>, there: set<K>, after: map<K, V>) {
    there == here && forall k :: k in here ==> k in table && k in after && after[k] == table[k]
  }

  /** The project's rows in both stores. */
  ghost predicate SameRows(s: Store, p: Id, t: Store) {
    && Same(ScopesOf(s, p), s.scopes, ScopesOf(t, p), t.scopes)
    && Same(SessionsOf(s, p), s.sessions, SessionsOf(t, p), t.sessions)
    && Same(EventsOf(s, p), s.events, EventsOf(t, p), t.events)
    && Same(MemoriesOf(s, p), s.memories, MemoriesOf(t, p), t.memories)
    && Same(SourcesOf(s, p), s.sources, SourcesOf(t, p), t.sources)
    && Same(EdgesOf(s, p), s.edges, EdgesOf(t, p), t.edges)
    && Same(ReceiptsOf(s, p), s.receipts, ReceiptsOf(t, p), t.receipts)
  }

  /** Loading a listing into a table without such rows gives exactly the listed rows. */
  lemma {:induction false} ListedRows<K(!new), V>(rows: seq<(K, V)>, table: map<K, V>, wanted: set<K>, target: map<K, V>, after: map<K, V>, found: set<K>)
    requires Lists(rows, table, wanted) && Extends(target, rows, after)
    requires found <= after.Keys && found !! target.Keys && (forall k :: k in after && k in wanted ==> k in found)
    ensures Same(wanted, table, found, after)
  {
    forall k | k in wanted ensures k in table && k in after && after[k] == table[k] {
      var i :| 0 <= i < |rows| && rows[i].0 == k;
      assert after[rows[i].0] == rows[i].1;
    }
    forall k | k in found ensures k in wanted {
      assert k in after && k !in target;
      var i :| 0 <= i < |rows| && rows[i].0 == k;
    }
  }

  /** A row loaded from a listing. */
  lemma {:induction false} ListedRow<K(!new), V>(rows: seq<(K, V)>, table: map<K, V>, wanted: set<K>, target: map<K, V>, after: map<K, V>, k: K)
    requires Lists(rows, table, wanted) && Extends(target, rows, after)
    ensures k in wanted ==> k in table && k in after && after[k] == table[k]
    ensures k in after && k !in target ==> k in wanted
  {
    if k in wanted {
      var i :| 0 <= i < |rows| && rows[i].0 == k;
      assert after[rows[i].0] == rows[i].1;
    }
  }

  /** An export, loaded into a store that has none of its ids. */
  ghost predicate Landed(s: Store, p: Id, b: Bundle, target: Store, t: Store) {
    Inv(s) && IsExport(s, p, b) && Inv(target) && Fresh(target, b) && LoadedAs(target, b, t)
  }

  lemma {:induction false} LandedScopes(s: Store, p: Id, b: Bundle, target: Store, t: Store)
    requires Landed(s, p, b, target, t)
    ensures Same(ScopesOf(s, p), s.scopes, ScopesOf(t, p), t.scopes)
    ensures Same(SessionsOf(s, p), s.sessions, SessionsOf(t, p), t.sessions)
  {
    Rules(target);
    forall x ensures x in ScopesOf(s, p) ==> x in s.scopes && x in t.scopes && t.scopes[x] == s.scopes[x] {
      ListedRow(b.scopes, s.scopes, ScopesOf(s, p), target.scopes, t.scopes, x);
    }
    forall x ensures x in SessionsOf(s, p) ==> x in s.sessions && x in t.sessions && t.sessions[x] == s.sessions[x] {
      ListedRow(b.sessions, s.sessions, SessionsOf(s, p), target.sessions, t.sessions, x);
    }
    ListedRows(b.scopes, s.scopes, ScopesOf(s, p), target.scopes, t.scopes, ScopesOf(t, p));
    ListedRows(b.sessions, s.sessions, SessionsOf(s, p), target.sessions, t.sessions, SessionsOf(t, p));
  }

  lemma {:induction false} LandedEvents(s: Store, p: Id, b: Bundle, target: Store, t: Store)
    requires Landed(s, p, b, target, t)
    ensures Same(EventsOf(s, p), s.events, EventsOf(t, p), t.events)
    ensures Same(MemoriesOf(s, p), s.memories, MemoriesOf(t, p), t.memories)
  {
    Rules(target);
    ExportInOrder(s, p, b, target);
    forall e ensures e in EventsOf(s, p) ==> e in s.events && e in t.events && t.events[e] == s.events[e] {
      ListedRow(b.events, s.events, EventsOf(s, p), target.events, t.events, e);
    }
    forall m ensures m in MemoriesOf(s, p) ==> m in s.memories && m in t.memories && t.memories[m] == s.memories[m] {
      ListedRow(b.memories, s.memories, MemoriesOf(s, p), target.memories, t.memories, m);
    }
    ListedRows(b.events, s.events, EventsOf(s, p), target.events, t.events, EventsOf(t, p));
    ListedRows(b.memories, s.memories, MemoriesOf(s, p), target.memories, t.memories, MemoriesOf(t, p));
  }

  lemma {:induction false} LandedSources(s: Store, p: Id, b: Bundle, target: Store, t: Store)
    requires Landed(s, p, b, target, t) && Same(MemoriesOf(s, p), s.memories, MemoriesOf(t, p), t.memories)
    ensures Same(SourcesOf(s, p), s.sources, SourcesOf(t, p), t.sources)
  {
    Rules(target);
    assert MemoriesOf(target, p) == {};
    forall k | k in t.sources && k in SourcesOf(s, p) ensures k in SourcesOf(t, p) {
      assert k.0 in MemoriesOf(s, p);
    }
    forall k | k in SourcesOf(t, p) ensures k !in target.sources {
      assert k in target.sources ==> LocalSource(target, k);
      assert k.0 in MemoriesOf(t, p);
    }
    ListedRows(b.sources, s.sources, SourcesOf(s, p), target.sources, t.sources, SourcesOf(t, p));
  }

  lemma {:induction false} LandedEdges(s: Store, p: Id, b: Bundle, target: Store, t: Store)
    requires Landed(s, p, b, target, t)
    ensures Same(EdgesOf(s, p), s.edges, EdgesOf(t, p), t.edges)
    ensures Same(ReceiptsOf(s, p), s.receipts, ReceiptsOf(t, p), t.receipts)
  {
    Rules(target);
    forall k ensures k in EdgesOf(s, p) ==> k in s.edges && k in t.edges && t.edges[k] == s.edges[k] {
      ListedRow(b.edges, s.edges, EdgesOf(s, p), target.edges, t.edges, k);
    }
    forall k | k in EdgesOf(t, p) ensures k !in target.edges {
      assert k in target.edges ==> LocalEdge(target, k);
    }
    ListedRows(b.edges, s.edges, EdgesOf(s, p), target.edges, t.edges, EdgesOf(t, p));
    ListedRows(b.receipts, s.receipts, ReceiptsOf(s, p), target.receipts, t.receipts, ReceiptsOf(t, p));
  }

  lemma {:induction false} LandedSame(s: Store, p: Id, b: Bundle, target: Store, t: Store)
    requires Landed(s, p, b, target, t)
    ensures SameRows(s, p, t)
  {
    LandedScopes(s, p, b, target, t);
    LandedEvents(s, p, b, target, t);
    LandedSources(s, p, b, target, t);
    LandedEdges(s, p, b, target, t);
  }

  /** Rows of other projects are the target's own. */
  lemma {:induction false} LandedOthers(s: Store, p: Id, b: Bundle, target: Store, t: Store)
    requires Landed(s, p, b, target, t)
    ensures forall x :: x in t.scopes && x !in target.scopes ==> x in ScopesOf(s, p)
    ensures forall x :: x in t.sessions && x !in target.sessions ==> x in SessionsOf(s, p)
    ensures forall e :: e in t.events && e !in target.events ==> e in EventsOf(s, p)
    ensures forall m :: m in t.memories && m !in target.memories ==> m in MemoriesOf(s, p)
  {
    ExportInOrder(s, p, b, target);
    forall x | x in t.scopes && x !in target.scopes ensures x in ScopesOf(s, p) {
      ListedRow(b.scopes, s.scopes, ScopesOf(s, p), target.scopes, t.scopes, x);
    }
    forall x | x in t.sessions && x !in target.sessions ensures x in SessionsOf(s, p) {
      ListedRow(b.sessions, s.sessions, SessionsOf(s, p), target.sessions, t.sessions, x);
    }
    forall e | e in t.events && e !in target.events ensures e in EventsOf(s, p) {
      ListedRow(b.events, s.events, EventsOf(s, p), target.events, t.events, e);
    }
    forall m | m in t.memories && m !in target.memories ensures m in MemoriesOf(s, p) {
      ListedRow(b.memories, s.memories, MemoriesOf(s, p), target.memories, t.memories, m);
    }
  }

  lemma {:induction false} LandedNumbered(s: Store, p: Id, b: Bundle, target: Store, t: Store)
    requires Landed(s, p, b, target, t) && SameRows(s, p, t)
    ensures Numbered(t.events)
  {
    Rules(s);
    Rules(target);
    LandedOthers(s, p, b, target, t);
    forall d, e | d in t.events && e in t.events && t.events[d].project == t.events[e].project && t.events[d].seqNo == t.events[e].seqNo
      ensures d == e
    {
      if t.events[d].project == p {
        assert d in EventsOf(t, p) && e in EventsOf(t, p);
      } else {
        assert d !in EventsOf(s, p) && e !in EventsOf(s, p);
      }
    }
  }

  lemma {:induction false} LandedDistinct(s: Store, p: Id, b: Bundle, target: Store, t: Store)
    requires Landed(s, p, b, target, t) && SameRows(s, p, t)
    ensures ScopesDistinct(t.scopes) && SessionsDistinct(t.sessions)
  {
    Rules(s);
    Rules(target);
    LandedOthers(s, p, b, target, t);
    forall x, y | x in t.scopes && y in t.scopes && t.scopes[x] == t.scopes[y] ensures x == y {
      if t.scopes[x].project == p {
        assert x in ScopesOf(t, p) && y in ScopesOf(t, p);
      } else {
        assert x !in ScopesOf(s, p) && y !in ScopesOf(s, p);
      }
    }
    forall x, y | x in t.sessions && y in t.sessions && SameSession(t.sessions[x], t.sessions[y]) ensures x == y {
      if t.sessions[x].project == p {
        assert x in SessionsOf(t, p) && y in SessionsOf(t, p);
      } else {
        assert x !in SessionsOf(s, p) && y !in SessionsOf(s, p);
      }
    }
  }

  lemma {:induction false} LandedReceipt(s: Store, p: Id, b: Bundle, target: Store, t: Store, k: Stream)
    requires Landed(s, p, b, target, t) && k in t.receipts
    ensures k.project in t.nextSeq && 0 <= t.receipts[k].acknowledged <= t.receipts[k].delivered
  {
    Rules(s);
    Rules(target);
    if k !in target.receipts {
      ListedRow(b.receipts, s.receipts, ReceiptsOf(s, p), target.receipts, t.receipts, k);
    }
  }

  lemma {:induction false} LandedConstraints(s: Store, p: Id, b: Bundle, target: Store, t: Store)
    requires Landed(s, p, b, target, t) && SameRows(s, p, t)
    ensures Constraints(t)
  {
    LandedNumbered(s, p, b, target, t);
    LandedDistinct(s, p, b, target, t);
    forall k | k in t.receipts ensures 0 <= t.receipts[k].acknowledged <= t.receipts[k].delivered {
      LandedReceipt(s, p, b, target, t, k);
    }
  }

  lemma {:induction false} ExportValid(s: Store, p: Id, t: Store)
    requires Inv(s) && SameRows(s, p, t)
    ensures !InvalidLinks(t, p) && !MissingSources(t, p)
  {
    Rules(s);
    forall k | k in t.sources && k.0 in t.memories && t.memories[k.0].project == p ensures EventOf(t, p, k.1) {
      assert k in SourcesOf(t, p);
      assert LocalSource(s, k);
      assert k.1 in EventsOf(s, p);
    }
    forall m | m in t.memories && t.memories[m].project == p && t.memories[m].status == Active ensures HasSource(t, m, p) {
      assert m in MemoriesOf(t, p);
      assert Sourced(s, m);
      var e :| (m, e) in s.sources && e in s.events && s.events[e].project == p;
      assert (m, e) in SourcesOf(s, p) && e in EventsOf(s, p);
      assert (m, e) in SourcesOf(t, p) && e in EventsOf(t, p);
      assert (m, e) in t.sources && EventOf(t, p, (m, e).1);
    }
  }

  lemma {:induction false} LandedSourceRefers(s: Store, p: Id, b: Bundle, target: Store, t: Store, k: (Id, Id))
    requires Landed(s, p, b, target, t) && SameRows(s, p, t) && k in t.sources
    ensures k.0 in t.memories && k.1 in t.events
  {
    Rules(s);
    Rules(target);
    if k in target.sources {
      assert LocalSource(target, k);
    } else {
      ListedRow(b.sources, s.sources, SourcesOf(s, p), target.sources, t.sources, k);
      assert LocalSource(s, k);
      assert k.0 in MemoriesOf(s, p) && k.1 in EventsOf(s, p);
    }
  }

  lemma {:induction false} LandedEdgeRefers(s: Store, p: Id, b: Bundle, target: Store, t: Store, k: (Id, Id, Relation))
    requires Landed(s, p, b, target, t) && SameRows(s, p, t) && k in t.edges
    ensures k.0 in t.memories && k.1 in t.memories && t.edges[k].project in t.nextSeq
  {
    Rules(s);
    Rules(target);
    if k in target.edges {
      assert LocalEdge(target, k);
    } else {
      ListedRow(b.edges, s.edges, EdgesOf(s, p), target.edges, t.edges, k);
      assert LocalEdge(s, k);
      assert k.0 in MemoriesOf(s, p) && k.1 in MemoriesOf(s, p);
    }
  }

  lemma {:induction false} LandedContexts(s: Store, p: Id, b: Bundle, target: Store, t: Store)
    requires Landed(s, p, b, target, t)
    ensures forall x :: x in t.scopes ==> t.scopes[x].project in t.nextSeq
    ensures forall x :: x in t.sessions ==> t.sessions[x].project in t.nextSeq
  {
    Rules(target);
    forall x | x in t.scopes && x !in target.scopes ensures t.scopes[x].project == p {
      ListedRow(b.scopes, s.scopes, ScopesOf(s, p), target.scopes, t.scopes, x);
    }
    forall x | x in t.sessions && x !in target.sessions ensures t.sessions[x].project == p {
      ListedRow(b.sessions, s.sessions, SessionsOf(s, p), target.sessions, t.sessions, x);
    }
  }

  lemma {:induction false} LandedEventProjects(s: Store, p: Id, b: Bundle, target: Store, t: Store)
    requires Landed(s, p, b, target, t)
    ensures forall e :: e in t.events ==> t.events[e].project in t.nextSeq
  {
    Rules(target);
    ExportInOrder(s, p, b, target);
    forall e | e in t.events && e !in target.events ensures t.events[e].project == p {
      ListedRow(b.events, s.events, EventsOf(s, p), target.events, t.events, e);
    }
  }

  lemma {:induction false} LandedMemoryProjects(s: Store, p: Id, b: Bundle, target: Store, t: Store)
    requires Landed(s, p, b, target, t)
    ensures forall m :: m in t.memories ==> t.memories[m].project in t.nextSeq
  {
    Rules(target);
    forall m | m in t.memories && m !in target.memories ensures t.memories[m].project == p {
      ListedRow(b.memories, s.memories, MemoriesOf(s, p), target.memories, t.memories, m);
    }
  }

  lemma {:induction false} LandedRefers(s: Store, p: Id, b: Bundle, target: Store, t: Store)
    requires Landed(s, p, b, target, t) && SameRows(s, p, t)
    ensures RowsRefer(t)
  {
    LandedContexts(s, p, b, target, t);
    LandedEventProjects(s, p, b, target, t);
    LandedMemoryProjects(s, p, b, target, t);
    forall k | k in t.sources ensures k.0 in t.memories && k.1 in t.events {
      LandedSourceRefers(s, p, b, target, t, k);
    }
    forall k | k in t.edges ensures k.0 in t.memories && k.1 in t.memories && t.edges[k].project in t.nextSeq {
      LandedEdgeRefers(s, p, b, target, t, k);
    }
    forall k | k in t.receipts ensures k.project in t.nextSeq {
      LandedReceipt(s, p, b, target, t, k);
    }
  }

  lemma {:induction false} SameLists<K(!new), V>(rows: seq<(K, V)>, table: map<K, V>, here: set<K>, after: map<K, V>, there: set<K>)
    requires Lists(rows, table, here) && Same(here, table, there, after)
    ensures Lists(rows, after, there)
  {
  }

  lemma {:induction false} SameRowsSameExport(s: Store, p: Id, b: Bundle, t: Store)
    requires IsExport(s, p, b) && SameRows(s, p, t) && p in t.nextSeq
    ensures IsExport(t, p, b)
  {
    SameLists(b.scopes, s.scopes, ScopesOf(s, p), t.scopes, ScopesOf(t, p));
    SameLists(b.sessions, s.sessions, SessionsOf(s, p), t.sessions, SessionsOf(t, p));
    SameLists(b.events, s.events, EventsOf(s, p), t.events, EventsOf(t, p));
    SameLists(b.memories, s.memories, MemoriesOf(s, p), t.memories, MemoriesOf(t, p));
    SameLists(b.sources, s.sources, SourcesOf(s, p), t.sources, SourcesOf(t, p));
    SameLists(b.edges, s.edges, EdgesOf(s, p), t.edges, EdgesOf(t, p));
    SameLists(b.receipts, s.receipts, ReceiptsOf(s, p), t.receipts, ReceiptsOf(t, p));
  }

  /** The imported project is the exported one. */
  ghost predicate Restored(s: Store, p: Id, b: Bundle, t: Store) {
    && SameRows(s, p, t) && IsExport(t, p, b)
    && p in s.nextSeq && t.nextSeq[p] == s.nextSeq[p]
  }

  lemma {:induction false} LandedRestored(s: Store, p: Id, b: Bundle, target: Store, t: Store)
    requires Landed(s, p, b, target, t) && SameRows(s, p, t)
    ensures Restored(s, p, b, t)
  {
    Rules(s);
    ExportNumbers(s, p, b);
    SameRowsSameExport(s, p, b, t);
  }

  /** Round trip: a store with every rule exports a bundle that a store without those ids
      imports if and only if the scopes and sessions it names are answered there or in the
      bundle. The imported project then has the same rows and cursor, so it exports the same
      bundle again, and the store obeys every rule. */
  lemma {:induction false} ExportImportExport(s: Store, p: Id, b: Bundle, target: Store)
    requires Inv(s) && IsExport(s, p, b) && Inv(target) && Fresh(target, b)
    ensures Import(target, b).Ok? <==> Answered(target, b)
    ensures Import(target, b).Err? ==> Import(target, b).error == Integrity
    ensures Import(target, b).Ok? ==> Inv(Import(target, b).value) && Restored(s, p, b, Import(target, b).value)
  {
    ExportLoads(s, p, b, target);
    var t := Loaded(target, b).value;
    LoadedExtends(target, b, t);
    ExportOutcome(s, p, b, target, t);
    LandedValid(s, p, b, target, t);
    if Answered(target, b) {
      LandedKeeps(s, p, b, target, t);
    }
  }

  lemma {:induction false} ExportOutcome(s: Store, p: Id, b: Bundle, target: Store, t: Store)
    requires Landed(s, p, b, target, t) && Loaded(target, b) == Some(t)
    ensures Import(target, b) == if Answered(target, b) then Ok(t) else Err(Integrity)
  {
    LandedValid(s, p, b, target, t);
    LandedAnswered(s, p, b, target, t);
  }

  lemma {:induction false} LandedKeeps(s: Store, p: Id, b: Bundle, target: Store, t: Store)
    requires Landed(s, p, b, target, t) && Answered(target, b)
    ensures Inv(t)
  {
    LandedValid(s, p, b, target, t);
    LandedAnswered(s, p, b, target, t);
    ExportInOrder(s, p, b, target);
    BroughtKeeps(target, b, t);
  }

  lemma {:induction false} LandedValid(s: Store, p: Id, b: Bundle, target: Store, t: Store)
    requires Landed(s, p, b, target, t)
    ensures Constraints(t) && RowsRefer(t) && !InvalidLinks(t, p) && !MissingSources(t, p) && Restored(s, p, b, t)
  {
    LandedSame(s, p, b, target, t);
    LandedConstraints(s, p, b, target, t);
    LandedRefers(s, p, b, target, t);
    LandedRestored(s, p, b, target, t);
    ExportValid(s, p, t);
  }

  lemma {:induction false} LandedAnswered(s: Store, p: Id, b: Bundle, target: Store, t: Store)
    requires Landed(s, p, b, target, t)
    ensures ContextsRefer(t) <==> Answered(target, b)
  {
    Rules(target);
    ContextsExact(target, b, t);
  }

  // ---------------------------------------------------------------------
  // Which projects can be exported
  // ---------------------------------------------------------------------

  predicate OwnScope(s: Store, p: Id, reference: Option<Id>) {
    reference.None? || (reference.value in s.scopes && s.scopes[reference.value].project == p)
  }

  predicate OwnSession(s: Store, p: Id, reference: Option<Id>) {
    reference.None? || (reference.value in s.sessions && s.sessions[reference.value].project == p)
  }

  /** Every scope and session that the project's rows name belongs to the project. */
  ghost predicate Contained(s: Store, p: Id) {
    && (forall e :: e in EventsOf(s, p) ==> OwnScope(s, p, s.events[e].context.scope) && OwnSession(s, p, s.events[e].context.session))
    && (forall m :: m in MemoriesOf(s, p) ==> OwnScope(s, p, s.memories[m].scope))
    && (forall x :: x in SessionsOf(s, p) ==> OwnScope(s, p, s.sessions[x].scope))
  }

  /** The target has no scope or session of the store's other projects either. */
  ghost predicate Apart(s: Store, p: Id, target: Store) {
    && (forall x :: x in s.scopes && s.scopes[x].project != p ==> x !in target.scopes)
    && (forall x :: x in s.sessions && s.sessions[x].project != p ==> x !in target.sessions)
  }

  lemma {:induction false} AnsweredScope(s: Store, p: Id, b: Bundle, target: Store, reference: Option<Id>)
    requires IsExport(s, p, b) && Apart(s, p, target) && Fresh(target, b) && Refers(s.scopes, reference)
    ensures Answers(target.scopes, b.scopes, reference) <==> OwnScope(s, p, reference)
  {
    if OwnScope(s, p, reference) && reference.Some? {
      assert reference.value in ScopesOf(s, p);
    }
  }

  lemma {:induction false} AnsweredSession(s: Store, p: Id, b: Bundle, target: Store, reference: Option<Id>)
    requires IsExport(s, p, b) && Apart(s, p, target) && Fresh(target, b) && Refers(s.sessions, reference)
    ensures Answers(target.sessions, b.sessions, reference) <==> OwnSession(s, p, reference)
  {
    if OwnSession(s, p, reference) && reference.Some? {
      assert reference.value in SessionsOf(s, p);
    }
  }

  /** What an event, memory or session row asks of the bundle is what it asks of the store. */
  lemma {:induction false} RowsAnswered(s: Store, p: Id, b: Bundle, target: Store)
    requires Inv(s) && IsExport(s, p, b) && Apart(s, p, target) && Fresh(target, b)
    ensures forall e :: e in EventsOf(s, p) ==>
      (Answers(target.scopes, b.scopes, s.events[e].context.scope) <==> OwnScope(s, p, s.events[e].context.scope))
    ensures forall e :: e in EventsOf(s, p) ==>
      (Answers(target.sessions, b.sessions, s.events[e].context.session) <==> OwnSession(s, p, s.events[e].context.session))
    ensures forall m :: m in MemoriesOf(s, p) ==>
      (Answers(target.scopes, b.scopes, s.memories[m].scope) <==> OwnScope(s, p, s.memories[m].scope))
    ensures forall x :: x in SessionsOf(s, p) ==>
      (Answers(target.scopes, b.scopes, s.sessions[x].scope) <==> OwnScope(s, p, s.sessions[x].scope))
  {
    Rules(s);
    forall e | e in EventsOf(s, p)
      ensures Answers(target.scopes, b.scopes, s.events[e].context.scope) <==> OwnScope(s, p, s.events[e].context.scope)
      ensures Answers(target.sessions, b.sessions, s.events[e].context.session) <==> OwnSession(s, p, s.events[e].context.session)
    {
      AnsweredScope(s, p, b, target, s.events[e].context.scope);
      AnsweredSession(s, p, b, target, s.events[e].context.session);
    }
    forall m | m in MemoriesOf(s, p)
      ensures Answers(target.scopes, b.scopes, s.memories[m].scope) <==> OwnScope(s, p, s.memories[m].scope)
    {
      AnsweredScope(s, p, b, target, s.memories[m].scope);
    }
    forall x | x in SessionsOf(s, p)
      ensures Answers(target.scopes, b.scopes, s.sessions[x].scope) <==> OwnScope(s, p, s.sessions[x].scope)
    {
      AnsweredScope(s, p, b, target, s.sessions[x].scope);
    }
  }

  /** An export loads into a store without its ids if and only if every scope and session
      its rows name belongs to the project. */
  lemma {:induction false} ExportLoadsIffContained(s: Store, p: Id, b: Bundle, target: Store)
    requires Inv(s) && IsExport(s, p, b) && Inv(target) && Fresh(target, b) && Apart(s, p, target)
    ensures Import(target, b).Ok? <==> Contained(s, p)
  {
    ExportImportExport(s, p, b, target);
    RowsAnswered(s, p, b, target);
    if Answered(target, b) {
      AnsweredContained(s, p, b, target);
    }
    if Contained(s, p) {
      ContainedAnswered(s, p, b, target);
    }
  }

  lemma {:induction false} AnsweredContained(s: Store, p: Id, b: Bundle, target: Store)
    requires Inv(s) && IsExport(s, p, b) && Apart(s, p, target) && Fresh(target, b) && Answered(target, b)
    ensures Contained(s, p)
  {
    RowsAnswered(s, p, b, target);
    forall e | e in EventsOf(s, p) ensures OwnScope(s, p, s.events[e].context.scope) && OwnSession(s, p, s.events[e].context.session) {
      var i :| 0 <= i < |b.events| && b.events[i].0 == e;
    }
    forall m | m in MemoriesOf(s, p) ensures OwnScope(s, p, s.memories[m].scope) {
      var i :| 0 <= i < |b.memories| && b.memories[i].0 == m;
    }
    forall x | x in SessionsOf(s, p) ensures OwnScope(s, p, s.sessions[x].scope) {
      var i :| 0 <= i < |b.sessions| && b.sessions[i].0 == x;
    }
  }

  lemma {:induction false} ContainedAnswered(s: Store, p: Id, b: Bundle, target: Store)
    requires Inv(s) && IsExport(s, p, b) && Apart(s, p, target) && Fresh(target, b) && Contained(s, p)
    ensures Answered(target, b)
  {
    RowsAnswered(s, p, b, target);
    assert forall i :: 0 <= i < |b.events| ==> b.events[i].0 in EventsOf(s, p) && s.events[b.events[i].0] == b.events[i].1;
    assert forall i :: 0 <= i < |b.memories| ==> b.memories[i].0 in MemoriesOf(s, p) && s.memories[b.memories[i].0] == b.memories[i].1;
    assert forall i :: 0 <= i < |b.sessions| ==> b.sessions[i].0 in SessionsOf(s, p) && s.sessions[b.sessions[i].0] == b.sessions[i].1;
  }

  // ---------------------------------------------------------------------
  // Where projects stop being exportable
  // ---------------------------------------------------------------------

  /** Recording an event keeps its project exportable if and only if the scope and the
      session it names are the project's own: the check `record_event` does not make. */
  lemma {:induction false} RecordContained(s: Store, p: Id, c: Context, body: string, t: Store)
    requires Issued(s) && Contained(s, p) && RecordEvent(s, p, c, body) == Ok(t)
    ensures Contained(t, p) <==> OwnScope(s, p, c.scope) && OwnSession(s, p, c.session)
  {
    assert s.nextId in EventsOf(t, p) && t.events[s.nextId].context == c;
    assert EventsOf(t, p) == EventsOf(s, p) + {s.nextId};
    assert MemoriesOf(t, p) == MemoriesOf(s, p) && SessionsOf(t, p) == SessionsOf(s, p);
  }

  /** Likewise for a memory, ... */
  lemma {:induction false} UpsertContained(s: Store, given: Option<Id>, row: Memory, submitted: seq<Id>, t: Store, m: Id)
    requires Contained(s, row.project) && Upsert(s, given, row, submitted) == Ok((t, m))
    ensures Contained(t, row.project) <==> OwnScope(s, row.project, row.scope)
  {
    var p := row.project;
    assert m in MemoriesOf(t, p) && t.memories[m] == row;
    assert MemoriesOf(t, p) == MemoriesOf(s, p) + {m};
    assert EventsOf(t, p) == EventsOf(s, p) && SessionsOf(t, p) == SessionsOf(s, p);
  }

  /** ... and for a new session. */
  lemma {:induction false} SessionContained(s: Store, p: Id, scope: Option<Id>, client: string, external: Option<string>, t: Store)
    requires Issued(s) && Contained(s, p) && StartSession(s, p, scope, client, external) == Ok(t) && t != s
    ensures Contained(t, p) <==> OwnScope(s, p, scope)
  {
    assert s.nextId in SessionsOf(t, p) && t.sessions[s.nextId].scope == scope;
    assert SessionsOf(t, p) == SessionsOf(s, p) + {s.nextId};
    assert EventsOf(t, p) == EventsOf(s, p) && MemoriesOf(t, p) == MemoriesOf(s, p);
  }

  /** A final checkpoint makes the check, so it keeps its project exportable. */
  lemma {:induction false} FinalContained(s: Store, f: Final, t: Store)
    requires Issued(s) && Contained(s, f.project) && FinalCheckpoint(s, f) == Ok(t)
    ensures Contained(t, f.project)
  {
    var c := Context(FinalScope(s, f), Some(f.session));
    var s1 := InsertEvent(s, f.project, c, f.body);
    RecordContained(s, f.project, c, f.body, s1);
    var s2 := PublishHandoff(s1, HandoffRow(s, f), [s.nextId] + f.verified, f.previous);
    PublishedRows(s1, HandoffRow(s, f), [s.nextId] + f.verified, f.previous, s2);
    assert EndSession(s2, f.session) == Ok(t);
    HandoffContained(s1, f.project, c.scope, t);
  }

  lemma {:induction false} PublishedRows(s: Store, row: Memory, evidence: seq<Id>, previous: Option<Id>, t: Store)
    requires previous.Some? ==> previous.value in s.memories
    requires t == PublishHandoff(s, row, evidence, previous)
    ensures t.scopes == s.scopes && t.sessions == s.sessions && t.events == s.events
    ensures forall m :: m in t.memories ==>
      t.memories[m].scope == row.scope
      || (m in s.memories && t.memories[m].project == s.memories[m].project && t.memories[m].scope == s.memories[m].scope)
  {
  }

  /** Rows that only add the given scope, or change other columns. */
  lemma {:induction false} HandoffContained(s: Store, p: Id, scope: Option<Id>, t: Store)
    requires Contained(s, p) && OwnScope(s, p, scope) && t.scopes == s.scopes && t.events == s.events
    requires t.sessions.Keys == s.sessions.Keys
    requires forall x :: x in s.sessions ==> t.sessions[x].project == s.sessions[x].project && t.sessions[x].scope == s.sessions[x].scope
    requires forall m :: m in t.memories ==>
      t.memories[m].scope == scope
      || (m in s.memories && t.memories[m].project == s.memories[m].project && t.memories[m].scope == s.memories[m].scope)
    ensures Contained(t, p)
  {
    assert EventsOf(t, p) == EventsOf(s, p) && SessionsOf(t, p) == SessionsOf(s, p);
    forall m | m in MemoriesOf(t, p) ensures OwnScope(t, p, t.memories[m].scope) {
      assert t.memories[m].scope != scope ==> m in MemoriesOf(s, p);
    }
  }
}
