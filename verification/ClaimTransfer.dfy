/** Moving a whole project: its evidence, and the investigations, analyses, claims and links
    that `import_project` inserts and `export_project` lists beside it. */
module ClaimTransfer {
  import opened Wrappers
  import opened EvidenceStore
  import opened Transfer
  import opened Investigation
  import Digraph
  import EvidenceRepository

  datatype Archive = Archive(
    evidence: Bundle,
    cases: seq<(Id, Case)>,
    analyses: seq<(Id, Analysis)>,
    claims: seq<(Id, Claim)>,
    links: seq<Link>)

  // ---------------------------------------------------------------------
  // Import
  // ---------------------------------------------------------------------

  /** Insert links one by one; a repeated one fails. */
  function InsertLinks(links: set<Link>, rows: seq<Link>): Option<set<Link>>
    decreases |rows|
  {
    if rows == [] then Some(links)
    else if rows[0] in links then None
    else InsertLinks(links + {rows[0]}, rows[1..])
  }

  predicate DistinctLinks(rows: seq<Link>) {
    forall i, j :: 0 <= i < j < |rows| ==> rows[i] != rows[j]
  }

  function LinkSet(rows: seq<Link>): set<Link> {
    set k | k in rows
  }

  lemma {:induction false} InsertLinksExact(links: set<Link>, rows: seq<Link>)
    ensures InsertLinks(links, rows).Some? <==> DistinctLinks(rows) && links !! LinkSet(rows)
    ensures InsertLinks(links, rows).Some? ==> InsertLinks(links, rows).value == links + LinkSet(rows)
    decreases |rows|
  {
    if rows != [] && rows[0] !in links {
      var next, rest := links + {rows[0]}, rows[1..];
      InsertLinksExact(next, rest);
      assert rows == [rows[0]] + rest;
      assert LinkSet(rows) == {rows[0]} + LinkSet(rest);
      if DistinctLinks(rows) {
        assert forall i :: 0 <= i < |rest| ==> rest[i] == rows[i + 1];
      }
      if DistinctLinks(rest) && rows[0] !in LinkSet(rest) {
        forall i, j | 0 <= i < j < |rows| ensures rows[i] != rows[j] {
          assert rows[j] == rest[j - 1] && rest[j - 1] in rest;
          assert i > 0 ==> rows[i] == rest[i - 1];
        }
      }
    }
  }

  function ArchiveNextId(nextId: Id, a: Archive): Id {
    PastAll(PastAll(PastAll(nextId, a.cases), a.analyses), a.claims)
  }

  /** The tables after all inserts and the cursor reset. */
  function LoadedArchive(db: Db, a: Archive): Option<Db> {
    var store, cases := Loaded(db.store, a.evidence), InsertAll(db.cases, a.cases);
    var analyses, claims := InsertAll(db.analyses, a.analyses), InsertAll(db.claims, a.claims);
    var links := InsertLinks(db.links, a.links);
    if store.None? || cases.None? || analyses.None? || claims.None? || links.None? then None
    else Some(Db(store.value.(nextId := ArchiveNextId(store.value.nextId, a)), cases.value, analyses.value, claims.value, links.value))
  }

  /** Unique keys, enforced as rows are inserted. */
  predicate ClaimConstraints(t: Db) {
    AnalysesDistinct(t.analyses) && ClaimsDistinct(t.claims)
  }

  predicate CaseRefers(s: Store, c: Case) {
    c.project in s.nextSeq && Refers(s.scopes, c.scope)
  }

  predicate ClaimRefers(t: Db, c: Claim) {
    c.investigation in t.cases && c.analysis in t.analyses && c.event in t.store.events && Refers(t.store.memories, c.memory)
  }

  /** Foreign keys, checked at commit; nothing else about these rows is. */
  predicate ClaimsRefer(t: Db) {
    && (forall i :: i in t.cases ==> CaseRefers(t.store, t.cases[i]))
    && (forall x :: x in t.analyses ==> t.analyses[x].investigation in t.cases)
    && (forall c :: c in t.claims ==> ClaimRefers(t, t.claims[c]))
    && (forall k :: k in t.links ==> k.from in t.claims && k.to in t.claims)
  }

  function ArchiveProblem(t: Db, p: Id): Option<Error> {
    if !ClaimConstraints(t) then Some(Integrity)
    else if ImportProblem(t.store, p).Some? then ImportProblem(t.store, p)
    else if !ClaimsRefer(t) then Some(Integrity)
    else None
  }

  /** `import_project` without the legacy option: one transaction. */
  function ImportArchive(db: Db, a: Archive): Result<Db, Error> {
    if a.evidence.project in db.store.nextSeq then Err(InvalidExport)
    else
      var loaded := LoadedArchive(db, a);
      if loaded.None? then Err(Integrity)
      else
        var problem := ArchiveProblem(loaded.value, a.evidence.project);
        if problem.Some? then Err(problem.value) else Ok(loaded.value)
  }

  /** What the inserts did to the tables of claims. */
  ghost predicate ClaimsLoaded(db: Db, a: Archive, t: Db) {
    && Extends(db.cases, a.cases, t.cases)
    && Extends(db.analyses, a.analyses, t.analyses)
    && Extends(db.claims, a.claims, t.claims) && NewKeys(db.claims, a.claims)
    && t.links == db.links + LinkSet(a.links)
  }

  /** What they did to the evidence. */
  function EvidenceOf(db: Db, a: Archive, t: Db): Store {
    t.store.(nextId := NextId(db.store, a.evidence))
  }

  lemma {:induction false} ArchiveLoads(db: Db, a: Archive, t: Db)
    requires LoadedArchive(db, a) == Some(t)
    ensures Loaded(db.store, a.evidence) == Some(EvidenceOf(db, a, t))
    ensures t.store.nextId == ArchiveNextId(NextId(db.store, a.evidence), a)
    ensures ClaimsLoaded(db, a, t)
  {
    InsertAllExact(db.cases, a.cases);
    InsertAllExact(db.analyses, a.analyses);
    InsertAllExact(db.claims, a.claims);
    InsertLinksExact(db.links, a.links);
  }

  /** Where the next identifier stands is no concern of the checks. */
  lemma {:induction false} ProblemIgnoresIds(s: Store, nextId: Id, p: Id)
    ensures ImportProblem(s.(nextId := nextId), p) == ImportProblem(s, p)
  {
    var t := s.(nextId := nextId);
    assert MissingSources(t, p) == MissingSources(s, p) by {
      assert forall m :: HasSource(t, m, p) == HasSource(s, m, p);
    }
  }

  /** The evidence of a committed archive is that of a committed bundle. */
  lemma {:induction false} ArchiveImports(db: Db, a: Archive, t: Db)
    requires ImportArchive(db, a) == Ok(t)
    ensures Import(db.store, a.evidence) == Ok(EvidenceOf(db, a, t))
    ensures t.store.nextId == ArchiveNextId(NextId(db.store, a.evidence), a)
    ensures ClaimsLoaded(db, a, t) && ClaimConstraints(t) && ClaimsRefer(t)
  {
    ArchiveLoads(db, a, t);
    ProblemIgnoresIds(t.store, NextId(db.store, a.evidence), a.evidence.project);
  }

  ghost predicate ArchiveBelow(a: Archive, nextId: Id) {
    Below(a.cases, nextId) && Below(a.analyses, nextId) && Below(a.claims, nextId)
  }

  lemma {:induction false} ArchiveIds(nextId: Id, a: Archive)
    ensures ArchiveNextId(nextId, a) >= nextId && ArchiveBelow(a, ArchiveNextId(nextId, a))
  {
    PastAllCovers(nextId, a.cases);
    PastAllCovers(PastAll(nextId, a.cases), a.analyses);
    PastAllCovers(PastAll(PastAll(nextId, a.cases), a.analyses), a.claims);
  }

  /** No row is lost, and identifiers stay above those in use. */
  lemma {:induction false} ImportHolds(s: Store, b: Bundle, t: Store)
    requires Issued(s) && Import(s, b) == Ok(t)
    ensures Keeps(s, t) && Issued(t)
  {
    ImportBrings(s, b, t);
    NextIdCovers(s, b);
    ImportIssued(s, b, t);
  }

  lemma {:induction false} ArchiveHolds(db: Db, a: Archive, t: Db)
    requires Issued(db.store) && ImportArchive(db, a) == Ok(t)
    ensures Keeps(db.store, t.store) && Issued(t.store)
  {
    ArchiveImports(db, a, t);
    var evidence := EvidenceOf(db, a, t);
    ImportHolds(db.store, a.evidence, evidence);
    ArchiveIds(evidence.nextId, a);
  }

  // ---------------------------------------------------------------------
  // When an import keeps the claim graph sound
  // ---------------------------------------------------------------------

  /** Row k, in the table or among the records, has the property. */
  ghost predicate Somewhere<K(!new), V>(table: map<K, V>, rows: seq<(K, V)>, k: K, has: V -> bool) {
    (k in table && has(table[k])) || exists j :: 0 <= j < |rows| && rows[j].0 == k && has(rows[j].1)
  }

  lemma {:induction false} SomewhereLoaded<K(!new), V>(table: map<K, V>, rows: seq<(K, V)>, after: map<K, V>, k: K, has: V -> bool)
    requires Extends(table, rows, after)
    ensures Somewhere(table, rows, k, has) <==> k in after && has(after[k])
  {
    if k in after && k !in table {
      var j :| 0 <= j < |rows| && rows[j].0 == k;
      assert after[rows[j].0] == rows[j].1;
    }
    if exists j :: 0 <= j < |rows| && rows[j].0 == k && has(rows[j].1) {
      var j :| 0 <= j < |rows| && rows[j].0 == k && has(rows[j].1);
      assert after[rows[j].0] == rows[j].1;
    }
  }

  /** The record of an investigation names no scope but one of its project. */
  ghost predicate CaseOwn(db: Db, a: Archive, i: nat)
    requires i < |a.cases|
  {
    var c := a.cases[i].1;
    c.scope.None? || Somewhere(db.store.scopes, a.evidence.scopes, c.scope.value, (x: Scope) => x.project == c.project)
  }

  ghost predicate InCase(db: Db, a: Archive, investigation: Id, p: Id) {
    Somewhere(db.cases, a.cases, investigation, (x: Case) => x.project == p)
  }

  ghost predicate ClaimIn(db: Db, a: Archive, c: Id, investigation: Id) {
    Somewhere(db.claims, a.claims, c, (x: Claim) => x.investigation == investigation)
  }

  /** The record of a claim names an analysis of its investigation, and an event and a memory
      of the investigation's project, the one a source of the other. */
  ghost predicate ClaimFits(db: Db, a: Archive, i: nat)
    requires i < |a.claims|
  {
    var c := a.claims[i].1;
    && c.memory.Some?
    && Somewhere(db.analyses, a.analyses, c.analysis, (x: Analysis) => x.investigation == c.investigation)
    && Somewhere(db.store.sources, a.evidence.sources, (c.memory.value, c.event), (note: string) => true)
    && exists p ::
         (InCase(db, a, c.investigation, p)
         && MemoryIn(db.store, a.evidence, c.memory.value, p) && EventIn(db.store, a.evidence, c.event, p))
  }

  /** A claim record that is not evidence comes with a link from a claim it rests on. */
  predicate ClaimBacked(a: Archive, i: nat)
    requires i < |a.claims|
  {
    a.claims[i].1.role == Evidence || exists j :: 0 <= j < |a.links| && a.links[j].to == a.claims[i].0
  }

  /** A link record joins two claims of one investigation. */
  ghost predicate LinkStays(db: Db, a: Archive, j: nat)
    requires j < |a.links|
  {
    exists investigation :: ClaimIn(db, a, a.links[j].from, investigation) && ClaimIn(db, a, a.links[j].to, investigation)
  }

  /** The links, stored and recorded, lead back from the record's second claim to its first. */
  ghost predicate LinkCloses(db: Db, a: Archive, j: nat)
    requires j < |a.links|
  {
    Digraph.Reaches(Arcs(db.links) + Arcs(LinkSet(a.links)), a.links[j].to, a.links[j].from)
  }

  ghost predicate CasesSound(db: Db, a: Archive) {
    forall i :: 0 <= i < |a.cases| ==> CaseOwn(db, a, i)
  }

  ghost predicate ClaimsSound(db: Db, a: Archive) {
    forall i :: 0 <= i < |a.claims| ==> ClaimFits(db, a, i)
  }

  ghost predicate ClaimsBacked(a: Archive) {
    forall i :: 0 <= i < |a.claims| ==> ClaimBacked(a, i)
  }

  ghost predicate RecordsStay(db: Db, a: Archive) {
    forall j :: 0 <= j < |a.links| ==> LinkStays(db, a, j)
  }

  ghost predicate NoneCloses(db: Db, a: Archive) {
    forall j :: 0 <= j < |a.links| ==> !LinkCloses(db, a, j)
  }

  ghost predicate LinksSound(db: Db, a: Archive) {
    RecordsStay(db, a) && NoneCloses(db, a)
  }

  /** What a strict import does not ask of the records of investigations. */
  ghost predicate SoundRecords(db: Db, a: Archive) {
    CasesSound(db, a) && ClaimsSound(db, a) && ClaimsBacked(a) && LinksSound(db, a)
  }

  lemma {:induction false} CaseRecord(db: Db, a: Archive, t: Db, i: nat)
    requires Extends(db.cases, a.cases, t.cases) && Extends(db.store.scopes, a.evidence.scopes, t.store.scopes)
    requires i < |a.cases|
    ensures a.cases[i].0 in t.cases && t.cases[a.cases[i].0] == a.cases[i].1
    ensures CaseOwn(db, a, i) <==> OwnScope(t.store, a.cases[i].1.project, a.cases[i].1.scope)
  {
    var c := a.cases[i].1;
    assert t.cases[a.cases[i].0] == c;
    if c.scope.Some? {
      SomewhereLoaded(db.store.scopes, a.evidence.scopes, t.store.scopes, c.scope.value, (x: Scope) => x.project == c.project);
    }
  }

  lemma {:induction false} ArchiveCases(db: Db, a: Archive, t: Db)
    requires CasesOk(db) && Keeps(db.store, t.store) && ClaimsRefer(t) && Below(a.cases, t.store.nextId)
    requires Extends(db.cases, a.cases, t.cases) && Extends(db.store.scopes, a.evidence.scopes, t.store.scopes)
    ensures CasesOk(t) <==> CasesSound(db, a)
  {
    if CasesOk(t) {
      forall i | 0 <= i < |a.cases| ensures CaseOwn(db, a, i) {
        CaseRecord(db, a, t, i);
      }
    }
    if CasesSound(db, a) {
      forall i | i in t.cases ensures i < t.store.nextId && CaseOk(t.store, t.cases[i]) {
        if i in db.cases {
          assert CaseOk(db.store, db.cases[i]);
        } else {
          var j :| 0 <= j < |a.cases| && a.cases[j].0 == i;
          CaseRecord(db, a, t, j);
          assert CaseRefers(t.store, t.cases[i]);
        }
      }
    }
  }

  /** The rows of evidence that claims are checked against. */
  ghost predicate RowsLoaded(s: Store, b: Bundle, t: Store) {
    && Extends(s.memories, b.memories, t.memories)
    && Extends(s.events, WithNumbers(b.events), t.events)
    && Extends(s.sources, b.sources, t.sources)
  }

  lemma {:induction false} ClaimRecordStored(db: Db, a: Archive, t: Db, c: Claim, p: Id)
    requires RowsLoaded(db.store, a.evidence, t.store) && c.memory.Some?
    ensures ClaimStored(t.store, c, p) <==>
      && Somewhere(db.store.sources, a.evidence.sources, (c.memory.value, c.event), (note: string) => true)
      && MemoryIn(db.store, a.evidence, c.memory.value, p) && EventIn(db.store, a.evidence, c.event, p)
  {
    SomewhereLoaded(db.store.sources, a.evidence.sources, t.store.sources, (c.memory.value, c.event), (note: string) => true);
    MemoryLoaded(db.store, a.evidence, t.store, c.memory.value, p);
    EventLoaded(db.store, a.evidence, t.store, c.event, p);
  }

  lemma {:induction false} ClaimRecord(db: Db, a: Archive, t: Db, i: nat)
    requires RowsLoaded(db.store, a.evidence, t.store) && ClaimsLoaded(db, a, t) && ClaimsRefer(t)
    requires i < |a.claims|
    ensures a.claims[i].0 in t.claims && t.claims[a.claims[i].0] == a.claims[i].1
    ensures ClaimFits(db, a, i) <==> ClaimOk(t, a.claims[i].1)
  {
    var c := a.claims[i].1;
    assert t.claims[a.claims[i].0] == c;
    assert ClaimRefers(t, c);
    if c.memory.Some? {
      var p := t.cases[c.investigation].project;
      ClaimRecordStored(db, a, t, c, p);
      SomewhereLoaded(db.analyses, a.analyses, t.analyses, c.analysis, (x: Analysis) => x.investigation == c.investigation);
      forall q ensures InCase(db, a, c.investigation, q) <==> q == p {
        SomewhereLoaded(db.cases, a.cases, t.cases, c.investigation, (x: Case) => x.project == q);
      }
    }
  }

  lemma {:induction false} OldClaim(db: Db, a: Archive, t: Db, c: Id)
    requires ClaimsOk(db) && Keeps(db.store, t.store) && ClaimsLoaded(db, a, t) && c in db.claims
    ensures c in t.claims && c < t.store.nextId && ClaimOk(t, t.claims[c])
  {
    assert ClaimOk(db, db.claims[c]);
  }

  lemma {:induction false} ArchiveClaims(db: Db, a: Archive, t: Db)
    requires ClaimsOk(db) && Keeps(db.store, t.store) && ArchiveBelow(a, t.store.nextId)
    requires RowsLoaded(db.store, a.evidence, t.store) && ClaimsLoaded(db, a, t) && ClaimConstraints(t) && ClaimsRefer(t)
    ensures ClaimsOk(t) <==> ClaimsSound(db, a)
  {
    if ClaimsOk(t) {
      forall i | 0 <= i < |a.claims| ensures ClaimFits(db, a, i) {
        ClaimRecord(db, a, t, i);
      }
    }
    if ClaimsSound(db, a) {
      forall c | c in t.claims ensures c < t.store.nextId && ClaimOk(t, t.claims[c]) {
        if c in db.claims {
          OldClaim(db, a, t, c);
        } else {
          var i :| 0 <= i < |a.claims| && a.claims[i].0 == c;
          ClaimRecord(db, a, t, i);
        }
      }
      ArchiveAnalyses(db, a, t);
    }
  }

  lemma {:induction false} ArchiveAnalyses(db: Db, a: Archive, t: Db)
    requires AnalysesOk(db) && db.store.nextId <= t.store.nextId && Below(a.analyses, t.store.nextId)
    requires Extends(db.analyses, a.analyses, t.analyses) && ClaimConstraints(t) && ClaimsRefer(t)
    ensures AnalysesOk(t)
  {
    KeysBelow(db.analyses, a.analyses, t.analyses, t.store.nextId);
  }

  lemma {:induction false} ClaimPlace(db: Db, a: Archive, t: Db, c: Id, investigation: Id)
    requires Extends(db.claims, a.claims, t.claims)
    ensures ClaimIn(db, a, c, investigation) <==> c in t.claims && t.claims[c].investigation == investigation
  {
    SomewhereLoaded(db.claims, a.claims, t.claims, c, (x: Claim) => x.investigation == investigation);
  }

  lemma {:induction false} LinkRecord(db: Db, a: Archive, t: Db, j: nat)
    requires Extends(db.claims, a.claims, t.claims) && j < |a.links|
    ensures LinkStays(db, a, j) <==> LinkOk(t.claims, a.links[j])
  {
    var k := a.links[j];
    if LinkStays(db, a, j) {
      var i :| ClaimIn(db, a, k.from, i) && ClaimIn(db, a, k.to, i);
      ClaimPlace(db, a, t, k.from, i);
      ClaimPlace(db, a, t, k.to, i);
    }
    if LinkOk(t.claims, k) {
      var i := t.claims[k.from].investigation;
      ClaimPlace(db, a, t, k.from, i);
      ClaimPlace(db, a, t, k.to, i);
    }
  }

  predicate AllJoin(claims: map<Id, Claim>, links: set<Link>) {
    forall k :: k in links ==> LinkOk(claims, k)
  }

  lemma {:induction false} OldLinks(claims: map<Id, Claim>, rows: seq<(Id, Claim)>, after: map<Id, Claim>, links: set<Link>)
    requires AllJoin(claims, links) && Extends(claims, rows, after)
    ensures AllJoin(after, links)
  {
    forall k | k in links ensures LinkOk(after, k) {
      assert LinkOk(claims, k);
    }
  }

  lemma {:induction false} ArchiveJoins(db: Db, a: Archive, t: Db)
    requires AllJoin(db.claims, db.links) && Extends(db.claims, a.claims, t.claims) && t.links == db.links + LinkSet(a.links)
    ensures AllJoin(t.claims, t.links) <==> RecordsStay(db, a)
  {
    OldLinks(db.claims, a.claims, t.claims, db.links);
    if AllJoin(t.claims, t.links) {
      forall j | 0 <= j < |a.links| ensures LinkStays(db, a, j) {
        LinkRecord(db, a, t, j);
        assert a.links[j] in LinkSet(a.links);
      }
    }
    if RecordsStay(db, a) {
      forall k | k in LinkSet(a.links) ensures LinkOk(t.claims, k) {
        var j :| 0 <= j < |a.links| && a.links[j] == k;
        LinkRecord(db, a, t, j);
      }
    }
  }

  lemma {:induction false} ArchiveAcyclic(links: set<Link>, rows: seq<Link>)
    requires Digraph.Acyclic(Arcs(links))
    ensures var all := Arcs(links) + Arcs(LinkSet(rows));
      && Arcs(links + LinkSet(rows)) == all
      && (Digraph.Acyclic(all) <==> forall j :: 0 <= j < |rows| ==> !Digraph.Reaches(all, rows[j].to, rows[j].from))
  {
    var more := Arcs(LinkSet(rows));
    var all := Arcs(links) + more;
    Digraph.StaysAcyclicIff(Arcs(links), more);
    forall j | 0 <= j < |rows| ensures (rows[j].from, rows[j].to) in more {
      assert rows[j] in LinkSet(rows);
    }
    if forall j :: 0 <= j < |rows| ==> !Digraph.Reaches(all, rows[j].to, rows[j].from) {
      forall k | k in more ensures !Digraph.Reaches(all, k.1, k.0) {
        var j :| 0 <= j < |rows| && k == (rows[j].from, rows[j].to);
      }
    } else {
      var j :| 0 <= j < |rows| && Digraph.Reaches(all, rows[j].to, rows[j].from);
      var k := (rows[j].from, rows[j].to);
      assert k in more && Digraph.Reaches(all, k.1, k.0);
    }
  }

  lemma {:induction false} ArchiveLinks(db: Db, a: Archive, t: Db)
    requires LinksOk(db) && Extends(db.claims, a.claims, t.claims) && t.links == db.links + LinkSet(a.links)
    ensures LinksOk(t) <==> LinksSound(db, a)
  {
    assert AllJoin(db.claims, db.links);
    ArchiveJoins(db, a, t);
    ArchiveAcyclic(db.links, a.links);
    var all := Arcs(db.links) + Arcs(LinkSet(a.links));
    assert forall j :: 0 <= j < |a.links| ==> LinkCloses(db, a, j) == Digraph.Reaches(all, a.links[j].to, a.links[j].from);
    assert LinksOk(t) <==> AllJoin(t.claims, t.links) && Digraph.Acyclic(Arcs(t.links));
  }

  lemma {:induction false} ArchiveSupport(db: Db, a: Archive, t: Db)
    requires LinksOk(db) && Supported(db) && ClaimsLoaded(db, a, t)
    ensures Supported(t) <==> ClaimsBacked(a)
  {
    if Supported(t) {
      forall i | 0 <= i < |a.claims| ensures ClaimBacked(a, i) {
        RecordBacked(db, a, t, i);
      }
    }
    if ClaimsBacked(a) {
      forall c | c in t.claims && t.claims[c].role != Evidence ensures Backed(t.links, c) {
        if c in db.claims {
          assert Backed(db.links, c);
        } else {
          var i :| 0 <= i < |a.claims| && a.claims[i].0 == c;
          assert t.claims[a.claims[i].0] == a.claims[i].1 && ClaimBacked(a, i);
          var j :| 0 <= j < |a.links| && a.links[j].to == c;
          assert a.links[j] in LinkSet(a.links);
        }
      }
    }
  }

  /** A stored link cannot lead to a claim that is not stored yet. */
  lemma {:induction false} RecordBacked(db: Db, a: Archive, t: Db, i: nat)
    requires LinksOk(db) && Supported(t) && ClaimsLoaded(db, a, t) && i < |a.claims|
    ensures ClaimBacked(a, i)
  {
    var c := a.claims[i].0;
    assert t.claims[c] == a.claims[i].1;
    if a.claims[i].1.role != Evidence {
      assert Backed(t.links, c);
      var k :| k in t.links && k.to == c;
      assert k in db.links ==> LinkOk(db.claims, k);
      assert k in LinkSet(a.links);
      var j :| 0 <= j < |a.links| && a.links[j] == k;
    }
  }

  /** An import inserts investigations, analyses, claims and links as they come. The claim
      graph stays sound if and only if each record fits: investigations name scopes of their
      own, claims name an analysis of their investigation and evidence of its project, links
      stay inside an investigation and close no cycle, and every claim that is not evidence
      comes with a claim it rests on. */
  lemma {:induction false} ImportGraph(db: Db, a: Archive, t: Db)
    requires Graph(db) && Issued(db.store) && ImportArchive(db, a) == Ok(t)
    ensures Graph(t) <==> SoundRecords(db, a)
  {
    GraphRules(db);
    GraphRules(t);
    ArchiveHolds(db, a, t);
    ArchiveImports(db, a, t);
    ImportBrings(db.store, a.evidence, EvidenceOf(db, a, t));
    ArchiveIds(NextId(db.store, a.evidence), a);
    ArchiveCases(db, a, t);
    ArchiveClaims(db, a, t);
    ArchiveLinks(db, a, t);
    ArchiveSupport(db, a, t);
  }

  // ---------------------------------------------------------------------
  // An import that breaks the graph
  // ---------------------------------------------------------------------

  /** One project with two inference claims, each derived from the other. */
  const CIRCULAR := Archive(
    Bundle(0, [], [],
      [(1, Event(0, 1, Context(None, None), "x")), (2, Event(0, 2, Context(None, None), "y"))],
      [(3, Memory(0, Proposed, None, "x")), (4, Memory(0, Proposed, None, "y"))],
      [((3, 1), ""), ((4, 2), "")], [], []),
    [(5, Case(0, None, true))],
    [(6, Analysis(5, ("doc", "d", "1")))],
    [(7, Claim(5, 6, "x", Inference, 1, Some(3))), (8, Claim(5, 6, "y", Inference, 2, Some(4)))],
    [Link(7, 8, DerivedFrom), Link(8, 7, DerivedFrom)])

  const CIRCULARSTORE := Store(map[0 := 3], map[], map[],
    map[1 := Event(0, 1, Context(None, None), "x"), 2 := Event(0, 2, Context(None, None), "y")],
    map[3 := Memory(0, Proposed, None, "x"), 4 := Memory(0, Proposed, None, "y")],
    map[(3, 1) := "", (4, 2) := ""], map[], map[], NextId(EMPTY, CIRCULAR.evidence))

  const CIRCULARDB := Db(CIRCULARSTORE.(nextId := ArchiveNextId(CIRCULARSTORE.nextId, CIRCULAR)),
    map[5 := Case(0, None, true)], map[6 := Analysis(5, ("doc", "d", "1"))],
    map[7 := Claim(5, 6, "x", Inference, 1, Some(3)), 8 := Claim(5, 6, "y", Inference, 2, Some(4))],
    {Link(7, 8, DerivedFrom), Link(8, 7, DerivedFrom)})

  lemma {:induction false} InsertOne<K, V>(k: K, v: V)
    ensures InsertAll(map[], [(k, v)]) == Some(map[k := v])
  {
    assert [(k, v)][1..] == [];
    assert InsertAll(map[k := v], []) == Some(map[k := v]);
  }

  lemma {:induction false} InsertTwo<K, V>(k: K, v: V, l: K, w: V)
    requires k != l
    ensures InsertAll(map[], [(k, v), (l, w)]) == Some(map[k := v, l := w])
  {
    var rows := [(k, v), (l, w)];
    assert rows[1..] == [(l, w)] && [(l, w)][1..] == [];
    assert InsertAll(map[k := v, l := w], []) == Some(map[k := v, l := w]);
    assert InsertAll(map[k := v], [(l, w)]) == Some(map[k := v, l := w]);
  }

  lemma {:induction false} CircularEvidence()
    ensures Loaded(EMPTY, CIRCULAR.evidence) == Some(CIRCULARSTORE)
  {
    var b := CIRCULAR.evidence;
    assert WithNumbers(b.events) == b.events;
    InsertTwo(1, b.events[0].1, 2, b.events[1].1);
    InsertTwo(3, b.memories[0].1, 4, b.memories[1].1);
    InsertTwo((3, 1), "", (4, 2), "");
  }

  lemma {:induction false} CircularLoads()
    ensures LoadedArchive(NOTHING, CIRCULAR) == Some(CIRCULARDB)
  {
    CircularEvidence();
    var a := CIRCULAR;
    InsertOne(5, a.cases[0].1);
    InsertOne(6, a.analyses[0].1);
    InsertTwo(7, a.claims[0].1, 8, a.claims[1].1);
    InsertLinksExact({}, a.links);
    assert {} + LinkSet(a.links) == CIRCULARDB.links;
  }

  lemma {:induction false} CircularConstraints()
    ensures Constraints(CIRCULARDB.store)
  {
  }

  lemma {:induction false} CircularRows()
    ensures RowsRefer(CIRCULARDB.store)
  {
    var t := CIRCULARDB.store;
    assert t.nextSeq.Keys == {0} && t.memories.Keys == {3, 4} && t.events.Keys == {1, 2};
    assert forall k :: k in t.sources ==> k == (3, 1) || k == (4, 2);
  }

  lemma {:induction false} CircularContexts()
    ensures ContextsRefer(CIRCULARDB.store)
  {
  }

  lemma {:induction false} CircularSourced()
    ensures !InvalidLinks(CIRCULARDB.store, 0) && !MissingSources(CIRCULARDB.store, 0)
  {
  }

  lemma {:induction false} CircularRefers()
    ensures ClaimConstraints(CIRCULARDB) && ClaimsRefer(CIRCULARDB)
  {
    var t := CIRCULARDB;
    assert ClaimRefers(t, t.claims[7]) && ClaimRefers(t, t.claims[8]);
  }

  /** The links lead from each claim to the other. */
  lemma {:induction false} CircularPath(arcs: set<(Id, Id)>)
    requires arcs == Arcs({Link(7, 8, DerivedFrom), Link(8, 7, DerivedFrom)})
    ensures Digraph.IsPath(arcs, [7, 8, 7]) && !Digraph.Acyclic(arcs)
  {
    var links := {Link(7, 8, DerivedFrom), Link(8, 7, DerivedFrom)};
    assert Link(7, 8, DerivedFrom) in links && Link(8, 7, DerivedFrom) in links;
    assert (7, 8) in arcs && (8, 7) in arcs;
    var path := [7, 8, 7];
    assert Digraph.IsPath(arcs, path) && |path| > 1;
  }

  lemma {:induction false} CircularUngrounded(c: Id, path: seq<Id>)
    ensures !GroundedBy(CIRCULARDB, c, path)
  {
    assert forall d :: d in CIRCULARDB.claims ==> CIRCULARDB.claims[d].role == Inference;
  }

  /** The circular project imports into an empty database. Afterwards each claim rests on
      itself, through the other, and neither rests on evidence. */
  lemma {:induction false} CircularImports()
    ensures ImportArchive(NOTHING, CIRCULAR) == Ok(CIRCULARDB)
    ensures Digraph.IsPath(Arcs(CIRCULARDB.links), [7, 8, 7])
    ensures forall c, path :: !GroundedBy(CIRCULARDB, c, path)
    ensures !Graph(CIRCULARDB) && !SoundRecords(NOTHING, CIRCULAR)
  {
    CircularLoads();
    CircularConstraints();
    CircularRows();
    CircularContexts();
    CircularSourced();
    CircularRefers();
    assert ArchiveProblem(CIRCULARDB, 0) == None;
    CircularPath(Arcs(CIRCULARDB.links));
    forall c, path ensures !GroundedBy(CIRCULARDB, c, path) {
      CircularUngrounded(c, path);
    }
    CircularUnsound();
  }

  lemma {:induction false} CircularUnsound()
    requires ImportArchive(NOTHING, CIRCULAR) == Ok(CIRCULARDB) && !Digraph.Acyclic(Arcs(CIRCULARDB.links))
    ensures !Graph(CIRCULARDB) && !SoundRecords(NOTHING, CIRCULAR)
  {
    GraphRules(CIRCULARDB);
    NothingSound();
    ImportGraph(NOTHING, CIRCULAR, CIRCULARDB);
  }

  lemma {:induction false} NothingSound()
    ensures Graph(NOTHING) && Inv(NOTHING.store)
  {
    EmptyObeys();
    GraphRules(NOTHING);
    assert Arcs({}) == {};
    Digraph.EmptyAcyclic();
  }

  // ---------------------------------------------------------------------
  // Export
  // ---------------------------------------------------------------------

  function CasesOf(db: Db, p: Id): set<Id> {
    set i | i in db.cases && db.cases[i].project == p
  }

  function AnalysesOf(db: Db, p: Id): set<Id> {
    set x | x in db.analyses && db.analyses[x].investigation in CasesOf(db, p)
  }

  function ClaimsOf(db: Db, p: Id): set<Id> {
    set c | c in db.claims && db.claims[c].investigation in CasesOf(db, p)
  }

  function LinksOf(db: Db, p: Id): set<Link> {
    set k | k in db.links && k.from in ClaimsOf(db, p)
  }

  /** `export_project`: each query's rows, the evidence among them. */
  ghost predicate IsArchive(db: Db, p: Id, a: Archive) {
    && IsExport(db.store, p, a.evidence)
    && Lists(a.cases, db.cases, CasesOf(db, p))
    && Lists(a.analyses, db.analyses, AnalysesOf(db, p))
    && Lists(a.claims, db.claims, ClaimsOf(db, p))
    && DistinctLinks(a.links) && LinkSet(a.links) == LinksOf(db, p)
  }

  ghost predicate Sound(db: Db) {
    Inv(db.store) && Graph(db)
  }

  /** The target has none of the archive's ids. */
  ghost predicate FreshArchive(target: Db, a: Archive) {
    && Fresh(target.store, a.evidence)
    && NewKeys(target.cases, a.cases) && NewKeys(target.analyses, a.analyses) && NewKeys(target.claims, a.claims)
  }

  ghost predicate Movable(db: Db, p: Id, a: Archive, target: Db) {
    Sound(db) && IsArchive(db, p, a) && Sound(target) && FreshArchive(target, a)
  }

  lemma {:induction false} MovedLinksNew(db: Db, p: Id, a: Archive, target: Db)
    requires Movable(db, p, a, target)
    ensures target.links !! LinkSet(a.links)
  {
    GraphRules(target);
    forall k | k in LinkSet(a.links) ensures k !in target.links {
      var i :| 0 <= i < |a.claims| && a.claims[i].0 == k.from;
      assert k in target.links ==> LinkOk(target.claims, k);
    }
  }

  lemma {:induction false} MovedLoads(db: Db, p: Id, a: Archive, target: Db)
    requires Movable(db, p, a, target)
    ensures LoadedArchive(target, a).Some?
  {
    ExportLoads(db.store, p, a.evidence, target.store);
    InsertAllExact(target.cases, a.cases);
    InsertAllExact(target.analyses, a.analyses);
    InsertAllExact(target.claims, a.claims);
    MovedLinksNew(db, p, a, target);
    InsertLinksExact(target.links, a.links);
  }

  /** An archive, loaded into a database that has none of its ids. */
  ghost predicate Moved(db: Db, p: Id, a: Archive, target: Db, t: Db) {
    && Movable(db, p, a, target) && ClaimsLoaded(target, a, t)
    && Landed(db.store, p, a.evidence, target.store, EvidenceOf(target, a, t))
    && t.store.nextId == ArchiveNextId(NextId(target.store, a.evidence), a)
  }

  lemma {:induction false} MovedIs(db: Db, p: Id, a: Archive, target: Db, t: Db)
    requires Movable(db, p, a, target) && LoadedArchive(target, a) == Some(t)
    ensures Moved(db, p, a, target, t)
  {
    ArchiveLoads(target, a, t);
    LoadedExtends(target.store, a.evidence, EvidenceOf(target, a, t));
  }

  /** Rows of the archive keep their values, rows of the target too. */
  ghost predicate Arrived<V>(table: map<Id, V>, wanted: set<Id>, target: map<Id, V>, after: map<Id, V>) {
    && (forall k :: k in wanted ==> k in table && k in after && k !in target && after[k] == table[k])
    && (forall k :: k in target ==> k in after && after[k] == target[k])
    && (forall k :: k in after && k !in target ==> k in wanted)
  }

  lemma {:induction false} ListArrives<V>(rows: seq<(Id, V)>, table: map<Id, V>, wanted: set<Id>, target: map<Id, V>, after: map<Id, V>)
    requires Lists(rows, table, wanted) && Extends(target, rows, after) && NewKeys(target, rows)
    ensures Arrived(table, wanted, target, after)
  {
    forall k | k in wanted ensures k in table && k in after && k !in target && after[k] == table[k] {
      var i :| 0 <= i < |rows| && rows[i].0 == k;
      assert after[rows[i].0] == rows[i].1;
    }
  }

  /** Which rows a moved database has. */
  ghost predicate ClaimsArrived(db: Db, p: Id, target: Db, t: Db) {
    && Arrived(db.cases, CasesOf(db, p), target.cases, t.cases)
    && Arrived(db.analyses, AnalysesOf(db, p), target.analyses, t.analyses)
    && Arrived(db.claims, ClaimsOf(db, p), target.claims, t.claims)
    && t.links == target.links + LinksOf(db, p)
  }

  ghost predicate EvidenceArrived(s: Store, p: Id, target: Store, t: Store) {
    && Arrived(s.scopes, ScopesOf(s, p), target.scopes, t.scopes)
    && Arrived(s.events, EventsOf(s, p), target.events, t.events)
    && Arrived(s.memories, MemoriesOf(s, p), target.memories, t.memories)
    && (forall k :: k in s.sources && k.0 in MemoriesOf(s, p) ==> k in t.sources)
    && (forall k :: k in target.sources ==> k in t.sources)
    && p !in target.nextSeq && t.nextSeq.Keys == target.nextSeq.Keys + {p}
  }

  lemma {:induction false} SourcesArrive(s: Store, p: Id, b: Bundle, target: Store, t: Store)
    requires IsExport(s, p, b) && Extends(target.sources, b.sources, t.sources)
    ensures forall k :: k in s.sources && k.0 in MemoriesOf(s, p) ==> k in t.sources
  {
    forall k | k in s.sources && k.0 in MemoriesOf(s, p) ensures k in t.sources {
      assert k in SourcesOf(s, p);
      var i :| 0 <= i < |b.sources| && b.sources[i].0 == k;
    }
  }

  lemma {:induction false} LandedArrives(s: Store, p: Id, b: Bundle, target: Store, t: Store)
    requires Landed(s, p, b, target, t)
    ensures EvidenceArrived(s, p, target, t)
  {
    ExportInOrder(s, p, b, target);
    ListArrives(b.scopes, s.scopes, ScopesOf(s, p), target.scopes, t.scopes);
    ListArrives(b.events, s.events, EventsOf(s, p), target.events, t.events);
    ListArrives(b.memories, s.memories, MemoriesOf(s, p), target.memories, t.memories);
    SourcesArrive(s, p, b, target, t);
  }

  lemma {:induction false} MovedArrives(db: Db, p: Id, a: Archive, target: Db, t: Db)
    requires Moved(db, p, a, target, t)
    ensures ClaimsArrived(db, p, target, t) && EvidenceArrived(db.store, p, target.store, t.store)
  {
    ListArrives(a.cases, db.cases, CasesOf(db, p), target.cases, t.cases);
    ListArrives(a.analyses, db.analyses, AnalysesOf(db, p), target.analyses, t.analyses);
    ListArrives(a.claims, db.claims, ClaimsOf(db, p), target.claims, t.claims);
    LandedArrives(db.store, p, a.evidence, target.store, EvidenceOf(target, a, t));
  }

  /** Two sound databases that share no id of the archive, and the one they make. */
  ghost predicate Joined(db: Db, p: Id, target: Db, t: Db) {
    Graph(db) && Graph(target) && ClaimsArrived(db, p, target, t) && EvidenceArrived(db.store, p, target.store, t.store)
  }

  lemma {:induction false} JoinedCase(db: Db, p: Id, target: Db, t: Db, i: Id)
    requires Joined(db, p, target, t) && i in t.cases
    ensures CaseOk(t.store, t.cases[i])
  {
    GraphRules(db);
    GraphRules(target);
    if i in target.cases {
      assert CaseOk(target.store, target.cases[i]);
    } else {
      assert CaseOk(db.store, db.cases[i]);
      var c := db.cases[i];
      assert c.scope.Some? ==> c.scope.value in ScopesOf(db.store, p);
    }
  }

  lemma {:induction false} JoinedAnalysis(db: Db, p: Id, target: Db, t: Db, x: Id)
    requires Joined(db, p, target, t) && x in t.analyses
    ensures var i := t.analyses[x].investigation;
      i in t.cases && (x in target.analyses <==> i in target.cases)
  {
    GraphRules(target);
  }

  lemma {:induction false} JoinedAnalysesDistinct(db: Db, p: Id, target: Db, t: Db)
    requires Joined(db, p, target, t)
    ensures AnalysesDistinct(t.analyses)
  {
    GraphRules(db);
    GraphRules(target);
    forall x, y | x in t.analyses && y in t.analyses && t.analyses[x] == t.analyses[y] ensures x == y {
      JoinedAnalysis(db, p, target, t, x);
      JoinedAnalysis(db, p, target, t, y);
    }
  }

  /** A moved claim finds the rows it names, and they are new. */
  lemma {:induction false} NewClaimOk(db: Db, p: Id, target: Db, t: Db, c: Id)
    requires Joined(db, p, target, t) && c in ClaimsOf(db, p)
    ensures c in t.claims && t.claims[c] == db.claims[c] && ClaimOk(t, t.claims[c])
    ensures t.claims[c].analysis !in target.analyses && t.claims[c].event !in target.store.events
    ensures t.claims[c].investigation !in target.cases
  {
    GraphRules(db);
    var row := db.claims[c];
    assert ClaimOk(db, row);
    assert row.analysis in AnalysesOf(db, p);
    assert row.event in EventsOf(db.store, p) && row.memory.value in MemoriesOf(db.store, p);
  }

  lemma {:induction false} OldClaimOk(db: Db, p: Id, target: Db, t: Db, c: Id)
    requires Joined(db, p, target, t) && c in target.claims
    ensures c in t.claims && t.claims[c] == target.claims[c] && ClaimOk(t, t.claims[c])
    ensures t.claims[c].analysis in target.analyses && t.claims[c].event in target.store.events
    ensures t.claims[c].investigation in target.cases
  {
    GraphRules(target);
    assert ClaimOk(target, target.claims[c]);
  }

  lemma {:induction false} JoinedClaim(db: Db, p: Id, target: Db, t: Db, c: Id)
    requires Joined(db, p, target, t) && c in t.claims
    ensures ClaimOk(t, t.claims[c])
    ensures if c in target.claims then t.claims[c] == target.claims[c]
            else c in ClaimsOf(db, p) && t.claims[c] == db.claims[c]
    ensures c in target.claims <==> t.claims[c].analysis in target.analyses
    ensures c in target.claims <==> t.claims[c].event in target.store.events
    ensures c in target.claims <==> t.claims[c].investigation in target.cases
  {
    if c in target.claims {
      OldClaimOk(db, p, target, t, c);
    } else {
      NewClaimOk(db, p, target, t, c);
    }
  }

  lemma {:induction false} JoinedClaimsDistinct(db: Db, p: Id, target: Db, t: Db)
    requires Joined(db, p, target, t)
    ensures ClaimsDistinct(t.claims)
  {
    GraphRules(db);
    GraphRules(target);
    forall c, d | c in t.claims && d in t.claims && SameClaim(t.claims[c], t.claims[d]) ensures c == d {
      JoinedClaim(db, p, target, t, c);
      JoinedClaim(db, p, target, t, d);
    }
  }

  lemma {:induction false} JoinedLink(db: Db, p: Id, target: Db, t: Db, k: Link)
    requires Joined(db, p, target, t) && k in t.links
    ensures LinkOk(t.claims, k)
    ensures if k in target.links then k.from in target.claims && k.to in target.claims
            else k.from in ClaimsOf(db, p) && k.to in ClaimsOf(db, p)
  {
    GraphRules(db);
    GraphRules(target);
    if k in target.links {
      assert LinkOk(target.claims, k);
    } else {
      assert LinkOk(db.claims, k);
      assert k.to in ClaimsOf(db, p);
    }
  }

  lemma {:induction false} JoinedAcyclic(db: Db, p: Id, target: Db, t: Db)
    requires Joined(db, p, target, t)
    ensures Digraph.Acyclic(Arcs(t.links))
  {
    GraphRules(db);
    GraphRules(target);
    var kept, moved := Arcs(target.links), Arcs(LinksOf(db, p));
    assert Arcs(t.links) == kept + moved;
    Digraph.FewerAcyclic(moved, Arcs(db.links));
    forall k | k in kept ensures k.0 !in ClaimsOf(db, p) && k.1 !in ClaimsOf(db, p) {
      var l :| l in target.links && k == (l.from, l.to);
      assert LinkOk(target.claims, l);
    }
    forall k | k in moved ensures k.0 in ClaimsOf(db, p) && k.1 in ClaimsOf(db, p) {
      var l :| l in LinksOf(db, p) && k == (l.from, l.to);
      assert LinkOk(db.claims, l);
    }
    Digraph.DisjointAcyclic(kept, moved, ClaimsOf(db, p));
  }

  lemma {:induction false} JoinedSupported(db: Db, p: Id, target: Db, t: Db)
    requires Joined(db, p, target, t)
    ensures Supported(t)
  {
    GraphRules(db);
    GraphRules(target);
    forall c | c in t.claims && t.claims[c].role != Evidence ensures Backed(t.links, c) {
      JoinedClaim(db, p, target, t, c);
      if c in target.claims {
        assert Backed(target.links, c);
      } else {
        assert Backed(db.links, c);
        var k :| k in db.links && k.to == c;
        assert LinkOk(db.claims, k);
        assert k in LinksOf(db, p);
      }
    }
  }

  lemma {:induction false} JoinedConsistent(db: Db, p: Id, target: Db, t: Db)
    requires Joined(db, p, target, t)
    ensures ClaimConstraints(t) && ClaimsRefer(t)
  {
    JoinedAnalysesDistinct(db, p, target, t);
    JoinedClaimsDistinct(db, p, target, t);
    forall i | i in t.cases ensures CaseRefers(t.store, t.cases[i]) {
      JoinedCase(db, p, target, t, i);
    }
    forall x | x in t.analyses ensures t.analyses[x].investigation in t.cases {
      JoinedAnalysis(db, p, target, t, x);
    }
    forall c | c in t.claims ensures ClaimRefers(t, t.claims[c]) {
      JoinedClaim(db, p, target, t, c);
    }
    forall k | k in t.links ensures k.from in t.claims && k.to in t.claims {
      JoinedLink(db, p, target, t, k);
    }
  }

  lemma {:induction false} JoinedCasesOk(db: Db, p: Id, target: Db, t: Db)
    requires Joined(db, p, target, t) && forall i :: i in t.cases ==> i < t.store.nextId
    ensures CasesOk(t)
  {
    forall i | i in t.cases ensures CaseOk(t.store, t.cases[i]) {
      JoinedCase(db, p, target, t, i);
    }
  }

  lemma {:induction false} JoinedClaimsOk(db: Db, p: Id, target: Db, t: Db)
    requires Joined(db, p, target, t) && AnalysesOk(t) && ClaimsDistinct(t.claims) && forall c :: c in t.claims ==> c < t.store.nextId
    ensures ClaimsOk(t)
  {
    forall c | c in t.claims ensures ClaimOk(t, t.claims[c]) {
      JoinedClaim(db, p, target, t, c);
    }
  }

  lemma {:induction false} JoinedLinksOk(db: Db, p: Id, target: Db, t: Db)
    requires Joined(db, p, target, t)
    ensures LinksOk(t)
  {
    forall k | k in t.links ensures LinkOk(t.claims, k) {
      JoinedLink(db, p, target, t, k);
    }
    JoinedAcyclic(db, p, target, t);
  }

  lemma {:induction false} JoinedGraph(db: Db, p: Id, target: Db, t: Db)
    requires Joined(db, p, target, t) && ClaimConstraints(t) && ClaimsRefer(t)
    requires forall i :: i in t.cases || i in t.analyses || i in t.claims ==> i < t.store.nextId
    ensures Graph(t)
  {
    JoinedCasesOk(db, p, target, t);
    JoinedClaimsOk(db, p, target, t);
    JoinedLinksOk(db, p, target, t);
    JoinedSupported(db, p, target, t);
    GraphRules(t);
  }

  lemma {:induction false} MovedBelow(db: Db, p: Id, a: Archive, target: Db, t: Db)
    requires Moved(db, p, a, target, t)
    ensures forall i :: i in t.cases || i in t.analyses || i in t.claims ==> i < t.store.nextId
  {
    GraphRules(target);
    NextIdCovers(target.store, a.evidence);
    ArchiveIds(NextId(target.store, a.evidence), a);
    KeysBelow(target.cases, a.cases, t.cases, t.store.nextId);
    KeysBelow(target.analyses, a.analyses, t.analyses, t.store.nextId);
    KeysBelow(target.claims, a.claims, t.claims, t.store.nextId);
  }

  lemma {:induction false} MovedGraph(db: Db, p: Id, a: Archive, target: Db, t: Db)
    requires Moved(db, p, a, target, t)
    ensures Graph(t) && ClaimConstraints(t) && ClaimsRefer(t)
  {
    MovedArrives(db, p, a, target, t);
    JoinedConsistent(db, p, target, t);
    MovedBelow(db, p, a, target, t);
    JoinedGraph(db, p, target, t);
  }

  lemma {:induction false} MovedOutcome(db: Db, p: Id, a: Archive, target: Db, t: Db)
    requires Moved(db, p, a, target, t) && LoadedArchive(target, a) == Some(t)
    ensures ImportArchive(target, a) == if Answered(target.store, a.evidence) then Ok(t) else Err(Integrity)
  {
    var evidence := EvidenceOf(target, a, t);
    ArchiveLoads(target, a, t);
    ExportOutcome(db.store, p, a.evidence, target.store, evidence);
    ProblemIgnoresIds(t.store, evidence.nextId, p);
    MovedGraph(db, p, a, target, t);
  }

  /** The same rows of investigations, analyses, claims and links. */
  ghost predicate SameClaims(db: Db, p: Id, t: Db) {
    && Same(CasesOf(db, p), db.cases, CasesOf(t, p), t.cases)
    && Same(AnalysesOf(db, p), db.analyses, AnalysesOf(t, p), t.analyses)
    && Same(ClaimsOf(db, p), db.claims, ClaimsOf(t, p), t.claims)
    && LinksOf(t, p) == LinksOf(db, p)
  }

  lemma {:induction false} JoinedCases(db: Db, p: Id, target: Db, t: Db)
    requires Joined(db, p, target, t)
    ensures Same(CasesOf(db, p), db.cases, CasesOf(t, p), t.cases) && CasesOf(t, p) !! target.cases.Keys
  {
    GraphRules(target);
    forall i | i in target.cases ensures target.cases[i].project != p {
      assert CaseOk(target.store, target.cases[i]);
    }
  }

  lemma {:induction false} JoinedAnalysesSame(db: Db, p: Id, target: Db, t: Db)
    requires Joined(db, p, target, t) && CasesOf(t, p) == CasesOf(db, p) && CasesOf(t, p) !! target.cases.Keys
    ensures Same(AnalysesOf(db, p), db.analyses, AnalysesOf(t, p), t.analyses)
  {
    forall x | x in t.analyses ensures x in AnalysesOf(t, p) <==> x in AnalysesOf(db, p) {
      JoinedAnalysis(db, p, target, t, x);
    }
  }

  lemma {:induction false} JoinedClaimsSame(db: Db, p: Id, target: Db, t: Db)
    requires Joined(db, p, target, t) && CasesOf(t, p) == CasesOf(db, p) && CasesOf(t, p) !! target.cases.Keys
    ensures Same(ClaimsOf(db, p), db.claims, ClaimsOf(t, p), t.claims)
  {
    forall c | c in t.claims ensures c in ClaimsOf(t, p) <==> c in ClaimsOf(db, p) {
      JoinedClaim(db, p, target, t, c);
    }
  }

  lemma {:induction false} JoinedLinksSame(db: Db, p: Id, target: Db, t: Db)
    requires Joined(db, p, target, t) && ClaimsOf(t, p) == ClaimsOf(db, p)
    ensures LinksOf(t, p) == LinksOf(db, p)
  {
    forall k | k in t.links ensures k in LinksOf(t, p) <==> k in LinksOf(db, p) {
      JoinedLink(db, p, target, t, k);
    }
  }

  lemma {:induction false} JoinedSame(db: Db, p: Id, target: Db, t: Db)
    requires Joined(db, p, target, t)
    ensures SameClaims(db, p, t)
  {
    JoinedCases(db, p, target, t);
    JoinedAnalysesSame(db, p, target, t);
    JoinedClaimsSame(db, p, target, t);
    JoinedLinksSame(db, p, target, t);
  }

  lemma {:induction false} SameClaimsSameArchive(db: Db, p: Id, a: Archive, t: Db)
    requires IsArchive(db, p, a) && SameClaims(db, p, t) && IsExport(t.store, p, a.evidence)
    ensures IsArchive(t, p, a)
  {
    SameLists(a.cases, db.cases, CasesOf(db, p), t.cases, CasesOf(t, p));
    SameLists(a.analyses, db.analyses, AnalysesOf(db, p), t.analyses, AnalysesOf(t, p));
    SameLists(a.claims, db.claims, ClaimsOf(db, p), t.claims, ClaimsOf(t, p));
  }

  /** The imported project is the exported one, its investigations with it. */
  ghost predicate RestoredArchive(db: Db, p: Id, a: Archive, t: Db) {
    Restored(db.store, p, a.evidence, t.store) && SameClaims(db, p, t) && IsArchive(t, p, a)
  }

  lemma {:induction false} LaterRestored(s: Store, p: Id, b: Bundle, evidence: Store, t: Store)
    requires Restored(s, p, b, evidence) && Inv(evidence) && evidence.nextId <= t.nextId && t == evidence.(nextId := t.nextId)
    ensures Restored(s, p, b, t) && Inv(t)
  {
    LaterId(evidence, t.nextId, t);
  }

  lemma {:induction false} MovedRestored(db: Db, p: Id, a: Archive, target: Db, t: Db)
    requires Moved(db, p, a, target, t) && Answered(target.store, a.evidence)
    ensures Sound(t) && RestoredArchive(db, p, a, t)
  {
    var evidence := EvidenceOf(target, a, t);
    LandedValid(db.store, p, a.evidence, target.store, evidence);
    LandedKeeps(db.store, p, a.evidence, target.store, evidence);
    ArchiveIds(evidence.nextId, a);
    LaterRestored(db.store, p, a.evidence, evidence, t.store);
    MovedGraph(db, p, a, target, t);
    MovedArrives(db, p, a, target, t);
    JoinedSame(db, p, target, t);
    SameClaimsSameArchive(db, p, a, t);
  }

  /** Round trip of a whole project: its export loads into a sound database without those ids
      if and only if the scopes and sessions it names are answered there or in the export. The
      copy has the same evidence, investigations, analyses, claims and links, exports as the
      same archive again, and the database is sound. */
  lemma {:induction false} ArchiveRoundTrip(db: Db, p: Id, a: Archive, target: Db)
    requires Sound(db) && IsArchive(db, p, a) && Sound(target) && FreshArchive(target, a)
    ensures ImportArchive(target, a).Ok? <==> Answered(target.store, a.evidence)
    ensures ImportArchive(target, a).Err? ==> ImportArchive(target, a).error == Integrity
    ensures ImportArchive(target, a).Ok? ==>
      Sound(ImportArchive(target, a).value) && RestoredArchive(db, p, a, ImportArchive(target, a).value)
  {
    MovedLoads(db, p, a, target);
    var t := LoadedArchive(target, a).value;
    MovedIs(db, p, a, target, t);
    MovedOutcome(db, p, a, target, t);
    if Answered(target.store, a.evidence) {
      MovedRestored(db, p, a, target, t);
    }
  }

  /** So a whole project loads into a database without its ids if and only if every scope and
      session its rows name belongs to it; investigations never stand in the way. */
  lemma {:induction false} ArchiveLoadsIffContained(db: Db, p: Id, a: Archive, target: Db)
    requires Sound(db) && IsArchive(db, p, a) && Sound(target) && FreshArchive(target, a) && Apart(db.store, p, target.store)
    ensures ImportArchive(target, a).Ok? <==> Contained(db.store, p)
  {
    ArchiveRoundTrip(db, p, a, target);
    ExportImportExport(db.store, p, a.evidence, target.store);
    ExportLoadsIffContained(db.store, p, a.evidence, target.store);
  }

  // ---------------------------------------------------------------------
  // The repository
  // ---------------------------------------------------------------------

  method InsertLinkRows(links: set<Link>, rows: seq<Link>) returns (after: Option<set<Link>>)
    ensures after == InsertLinks(links, rows)
  {
    var grown := links;
    var i := 0;
    assert rows[0..] == rows;
    while i < |rows|
      invariant 0 <= i <= |rows|
      invariant InsertLinks(links, rows) == InsertLinks(grown, rows[i..])
    {
      if rows[i] in grown {
        return None;
      }
      assert rows[i..][1..] == rows[i + 1..];
      grown := grown + {rows[i]};
      i := i + 1;
    }
    after := Some(grown);
  }

  class TransferRepository {
    var store: Store
    var cases: map<Id, Case>
    var analyses: map<Id, Analysis>
    var claims: map<Id, Claim>
    var links: set<Link>

    function View(): Db
      reads this
    {
      Db(store, cases, analyses, claims, links)
    }

    constructor ()
      ensures View() == NOTHING
    {
      store, cases, analyses, claims, links := EMPTY, map[], map[], map[], {};
    }

    /** Every record goes into its table, in a running transaction. */
    method InsertRecords(a: Archive) returns (loaded: Option<Db>)
      ensures loaded == LoadedArchive(View(), a)
    {
      var evidence := EvidenceRepository.InsertRecords(store, a.evidence);
      var newCases := EvidenceRepository.InsertRows(cases, a.cases);
      var newAnalyses := EvidenceRepository.InsertRows(analyses, a.analyses);
      var newClaims := EvidenceRepository.InsertRows(claims, a.claims);
      var newLinks := InsertLinkRows(links, a.links);
      if evidence.None? || newCases.None? || newAnalyses.None? || newClaims.None? || newLinks.None? {
        return None;
      }
      var nextId := PastAll(PastAll(PastAll(evidence.value.nextId, a.cases), a.analyses), a.claims);
      loaded := Some(Db(evidence.value.(nextId := nextId), newCases.value, newAnalyses.value, newClaims.value, newLinks.value));
    }

    /** `import_project`: insert every record, reset the cursor, validate and commit. */
    method ImportProject(a: Archive) returns (failed: Option<Error>)
      modifies this
      ensures match ImportArchive(old(View()), a)
        case Ok(after) => failed == None && View() == after
        case Err(error) => failed == Some(error) && View() == old(View())
    {
      if a.evidence.project in store.nextSeq {
        return Some(InvalidExport);
      }
      var loaded := InsertRecords(a);
      if loaded.None? {
        return Some(Integrity);
      }
      var after := loaded.value;
      if !ClaimConstraints(after) {
        return Some(Integrity);
      }
      failed := EvidenceRepository.ValidateImport(after.store, a.evidence.project);
      if failed.Some? {
        return;
      }
      if !ClaimsRefer(after) {
        return Some(Integrity);
      }
      store, cases, analyses, claims, links := after.store, after.cases, after.analyses, after.claims, after.links;
    }
  }
}
