/** What an import does, row by row: when it is refused and with which error, and exactly which
    rows it leaves. */
module TransferEffects {
  import opened Wrappers
  import opened EvidenceStore
  import opened Transfer
  import opened Investigation
  import opened ClaimTransfer

  // ---------------------------------------------------------------------
  // Evidence
  // ---------------------------------------------------------------------

  /** Every record brings a key that is neither stored nor brought twice. */
  ghost predicate KeysFree(s: Store, b: Bundle) {
    && DistinctKeys(b.scopes) && NewKeys(s.scopes, b.scopes) && DistinctKeys(b.sessions) && NewKeys(s.sessions, b.sessions)
    && DistinctKeys(b.events) && NewKeys(s.events, b.events) && DistinctKeys(b.memories) && NewKeys(s.memories, b.memories)
    && DistinctKeys(b.sources) && NewKeys(s.sources, b.sources) && DistinctKeys(b.edges) && NewKeys(s.edges, b.edges)
    && DistinctKeys(b.receipts) && NewKeys(s.receipts, b.receipts)
  }

  /** An event keeps its number; one without takes its place in the bundle. */
  function Numbering(b: Bundle, i: nat): Event
    requires i < |b.events|
  {
    var row := b.events[i].1;
    Event(row.project, if row.seqNo == 0 then i + 1 else row.seqNo, row.context, row.body)
  }

  ghost predicate EventsGrown(s: Store, b: Bundle, events: map<Id, Event>) {
    && (forall e :: e in s.events ==> e in events && events[e] == s.events[e])
    && (forall i :: 0 <= i < |b.events| ==> b.events[i].0 in events && events[b.events[i].0] == Numbering(b, i))
    && (forall e :: e in events && e !in s.events ==> exists i :: 0 <= i < |b.events| && b.events[i].0 == e)
  }

  /** Every table holds its old rows and the bundle's, and nothing else; the project's cursor
      is set past as many events as were brought, and the next identifier past all of them. */
  ghost predicate Grown(s: Store, b: Bundle, t: Store) {
    && t.nextSeq == s.nextSeq[b.project := |b.events| + 1]
    && Extends(s.scopes, b.scopes, t.scopes) && Extends(s.sessions, b.sessions, t.sessions)
    && EventsGrown(s, b, t.events) && Extends(s.memories, b.memories, t.memories)
    && Extends(s.sources, b.sources, t.sources) && Extends(s.edges, b.edges, t.edges) && Extends(s.receipts, b.receipts, t.receipts)
    && s.nextId <= t.nextId && b.project < t.nextId
    && Below(b.scopes, t.nextId) && Below(b.sessions, t.nextId) && Below(b.events, t.nextId) && Below(b.memories, t.nextId)
  }

  /** Unique indexes and checks of the tables. */
  ghost predicate IndexesHold(t: Store) {
    && (forall d, e :: d in t.events && e in t.events && d != e ==>
          t.events[d].project != t.events[e].project || t.events[d].seqNo != t.events[e].seqNo)
    && (forall x, y :: x in t.scopes && y in t.scopes && x != y ==> t.scopes[x] != t.scopes[y])
    && (forall x, y :: x in t.sessions && y in t.sessions && x != y && t.sessions[x].external.Some? ==>
          t.sessions[x].project != t.sessions[y].project || t.sessions[x].client != t.sessions[y].client
          || t.sessions[x].external != t.sessions[y].external)
    && (forall k :: k in t.receipts ==> 0 <= t.receipts[k].acknowledged <= t.receipts[k].delivered)
  }

  /** A source link of one of the project's memories that names no event of the project. */
  ghost predicate StrayLink(t: Store, p: Id) {
    exists m, e :: (m, e) in t.sources && m in t.memories && t.memories[m].project == p && !(e in t.events && t.events[e].project == p)
  }

  /** An active memory of the project without a source event of the project. */
  ghost predicate BareMemory(t: Store, p: Id) {
    exists m :: m in t.memories && t.memories[m].project == p && t.memories[m].status == Active && !SourcedIn(t, m, p)
  }

  ghost predicate SourcedIn(t: Store, m: Id, p: Id) {
    exists e :: (m, e) in t.sources && e in t.events && t.events[e].project == p
  }

  /** Every row names rows that exist. */
  ghost predicate ReferencesHold(t: Store) {
    && (forall x :: x in t.scopes ==> t.scopes[x].project in t.nextSeq)
    && (forall x :: x in t.sessions ==> t.sessions[x].project in t.nextSeq && (t.sessions[x].scope.Some? ==> t.sessions[x].scope.value in t.scopes))
    && (forall e :: e in t.events ==> t.events[e].project in t.nextSeq && ContextExists(t, t.events[e].context))
    && (forall m :: m in t.memories ==> t.memories[m].project in t.nextSeq && (t.memories[m].scope.Some? ==> t.memories[m].scope.value in t.scopes))
    && (forall m, e :: (m, e) in t.sources ==> m in t.memories && e in t.events)
    && (forall k :: k in t.edges ==> k.0 in t.memories && k.1 in t.memories && t.edges[k].project in t.nextSeq)
    && (forall k :: k in t.receipts ==> k.project in t.nextSeq)
  }

  predicate ContextExists(t: Store, c: Context) {
    (c.scope.Some? ==> c.scope.value in t.scopes) && (c.session.Some? ==> c.session.value in t.sessions)
  }

  /** The checks after the inserts, in their order. */
  ghost predicate Judged(t: Store, p: Id, problem: Option<Error>) {
    if !IndexesHold(t) then problem == Some(Integrity)
    else if StrayLink(t, p) then problem == Some(InvalidSource)
    else if BareMemory(t, p) then problem == Some(NoSource)
    else if !ReferencesHold(t) then problem == Some(Integrity)
    else problem == None
  }

  /** The outcome of importing the evidence: `t` is what the inserts make of the tables. */
  ghost predicate ImportedAs(s: Store, b: Bundle, t: Store, r: Result<Store, Error>) {
    if b.project in s.nextSeq then r == Err(InvalidExport)
    else if !KeysFree(s, b) then r == Err(Integrity)
    else Grown(s, b, t) && Judged(t, b.project, if r.Err? then Some(r.error) else None) && (r.Ok? ==> r.value == t)
  }

  lemma {:induction false} LoadedIffFree(s: Store, b: Bundle)
    ensures Loaded(s, b).Some? <==> KeysFree(s, b)
  {
    InsertAllExact(s.scopes, b.scopes);
    InsertAllExact(s.sessions, b.sessions);
    InsertAllExact(s.events, WithNumbers(b.events));
    NumberedKeys(s.events, b.events);
    InsertAllExact(s.memories, b.memories);
    InsertAllExact(s.sources, b.sources);
    InsertAllExact(s.edges, b.edges);
    InsertAllExact(s.receipts, b.receipts);
  }

  lemma {:induction false} LoadedGrown(s: Store, b: Bundle, t: Store)
    requires LoadedAs(s, b, t)
    ensures Grown(s, b, t)
  {
    NextIdCovers(s, b);
    NumberedGrown(s, b, t.events);
  }

  lemma {:induction false} NumberedGrown(s: Store, b: Bundle, events: map<Id, Event>)
    requires Extends(s.events, WithNumbers(b.events), events)
    ensures EventsGrown(s, b, events)
  {
    var rows := WithNumbers(b.events);
    forall i | 0 <= i < |b.events| ensures b.events[i].0 in events && events[b.events[i].0] == Numbering(b, i) {
      assert events[rows[i].0] == rows[i].1;
    }
    forall e | e in events && e !in s.events ensures exists i :: 0 <= i < |b.events| && b.events[i].0 == e {
      var i :| 0 <= i < |rows| && rows[i].0 == e;
      assert b.events[i].0 == e;
    }
  }

  lemma {:induction false} IndexesAre(t: Store)
    ensures IndexesHold(t) <==> Constraints(t)
  {
  }

  lemma {:induction false} SourcesAre(t: Store, p: Id)
    ensures StrayLink(t, p) <==> InvalidLinks(t, p)
    ensures BareMemory(t, p) <==> MissingSources(t, p)
  {
    if k :| k in t.sources && k.0 in t.memories && t.memories[k.0].project == p && !EventOf(t, p, k.1) {
      assert (k.0, k.1) in t.sources;
    }
    forall m ensures SourcedIn(t, m, p) <==> HasSource(t, m, p) {
      SourcedIs(t, m, p);
    }
  }

  lemma {:induction false} SourcedIs(t: Store, m: Id, p: Id)
    ensures SourcedIn(t, m, p) <==> HasSource(t, m, p)
  {
    if e :| (m, e) in t.sources && e in t.events && t.events[e].project == p {
      assert (m, e).0 == m && EventOf(t, p, (m, e).1);
    }
    if k :| k in t.sources && k.0 == m && EventOf(t, p, k.1) {
      assert (m, k.1) in t.sources;
    }
  }

  lemma {:induction false} ReferencesAre(t: Store)
    ensures ReferencesHold(t) <==> RowsRefer(t) && ContextsRefer(t)
  {
    if ReferencesHold(t) {
      forall k | k in t.sources ensures k.0 in t.memories && k.1 in t.events {
        assert (k.0, k.1) in t.sources;
      }
    }
  }

  lemma {:induction false} ProblemIs(t: Store, p: Id)
    ensures Judged(t, p, ImportProblem(t, p))
  {
    IndexesAre(t);
    SourcesAre(t, p);
    ReferencesAre(t);
  }

  /** What importing a bundle answers, and every row it leaves. */
  lemma {:induction false} ImportEffect(s: Store, b: Bundle) returns (t: Store)
    ensures ImportedAs(s, b, t, Import(s, b))
  {
    t := s;
    LoadedIffFree(s, b);
    if b.project in s.nextSeq || !KeysFree(s, b) {
      return;
    }
    t := Loaded(s, b).value;
    LoadedExtends(s, b, t);
    LoadedGrown(s, b, t);
    ProblemIs(t, b.project);
  }

  // ---------------------------------------------------------------------
  // Whole archives
  // ---------------------------------------------------------------------

  ghost predicate ArchiveKeysFree(db: Db, a: Archive) {
    && KeysFree(db.store, a.evidence)
    && DistinctKeys(a.cases) && NewKeys(db.cases, a.cases) && DistinctKeys(a.analyses) && NewKeys(db.analyses, a.analyses)
    && DistinctKeys(a.claims) && NewKeys(db.claims, a.claims)
    && (forall i, j :: 0 <= i < j < |a.links| ==> a.links[i] != a.links[j])
    && (forall i :: 0 <= i < |a.links| ==> a.links[i] !in db.links)
  }

  ghost predicate ArchiveGrown(db: Db, a: Archive, t: Db) {
    && Grown(db.store, a.evidence, t.store)
    && Extends(db.cases, a.cases, t.cases) && Extends(db.analyses, a.analyses, t.analyses) && Extends(db.claims, a.claims, t.claims)
    && (forall l :: l in t.links <==> l in db.links || l in a.links)
    && Below(a.cases, t.store.nextId) && Below(a.analyses, t.store.nextId) && Below(a.claims, t.store.nextId)
  }

  /** One analysis per investigation and identity, one claim per analysis and key, and one per
      event. */
  ghost predicate ClaimIndexesHold(t: Db) {
    && (forall a, b :: a in t.analyses && b in t.analyses && a != b ==> t.analyses[a] != t.analyses[b])
    && (forall c, d :: c in t.claims && d in t.claims && c != d ==>
          && (t.claims[c].analysis != t.claims[d].analysis || t.claims[c].key != t.claims[d].key)
          && t.claims[c].event != t.claims[d].event)
  }

  ghost predicate ClaimReferencesHold(t: Db) {
    && (forall i :: i in t.cases ==>
          t.cases[i].project in t.store.nextSeq && (t.cases[i].scope.Some? ==> t.cases[i].scope.value in t.store.scopes))
    && (forall x :: x in t.analyses ==> t.analyses[x].investigation in t.cases)
    && (forall c :: c in t.claims ==>
          && t.claims[c].investigation in t.cases && t.claims[c].analysis in t.analyses && t.claims[c].event in t.store.events
          && (t.claims[c].memory.Some? ==> t.claims[c].memory.value in t.store.memories))
    && (forall l :: l in t.links ==> l.from in t.claims && l.to in t.claims)
  }

  ghost predicate ArchiveJudged(t: Db, p: Id, problem: Option<Error>) {
    if !ClaimIndexesHold(t) then problem == Some(Integrity)
    else if Judged(t.store, p, None) then problem == if ClaimReferencesHold(t) then None else Some(Integrity)
    else problem.Some? && Judged(t.store, p, problem)
  }

  ghost predicate ArchiveImportedAs(db: Db, a: Archive, t: Db, r: Result<Db, Error>) {
    if a.evidence.project in db.store.nextSeq then r == Err(InvalidExport)
    else if !ArchiveKeysFree(db, a) then r == Err(Integrity)
    else
      && ArchiveGrown(db, a, t) && ArchiveJudged(t, a.evidence.project, if r.Err? then Some(r.error) else None)
      && (r.Ok? ==> r.value == t)
  }

  lemma {:induction false} ArchiveLoadedIffFree(db: Db, a: Archive)
    ensures LoadedArchive(db, a).Some? <==> ArchiveKeysFree(db, a)
  {
    LoadedIffFree(db.store, a.evidence);
    InsertAllExact(db.cases, a.cases);
    InsertAllExact(db.analyses, a.analyses);
    InsertAllExact(db.claims, a.claims);
    InsertLinksExact(db.links, a.links);
    if forall i :: 0 <= i < |a.links| ==> a.links[i] !in db.links {
      assert db.links !! LinkSet(a.links);
    } else {
      var i :| 0 <= i < |a.links| && a.links[i] in db.links;
      assert a.links[i] in LinkSet(a.links);
    }
  }

  lemma {:induction false} LaterGrown(s: Store, b: Bundle, t: Store, nextId: Id)
    requires Grown(s, b, t) && t.nextId <= nextId
    ensures Grown(s, b, t.(nextId := nextId))
  {
  }

  lemma {:induction false} ArchiveLoadedGrown(db: Db, a: Archive, t: Db)
    requires LoadedArchive(db, a) == Some(t)
    ensures ArchiveGrown(db, a, t)
  {
    var evidence := EvidenceOf(db, a, t);
    ArchiveLoads(db, a, t);
    LoadedExtends(db.store, a.evidence, evidence);
    LoadedGrown(db.store, a.evidence, evidence);
    ArchiveIds(evidence.nextId, a);
    LaterGrown(db.store, a.evidence, evidence, t.store.nextId);
    assert t.store == evidence.(nextId := t.store.nextId);
  }

  lemma {:induction false} ArchiveProblemIs(t: Db, p: Id)
    ensures ArchiveJudged(t, p, ArchiveProblem(t, p))
  {
    ProblemIs(t.store, p);
    ClaimIndexesAre(t);
    assert ClaimReferencesHold(t) <==> ClaimsRefer(t);
  }

  lemma {:induction false} ClaimIndexesAre(t: Db)
    ensures ClaimIndexesHold(t) <==> ClaimConstraints(t)
  {
  }

  /** What importing a whole project answers, and every row it leaves. */
  lemma {:induction false} ArchiveEffect(db: Db, a: Archive) returns (t: Db)
    ensures ArchiveImportedAs(db, a, t, ImportArchive(db, a))
  {
    t := db;
    ArchiveLoadedIffFree(db, a);
    if a.evidence.project in db.store.nextSeq || !ArchiveKeysFree(db, a) {
      return;
    }
    t := LoadedArchive(db, a).value;
    ArchiveLoadedGrown(db, a, t);
    ArchiveProblemIs(t, a.evidence.project);
  }
}
