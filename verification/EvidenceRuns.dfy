/** Runs of every writer of the evidence store: what they keep, whatever is written and
    imported in whatever order. */
module EvidenceRuns {
  import opened Wrappers
  import opened EvidenceStore
  import opened Transfer
  import opened Investigation
  import opened ClaimTransfer
  import Digraph

  // ---------------------------------------------------------------------
  // Runs of every writer
  // ---------------------------------------------------------------------

  datatype Action =
    | CreateProject
    | AddScope(project: Id, name: string)
    | OpenSession(project: Id, scope: Option<Id>, client: string, external: Option<string>)
    | CloseSession(session: Id)
    | Record(project: Id, context: Context, body: string)
    | Poll(stream: Stream, cursor: nat, delivered: nat)
    | Confirm(stream: Stream, cursor: nat)
    | UpsertMemory(given: Option<Id>, row: Memory, submitted: seq<Id>)
    | Move(memory: Id, status: Status, related: Option<Id>, note: string)
    | ReviewMemory(memory: Id, review: ReviewAction, related: Option<Id>, conflict: Option<Id>, note: string)
    | Checkpoint(final: Final)
    | Relate(project: Id, memory: Id, other: Id, relation: Relation, note: string)
    | Maintain(due: set<Id>)
    | ImportProject(archive: Archive)
    | OpenCase(project: Id, scope: Option<Id>)
    | Analyse(investigation: Id, reader: Option<Id>, source: Source, claims: seq<ClaimInput>)
    | CompleteCase(investigation: Id)

  function AfterOrSame(s: Store, r: Result<Store, Error>): Store {
    if r.Ok? then r.value else s
  }

  /** The store after one of the store's own writers. */
  function StoreStep(s: Store, a: Action): Store {
    match a
    case CreateProject => NewProject(s)
    case AddScope(p, name) => AfterOrSame(s, NewScope(s, p, name))
    case OpenSession(p, scope, client, external) => AfterOrSame(s, StartSession(s, p, scope, client, external))
    case CloseSession(x) => AfterOrSame(s, EndSession(s, x))
    case Record(p, c, body) => AfterOrSame(s, RecordEvent(s, p, c, body))
    case Poll(k, cursor, delivered) => AfterOrSame(s, Deliver(s, k, cursor, delivered))
    case Confirm(k, cursor) => AfterOrSame(s, Acknowledge(s, k, cursor))
    case UpsertMemory(given, row, submitted) =>
      var r := Upsert(s, given, row, submitted);
      if r.Ok? then r.value.0 else s
    case Move(m, status, related, note) => AfterOrSame(s, Transition(s, m, status, related, note))
    case ReviewMemory(m, review, related, conflict, note) => Review(s, m, review, related, conflict, note).0
    case Checkpoint(f) => AfterOrSame(s, FinalCheckpoint(s, f))
    case Relate(p, m, other, relation, note) => AfterOrSame(s, CreateRelation(s, p, m, other, relation, note))
    case _ => s
  }

  function ClaimedMemories(db: Db): set<Id> {
    set c | c in db.claims && db.claims[c].memory.Some? :: db.claims[c].memory.value
  }

  /** Deleting a claim's memory aborts maintenance: claims are append-only rows. */
  function MaintainStep(db: Db, due: set<Id>): Db {
    if due * ClaimedMemories(db) == {} then db.(store := Purge(db.store, due)) else db
  }

  function OpenStep(db: Db, p: Id, scope: Option<Id>): Db {
    if p !in db.store.nextSeq || !OwnScope(db.store, p, scope) then db
    else db.(cases := db.cases[db.store.nextId := Case(p, scope, true)], store := db.store.(nextId := db.store.nextId + 1))
  }

  function ImportStep(db: Db, a: Archive): Db {
    if ImportArchive(db, a).Ok? then ImportArchive(db, a).value else db
  }

  ghost function Step(db: Db, a: Action): Db {
    if a.Maintain? then MaintainStep(db, a.due)
    else if a.OpenCase? then OpenStep(db, a.project, a.scope)
    else if a.Analyse? then RecordAnalysis(db, a.investigation, a.reader, a.source, a.claims).0
    else if a.CompleteCase? then CompleteStep(db, a.investigation)
    else if a.ImportProject? then ImportStep(db, a.archive)
    else db.(store := StoreStep(db.store, a))
  }

  /** An import that commits brings evidence it keeps the store's rules with; see `ImportKeeps`. */
  ghost predicate EvidenceAllowed(db: Db, a: Action) {
    a.ImportProject? && ImportArchive(db, a.archive).Ok? ==>
      NumbersInOrder(a.archive.evidence) && LinksStay(db.store, a.archive.evidence) && ForeignSourced(db.store, a.archive.evidence)
  }

  /** ... and investigations it keeps the claim graph sound with; see `ImportGraph`. */
  ghost predicate ClaimsAllowed(db: Db, a: Action) {
    a.ImportProject? && ImportArchive(db, a.archive).Ok? ==> SoundRecords(db, a.archive)
  }

  lemma {:induction false} StoreStepInv(s: Store, a: Action, t: Store)
    requires Inv(s) && t == StoreStep(s, a)
    ensures Inv(t)
  {
    if t == s {
      return;
    }
    match a {
      case CreateProject =>
        NewProjectKeeps(s, t);
        return;
      case AddScope(p, name) =>
        NewScopeKeeps(s, p, name, t);
        return;
      case OpenSession(p, scope, client, external) =>
        StartSessionKeeps(s, p, scope, client, external, t);
        return;
      case CloseSession(x) =>
        EndSessionKeeps(s, x, t);
        return;
      case Record(p, c, body) =>
        InsertEventKeeps(s, p, c, body, t);
        return;
      case Poll(k, cursor, delivered) =>
        DeliverKeeps(s, k, cursor, delivered, t);
        return;
      case Confirm(k, cursor) =>
        AcknowledgeKeeps(s, k, cursor, t);
        return;
      case UpsertMemory(given, row, submitted) =>
        UpsertKeeps(s, given, row, submitted, t, Upsert(s, given, row, submitted).value.1);
        return;
      case Move(m, status, related, note) =>
        TransitionKeeps(s, m, status, related, note, t);
        return;
      case ReviewMemory(m, review, related, conflict, note) =>
        ReviewKeeps(s, m, review, related, conflict, note, t);
        return;
      case Checkpoint(f) =>
        FinalCheckpointKeeps(s, f, t);
        return;
      case Relate(p, m, other, relation, note) =>
        AddEdgeKeeps(s, (m, other, relation), Edge(p, note), t);
        return;
      case _ =>
    }
  }

  lemma {:induction false} TransitionHolds(s: Store, m: Id, status: Status, related: Option<Id>, note: string, t: Store)
    requires Transition(s, m, status, related, note) == Ok(t)
    ensures Keeps(s, t) && (Issued(s) ==> Issued(t))
  {
    assert t == s.(memories := t.memories, edges := t.edges);
    assert t.memories == s.memories[m := s.memories[m].(status := status)];
    StatusHolds(s, m, status, t);
  }

  lemma {:induction false} StatusHolds(s: Store, m: Id, status: Status, t: Store)
    requires m in s.memories && t == s.(memories := s.memories[m := s.memories[m].(status := status)], edges := t.edges)
    ensures Keeps(s, t) && (Issued(s) ==> Issued(t))
  {
  }

  lemma {:induction false} ReviewHolds(s: Store, m: Id, action: ReviewAction, related: Option<Id>, conflict: Option<Id>, note: string, t: Store)
    requires t == Review(s, m, action, related, conflict, note).0
    ensures Keeps(s, t) && (Issued(s) ==> Issued(t))
  {
    if t == s {
      return;
    }
    if action in {Approve, Reject} {
      TransitionHolds(s, m, if action == Approve then Active else Rejected, None, note, t);
      return;
    }
    var target := if related.Some? then related.value else conflict.value;
    var approved := Transition(s, m, Active, None, note).value;
    TransitionHolds(s, m, Active, None, note, approved);
    if t != approved {
      TransitionHolds(approved, target, if action == Supersede then Superseded else Disputed, Some(m), note, t);
    }
  }

  lemma {:induction false} UpsertHolds(s: Store, given: Option<Id>, row: Memory, submitted: seq<Id>, t: Store, m: Id)
    requires Issued(s) && Upsert(s, given, row, submitted) == Ok((t, m))
    ensures Keeps(s, t) && Issued(t)
  {
    LinkSourcesExact(s.sources, m, submitted);
  }

  lemma {:induction false} InsertEventHolds(s: Store, p: Id, c: Context, body: string, t: Store)
    requires Issued(s) && p in s.nextSeq && t == InsertEvent(s, p, c, body)
    ensures Keeps(s, t) && Issued(t)
  {
  }

  lemma {:induction false} InsertHandoffHolds(s: Store, row: Memory, evidence: seq<Id>, t: Store)
    requires Issued(s) && row.project in s.nextSeq && t == InsertHandoff(s, row, evidence)
    ensures Keeps(s, t) && Issued(t)
  {
    LinkSourcesExact(s.sources, s.nextId, evidence);
  }

  lemma {:induction false} EndSessionHolds(s: Store, x: Id, t: Store)
    requires Issued(s) && EndSession(s, x) == Ok(t)
    ensures Keeps(s, t) && Issued(t)
  {
  }

  lemma {:induction false} PublishHandoffHolds(s: Store, row: Memory, evidence: seq<Id>, previous: Option<Id>, t: Store)
    requires Issued(s) && row.project in s.nextSeq && (previous.Some? ==> previous.value in s.memories)
    requires t == PublishHandoff(s, row, evidence, previous)
    ensures Keeps(s, t) && Issued(t)
  {
    var inserted := InsertHandoff(s, row, evidence);
    InsertHandoffHolds(s, row, evidence, inserted);
    if previous.Some? {
      StatusHolds(inserted, previous.value, Superseded, t);
      KeepsOn(s, inserted, t);
    }
  }

  lemma {:induction false} CheckpointHolds(s: Store, f: Final, t: Store)
    requires Issued(s) && FinalCheckpoint(s, f) == Ok(t)
    ensures Keeps(s, t) && Issued(t)
  {
    var c, evidence := Context(FinalScope(s, f), Some(f.session)), [s.nextId] + f.verified;
    var s1 := InsertEvent(s, f.project, c, f.body);
    InsertEventHolds(s, f.project, c, f.body, s1);
    var s2 := PublishHandoff(s1, HandoffRow(s, f), evidence, f.previous);
    PublishHandoffHolds(s1, HandoffRow(s, f), evidence, f.previous, s2);
    KeepsOn(s, s1, s2);
    EndSessionHolds(s2, f.session, t);
    KeepsOn(s, s2, t);
  }

  lemma {:induction false} KeepsOn(s: Store, t: Store, u: Store)
    requires Keeps(s, t) && Keeps(t, u)
    ensures Keeps(s, u)
  {
  }

  lemma {:induction false} MemoryStepHolds(s: Store, a: Action, t: Store)
    requires Issued(s) && t == StoreStep(s, a) && t != s && (a.UpsertMemory? || a.Move? || a.ReviewMemory? || a.Checkpoint?)
    ensures Keeps(s, t) && Issued(t)
  {
    if a.UpsertMemory? {
      UpsertHolds(s, a.given, a.row, a.submitted, t, Upsert(s, a.given, a.row, a.submitted).value.1);
      return;
    }
    if a.Move? {
      TransitionHolds(s, a.memory, a.status, a.related, a.note, t);
      return;
    }
    if a.ReviewMemory? {
      ReviewHolds(s, a.memory, a.review, a.related, a.conflict, a.note, t);
      return;
    }
    CheckpointHolds(s, a.final, t);
  }

  lemma {:induction false} RowStepHolds(s: Store, a: Action, t: Store)
    requires Issued(s) && t == StoreStep(s, a) && t != s && (a.CreateProject? || a.AddScope? || a.OpenSession? || a.CloseSession?)
    ensures Keeps(s, t) && Issued(t)
  {
    if a.CreateProject? {
      NewProjectHolds(s, t);
      return;
    }
    if a.AddScope? {
      NewScopeHolds(s, a.project, a.name, t);
      return;
    }
    if a.OpenSession? {
      StartSessionHolds(s, a.project, a.scope, a.client, a.external, t);
      return;
    }
    EndSessionHolds(s, a.session, t);
  }

  /** Whatever a writer does, no row is lost and identifiers stay above those in use. */
  lemma {:induction false} StoreStepHolds(s: Store, a: Action, t: Store)
    requires Issued(s) && t == StoreStep(s, a)
    ensures Keeps(s, t) && Issued(t)
  {
    if t == s {
      return;
    }
    if a.CreateProject? || a.AddScope? || a.OpenSession? || a.CloseSession? {
      RowStepHolds(s, a, t);
      return;
    }
    if a.UpsertMemory? || a.Move? || a.ReviewMemory? || a.Checkpoint? {
      MemoryStepHolds(s, a, t);
      return;
    }
    if a.Record? {
      InsertEventHolds(s, a.project, a.context, a.body, t);
      return;
    }
    if a.Poll? {
      DeliverHolds(s, a.stream, a.cursor, a.delivered, t);
      return;
    }
    if a.Confirm? {
      AcknowledgeHolds(s, a.stream, a.cursor, t);
      return;
    }
    if a.Relate? {
      RelationHolds(s, a.project, a.memory, a.other, a.relation, a.note, t);
      return;
    }
  }

  lemma {:induction false} ReceiptHolds(s: Store, k: Stream, r: Receipt, t: Store)
    requires Issued(s) && t == s.(receipts := s.receipts[k := r])
    ensures Keeps(s, t) && Issued(t)
  {
  }

  lemma {:induction false} DeliverHolds(s: Store, k: Stream, cursor: nat, delivered: nat, t: Store)
    requires Issued(s) && Deliver(s, k, cursor, delivered) == Ok(t)
    ensures Keeps(s, t) && Issued(t)
  {
    if k !in s.receipts {
      ReceiptHolds(s, k, Receipt(cursor, delivered), t);
      return;
    }
    if t != s {
      ReceiptHolds(s, k, s.receipts[k].(delivered := delivered), t);
    }
  }

  lemma {:induction false} AcknowledgeHolds(s: Store, k: Stream, cursor: nat, t: Store)
    requires Issued(s) && Acknowledge(s, k, cursor) == Ok(t)
    ensures Keeps(s, t) && Issued(t)
  {
    ReceiptHolds(s, k, s.receipts[k].(acknowledged := cursor), t);
  }

  lemma {:induction false} RelationHolds(s: Store, p: Id, a: Id, b: Id, relation: Relation, note: string, t: Store)
    requires Issued(s) && CreateRelation(s, p, a, b, relation, note) == Ok(t)
    ensures Keeps(s, t) && Issued(t)
  {
    OthersHold(s, t);
  }

  lemma {:induction false} OthersHold(s: Store, t: Store)
    requires Issued(s) && t == s.(receipts := t.receipts, edges := t.edges)
    ensures Keeps(s, t) && Issued(t)
  {
  }

  lemma {:induction false} NewProjectHolds(s: Store, t: Store)
    requires Issued(s) && t == NewProject(s)
    ensures Keeps(s, t) && Issued(t)
  {
  }

  lemma {:induction false} NewScopeHolds(s: Store, p: Id, name: string, t: Store)
    requires Issued(s) && NewScope(s, p, name) == Ok(t)
    ensures Keeps(s, t) && Issued(t)
  {
  }

  lemma {:induction false} SessionRowHolds(s: Store, row: Session, t: Store)
    requires Issued(s) && row.project in s.nextSeq
    requires t == s.(sessions := s.sessions[s.nextId := row], nextId := s.nextId + 1)
    ensures Keeps(s, t) && Issued(t)
  {
  }

  lemma {:induction false} StartSessionHolds(s: Store, p: Id, scope: Option<Id>, client: string, external: Option<string>, t: Store)
    requires Issued(s) && StartSession(s, p, scope, client, external) == Ok(t)
    ensures Keeps(s, t) && Issued(t)
  {
    if t != s {
      SessionRowHolds(s, Session(p, scope, client, external, false), t);
    }
  }

  lemma {:induction false} MaintainGraph(db: Db, due: set<Id>, t: Db)
    requires Graph(db) && Issued(db.store) && t == MaintainStep(db, due)
    ensures Graph(t) && Issued(t.store)
  {
    GraphRules(db);
    if due * ClaimedMemories(db) == {} {
      forall c | c in db.claims ensures ClaimOk(t, db.claims[c]) {
        assert ClaimOk(db, db.claims[c]);
        assert db.claims[c].memory.value in ClaimedMemories(db);
        assert db.claims[c].memory.value !in due * ClaimedMemories(db);
      }
      StoreChange(db, t.store);
    }
  }

  lemma {:induction false} CasesGraph(db: Db, t: Db)
    requires Graph(db) && t == db.(cases := t.cases, store := db.store.(nextId := t.store.nextId))
    requires t.store.nextId >= db.store.nextId && CasesOk(t)
    requires forall i :: i in db.cases ==> i in t.cases && t.cases[i].project == db.cases[i].project
    ensures Graph(t)
  {
    GraphRules(db);
    GraphRules(t);
    forall c | c in t.claims ensures c < t.store.nextId && ClaimOk(t, t.claims[c]) {
      assert ClaimOk(db, db.claims[c]);
    }
  }

  /** Actions of the store's own writers. */
  predicate OfStore(a: Action) {
    !a.Maintain? && !a.OpenCase? && !a.Analyse? && !a.CompleteCase? && !a.ImportProject?
  }

  lemma {:induction false} OpenStepGraph(db: Db, p: Id, scope: Option<Id>, t: Db)
    requires Graph(db) && Issued(db.store) && t == OpenStep(db, p, scope)
    ensures Graph(t) && Issued(t.store)
  {
    if t == db {
      return;
    }
    GraphRules(db);
    assert CasesOk(t);
    CasesGraph(db, t);
  }

  lemma {:induction false} CompleteStepGraph(db: Db, i: Id, t: Db)
    requires Graph(db) && Issued(db.store) && t == CompleteStep(db, i)
    ensures Graph(t) && Issued(t.store)
  {
    GraphRules(db);
    assert CasesOk(t);
    CasesGraph(db, t);
  }

  lemma {:induction false} StoreStepGraph(db: Db, t: Db)
    requires Graph(db) && Keeps(db.store, t.store) && t == db.(store := t.store)
    ensures Graph(t)
  {
    KeepsHolds(db, t.store);
    StoreChange(db, t.store);
  }

  lemma {:induction false} StepGraph(db: Db, a: Action, t: Db)
    requires Graph(db) && Issued(db.store) && ClaimsAllowed(db, a) && t == Step(db, a)
    ensures Graph(t)
  {
    if t == db {
      return;
    }
    if a.Maintain? {
      MaintainGraph(db, a.due, t);
      return;
    }
    if a.OpenCase? {
      OpenStepGraph(db, a.project, a.scope, t);
      return;
    }
    if a.CompleteCase? {
      CompleteStepGraph(db, a.investigation, t);
      return;
    }
    if a.Analyse? {
      RecordAnalysisGraph(db, a.investigation, a.reader, a.source, a.claims, t);
      return;
    }
    if a.ImportProject? {
      ImportGraph(db, a.archive, t);
      return;
    }
    StoreStepHolds(db.store, a, t.store);
    StoreStepGraph(db, t);
  }

  lemma {:induction false} ImportStepInv(db: Db, a: Archive, t: Db)
    requires Inv(db.store) && ImportArchive(db, a) == Ok(t)
    requires NumbersInOrder(a.evidence) && LinksStay(db.store, a.evidence) && ForeignSourced(db.store, a.evidence)
    ensures Inv(t.store)
  {
    ArchiveImports(db, a, t);
    var evidence := EvidenceOf(db, a, t);
    ImportKeeps(db.store, a.evidence, evidence);
    ArchiveIds(evidence.nextId, a);
    LaterId(evidence, t.store.nextId, t.store);
  }

  lemma {:induction false} StepStore(db: Db, a: Action, t: Db)
    requires Inv(db.store) && EvidenceAllowed(db, a) && t == Step(db, a)
    ensures Inv(t.store)
  {
    if OfStore(a) {
      StoreStepInv(db.store, a, t.store);
      return;
    }
    if t.store == db.store {
      return;
    }
    if a.ImportProject? {
      ImportStepInv(db, a.archive, t);
      return;
    }
    if a.Maintain? {
      PurgeKeeps(db.store, a.due, t.store);
      return;
    }
    if a.OpenCase? {
      LaterId(db.store, db.store.nextId + 1, t.store);
      return;
    }
    RecordAnalysisStore(db, a.investigation, a.reader, a.source, a.claims, t);
  }

  ghost function Run(actions: seq<Action>): Db {
    if actions == [] then NOTHING else Step(Run(actions[..|actions| - 1]), actions[|actions| - 1])
  }

  // ---------------------------------------------------------------------
  // What the tables enforce
  // ---------------------------------------------------------------------

  lemma {:induction false} ImportConsistent(db: Db, a: Archive, t: Db)
    requires Consistent(db) && ImportArchive(db, a) == Ok(t)
    ensures Consistent(t)
  {
    ArchiveHolds(db, a, t);
    ArchiveImports(db, a, t);
    NextIdCovers(db.store, a.evidence);
    ArchiveIds(NextId(db.store, a.evidence), a);
    KeysBelow(db.analyses, a.analyses, t.analyses, t.store.nextId);
    KeysBelow(db.claims, a.claims, t.claims, t.store.nextId);
    forall c | c in t.claims ensures t.claims[c].analysis in t.analyses && t.claims[c].event in t.store.events {
      assert ClaimRefers(t, t.claims[c]);
    }
  }

  /** The same claims over a store with at least the same events. */
  lemma {:induction false} SameClaimsConsistent(db: Db, t: Db)
    requires Consistent(db) && Issued(t.store) && t.analyses == db.analyses && t.claims == db.claims
    requires db.store.nextId <= t.store.nextId && forall e :: e in db.store.events ==> e in t.store.events
    ensures Consistent(t)
  {
  }

  lemma {:induction false} StepConsistent(db: Db, a: Action, t: Db)
    requires Consistent(db) && t == Step(db, a)
    ensures Consistent(t)
  {
    if t == db {
      return;
    }
    if a.ImportProject? {
      ImportConsistent(db, a.archive, t);
      return;
    }
    if a.Analyse? {
      RecordAnalysisConsistent(db, a.investigation, a.reader, a.source, a.claims, t);
      return;
    }
    if OfStore(a) {
      StoreStepHolds(db.store, a, t.store);
    }
    SameClaimsConsistent(db, t);
  }

  /** In every run, whatever it imports, keys are unique and claims name rows that exist. */
  lemma {:induction false} RunConsistent(actions: seq<Action>)
    ensures Consistent(Run(actions))
  {
    if actions == [] {
      EmptyObeys();
      Rules(EMPTY);
      return;
    }
    var front, a := actions[..|actions| - 1], actions[|actions| - 1];
    RunConsistent(front);
    StepConsistent(Run(front), a, Run(actions));
  }

  // ---------------------------------------------------------------------
  // What they do not
  // ---------------------------------------------------------------------

  /** Every committed import of the run brings investigations that fit. */
  ghost predicate AllClaimsAllowed(actions: seq<Action>) {
    actions == [] ||
      (AllClaimsAllowed(actions[..|actions| - 1]) && ClaimsAllowed(Run(actions[..|actions| - 1]), actions[|actions| - 1]))
  }

  /** The claim graph is sound throughout the run. */
  ghost predicate SoundThroughout(actions: seq<Action>) {
    Graph(Run(actions)) && (actions == [] || SoundThroughout(actions[..|actions| - 1]))
  }

  /** Other writers keep the claim graph sound, and an import does when its records fit: the
      graph is sound throughout a run if and only if every committed import brought
      investigations that fit. */
  lemma {:induction false} RunGraph(actions: seq<Action>)
    ensures SoundThroughout(actions) <==> AllClaimsAllowed(actions)
  {
    if actions == [] {
      NothingSound();
      return;
    }
    var front, a := actions[..|actions| - 1], actions[|actions| - 1];
    RunGraph(front);
    RunConsistent(front);
    if AllClaimsAllowed(front) {
      LastGraph(Run(front), a, Run(actions));
    }
  }

  lemma {:induction false} LastGraph(db: Db, a: Action, t: Db)
    requires Graph(db) && Issued(db.store) && t == Step(db, a)
    ensures Graph(t) <==> ClaimsAllowed(db, a)
  {
    if ClaimsAllowed(db, a) {
      StepGraph(db, a, t);
    } else {
      ImportGraph(db, a.archive, t);
    }
  }

  lemma {:induction false} ImportRun(a: Archive, t: Db)
    requires ImportArchive(NOTHING, a) == Ok(t) && !Graph(t)
    ensures Run([ImportProject(a)]) == t && !SoundThroughout([ImportProject(a)])
  {
    var actions := [ImportProject(a)];
    assert actions[..0] == [];
    assert Run(actions) == ImportStep(NOTHING, a);
  }

  /** A run whose only action imports the circular project. */
  lemma {:induction false} CircularRun()
    ensures Run([ImportProject(CIRCULAR)]) == CIRCULARDB && !SoundThroughout([ImportProject(CIRCULAR)])
  {
    CircularImports();
    ImportRun(CIRCULAR, CIRCULARDB);
  }

  /** Every committed import of the run brings evidence that fits. */
  ghost predicate AllEvidenceAllowed(actions: seq<Action>) {
    actions == [] ||
      (AllEvidenceAllowed(actions[..|actions| - 1]) && EvidenceAllowed(Run(actions[..|actions| - 1]), actions[|actions| - 1]))
  }

  /** And the store obeys all its rules, if each import that commits is one that keeps them. */
  lemma {:induction false} RunSound(actions: seq<Action>, db: Db)
    requires AllEvidenceAllowed(actions) && db == Run(actions)
    ensures Inv(db.store)
  {
    if actions == [] {
      EmptyObeys();
      return;
    }
    var front, a := actions[..|actions| - 1], actions[|actions| - 1];
    RunSound(front, Run(front));
    StepStore(Run(front), a, db);
  }

  // ---------------------------------------------------------------------
  // What holds after any run
  // ---------------------------------------------------------------------

  /** An active memory always has a source event of its own project. */
  lemma {:induction false} ActiveHasEvidence(actions: seq<Action>, db: Db, m: Id) returns (e: Id)
    requires AllEvidenceAllowed(actions) && db == Run(actions)
    requires m in db.store.memories && db.store.memories[m].status == Active
    ensures (m, e) in db.store.sources && EventOf(db.store, db.store.memories[m].project, e)
  {
    RunSound(actions, db);
    e := SourceOf(db.store, m);
  }

  lemma {:induction false} SourceOf(s: Store, m: Id) returns (e: Id)
    requires Inv(s) && m in s.memories && s.memories[m].status == Active
    ensures (m, e) in s.sources && EventOf(s, s.memories[m].project, e)
  {
    Rules(s);
    assert Sourced(s, m);
    e :| (m, e) in s.sources && e in s.events && s.events[e].project == s.memories[m].project;
  }

  /** Every claim rests, through links, on an evidence claim of its own investigation ... */
  lemma {:induction false} EveryClaimGrounded(actions: seq<Action>, db: Db, c: Id) returns (path: seq<Id>)
    requires AllClaimsAllowed(actions) && db == Run(actions) && c in db.claims
    ensures GroundedBy(db, c, path)
  {
    RunGraph(actions);
    GraphRules(db);
    path := ClaimGrounded(db, c);
  }

  /** ... and never on itself. */
  lemma {:induction false} NoCircularClaims(actions: seq<Action>, db: Db, path: seq<Id>)
    requires AllClaimsAllowed(actions) && db == Run(actions) && Digraph.IsPath(Arcs(db.links), path) && |path| > 1
    ensures path[0] != path[|path| - 1]
  {
    RunGraph(actions);
    GraphRules(db);
  }

  lemma {:induction false} StepKeepsAnalysis(db: Db, a: Action, investigation: Id, identity: (string, string, string), x: Id)
    requires Consistent(db) && AnalysedAs(db, investigation, identity, x)
    ensures AnalysedAs(Step(db, a), investigation, identity, x)
  {
    if a.Analyse? {
      RecordedAllOrNothing(db, a.investigation, a.reader, a.source, a.claims);
    } else if a.ImportProject? && ImportArchive(db, a.archive).Ok? {
      ArchiveImports(db, a.archive, ImportArchive(db, a.archive).value);
    }
  }

  lemma {:induction false} LastStep(actions: seq<Action>, front: seq<Action>, a: Action)
    requires actions == front + [a]
    ensures Run(actions) == Step(Run(front), a)
  {
    assert actions[..|actions| - 1] == front;
  }

  lemma {:induction false} RunExtends(actions: seq<Action>, more: seq<Action>, front: seq<Action>, a: Action)
    requires more == front + [a]
    ensures Run(actions + more) == Step(Run(actions + front), a)
  {
    assert actions + more == (actions + front) + [a];
    LastStep(actions + more, actions + front, a);
  }

  lemma {:induction false} AnalysisStays(actions: seq<Action>, more: seq<Action>, investigation: Id, identity: (string, string, string), x: Id)
    requires AnalysedAs(Run(actions), investigation, identity, x)
    ensures AnalysedAs(Run(actions + more), investigation, identity, x)
  {
    if more == [] {
      assert actions + more == actions;
      return;
    }
    var front, a := more[..|more| - 1], more[|more| - 1];
    AnalysisStays(actions, front, investigation, identity, x);
    RunExtends(actions, more, front, a);
    RunConsistent(actions + front);
    StepKeepsAnalysis(Run(actions + front), a, investigation, identity, x);
  }

  /** Once a source identity is recorded, recording it again after any further run, from
      any session and with whatever claims, returns the first analysis and adds no rows,
      as long as the investigation is open. */
  lemma {:induction false} RecordedIdentityReplays(actions: seq<Action>, first: Action, recorded: Recorded, more: seq<Action>,
    reader: Option<Id>, again: Source, newClaims: seq<ClaimInput>)
    requires first.Analyse?
    requires RecordAnalysis(Run(actions), first.investigation, first.reader, first.source, first.claims).1 == Ok(recorded)
    requires Identity(again) == Identity(first.source) && ValidSource(again) && ValidKeys(newClaims)
    requires var t := Run(actions + [first] + more);
      first.investigation in t.cases && t.cases[first.investigation].open
    ensures var t := Run(actions + [first] + more);
      RecordAnalysis(t, first.investigation, reader, again, newClaims) == (t, Ok(Recorded(recorded.analysis, true)))
  {
    var db, identity := Run(actions), Identity(again);
    RunConsistent(actions);
    RecordedAllOrNothing(db, first.investigation, first.reader, first.source, first.claims);
    assert (actions + [first])[..|actions|] == actions;
    AnalysisStays(actions + [first], more, first.investigation, identity, recorded.analysis);
    var t := Run(actions + [first] + more);
    RunConsistent(actions + [first] + more);
    ReplaysKnown(t, first.investigation, reader, again, newClaims, recorded.analysis);
  }

  lemma {:induction false} ReplaysKnown(t: Db, investigation: Id, reader: Option<Id>, again: Source, newClaims: seq<ClaimInput>, x: Id)
    requires Consistent(t) && AnalysedAs(t, investigation, Identity(again), x)
    requires investigation in t.cases && t.cases[investigation].open && ValidSource(again) && ValidKeys(newClaims)
    ensures RecordAnalysis(t, investigation, reader, again, newClaims) == (t, Ok(Recorded(x, true)))
  {
  }

  lemma {:induction false} ExportToNothing(db: Db, p: Id, a: Archive)
    requires Sound(db) && IsArchive(db, p, a)
    ensures if Contained(db.store, p) then ImportArchive(NOTHING, a).Ok? && RestoredArchive(db, p, a, ImportArchive(NOTHING, a).value)
            else ImportArchive(NOTHING, a) == Err(Integrity)
  {
    NothingSound();
    ArchiveRoundTrip(db, p, a, NOTHING);
    ArchiveLoadsIffContained(db, p, a, NOTHING);
  }

  /** A project of a reachable database can be exported and imported into an empty one, with
      its investigations, if and only if every scope and session its rows name is its own; the
      copy then exports the same archive again. */
  lemma {:induction false} EveryExportImports(actions: seq<Action>, db: Db, p: Id, a: Archive)
    requires AllEvidenceAllowed(actions) && AllClaimsAllowed(actions) && db == Run(actions)
    requires IsArchive(db, p, a)
    ensures ImportArchive(NOTHING, a).Ok? <==> Contained(db.store, p)
    ensures ImportArchive(NOTHING, a).Ok? ==> RestoredArchive(db, p, a, ImportArchive(NOTHING, a).value)
  {
    RunSound(actions, db);
    RunGraph(actions);
    ExportToNothing(db, p, a);
  }

  /** Two projects, a scope of the second, and an event of the first that names it. */
  const STRAY: seq<Action> := [CreateProject, CreateProject, AddScope(1, "src"), Record(0, Context(Some(2), None), "c")]

  /** The export of the first project carries the event but not the scope. */
  const STRAYARCHIVE :=
    Archive(Bundle(0, [], [], [(3, Event(0, 1, Context(Some(2), None), "c"))], [], [], [], []), [], [], [], [])

  const STRAYSTORE := Store(map[0 := 2, 1 := 1], map[2 := Scope(1, "src")], map[],
    map[3 := Event(0, 1, Context(Some(2), None), "c")], map[], map[], map[], map[], 4)

  lemma {:induction false} StrayBegins()
    ensures Run([CreateProject, CreateProject]).store == Store(map[0 := 1, 1 := 1], map[], map[], map[], map[], map[], map[], map[], 2)
  {
    assert [CreateProject, CreateProject][..1] == [CreateProject] && [CreateProject][..0] == [];
    assert Run([CreateProject]).store == NewProject(EMPTY);
  }

  lemma {:induction false} StrayScoped()
    ensures Run(STRAY[..3]).store == Store(map[0 := 1, 1 := 1], map[2 := Scope(1, "src")], map[], map[], map[], map[], map[], map[], 3)
  {
    StrayBegins();
    assert STRAY[..3][..2] == [CreateProject, CreateProject] && STRAY[..3][2] == AddScope(1, "src");
  }

  lemma {:induction false} StrayRun()
    ensures Run(STRAY).store == STRAYSTORE
  {
    StrayScoped();
    var s := Run(STRAY[..3]).store;
    var a := Record(0, Context(Some(2), None), "c");
    LastStep(STRAY, STRAY[..3], a);
    assert KnownContext(s, Context(Some(2), None));
    assert StoreStep(s, a) == InsertEvent(s, 0, Context(Some(2), None), "c");
  }

  lemma {:induction false} NoImportsAllowed(actions: seq<Action>)
    requires forall i :: 0 <= i < |actions| ==> !actions[i].ImportProject?
    ensures AllEvidenceAllowed(actions) && AllClaimsAllowed(actions)
  {
    if actions != [] {
      NoImportsAllowed(actions[..|actions| - 1]);
    }
  }

  lemma {:induction false} StrayTables(actions: seq<Action>)
    requires forall i :: 0 <= i < |actions| ==> !actions[i].ImportProject? && !actions[i].OpenCase? && !actions[i].Analyse?
    ensures Run(actions).cases == map[] && Run(actions).analyses == map[] && Run(actions).claims == map[] && Run(actions).links == {}
  {
    if actions != [] {
      StrayTables(actions[..|actions| - 1]);
    }
  }

  lemma {:induction false} StrayExport()
    ensures IsExport(STRAYSTORE, 0, STRAYARCHIVE.evidence) && !Contained(STRAYSTORE, 0)
  {
    var s := STRAYSTORE;
    assert EventsOf(s, 0) == {3} && ScopesOf(s, 0) == {} && MemoriesOf(s, 0) == {};
    assert STRAYARCHIVE.evidence.events[0].0 == 3;
  }

  lemma {:induction false} StrayArchive(db: Db)
    requires db.store == STRAYSTORE && db.cases == map[] && db.analyses == map[] && db.claims == map[] && db.links == {}
    ensures IsArchive(db, 0, STRAYARCHIVE)
  {
    StrayExport();
    assert CasesOf(db, 0) == {} && AnalysesOf(db, 0) == {} && ClaimsOf(db, 0) == {} && LinksOf(db, 0) == {};
  }

  lemma {:induction false} StraySound()
    ensures Sound(Run(STRAY)) && IsArchive(Run(STRAY), 0, STRAYARCHIVE)
  {
    StrayRun();
    StrayTables(STRAY);
    StrayArchive(Run(STRAY));
    NoImportsAllowed(STRAY);
    RunSound(STRAY, Run(STRAY));
    RunGraph(STRAY);
  }

  /** So the export of a reachable project may not import anywhere else. */
  lemma {:induction false} StrayScopeStopsImport()
    ensures Run(STRAY).store == STRAYSTORE && IsArchive(Run(STRAY), 0, STRAYARCHIVE)
    ensures ImportArchive(NOTHING, STRAYARCHIVE) == Err(Integrity)
  {
    StrayRun();
    StrayExport();
    StraySound();
    ExportToNothing(Run(STRAY), 0, STRAYARCHIVE);
  }
}
