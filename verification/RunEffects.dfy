/** What one statement of a run does: which writer it calls with which arguments, that a refused
    one changes nothing, and that it touches no other table. */
module RunEffects {
  import opened Wrappers
  import opened EvidenceStore
  import opened Transfer
  import opened Investigation
  import opened ClaimTransfer
  import opened EvidenceRuns
  import TransferEffects

  /** The writer's tables if it commits, the old ones if it is refused. */
  predicate Commits(db: Db, r: Result<Store, Error>, t: Db) {
    t == if r.Ok? then db.(store := r.value) else db
  }

  /** A statement of the store's own writers. */
  lemma {:induction false} WriterRuns(db: Db, a: Action, t: Db)
    requires t == Step(db, a)
    ensures a.CreateProject? ==> t == db.(store := NewProject(db.store))
    ensures a.AddScope? ==> Commits(db, NewScope(db.store, a.project, a.name), t)
    ensures a.OpenSession? ==> Commits(db, StartSession(db.store, a.project, a.scope, a.client, a.external), t)
    ensures a.CloseSession? ==> Commits(db, EndSession(db.store, a.session), t)
    ensures a.Record? ==> Commits(db, RecordEvent(db.store, a.project, a.context, a.body), t)
    ensures a.Poll? ==> Commits(db, Deliver(db.store, a.stream, a.cursor, a.delivered), t)
    ensures a.Confirm? ==> Commits(db, Acknowledge(db.store, a.stream, a.cursor), t)
    ensures a.Move? ==> Commits(db, Transition(db.store, a.memory, a.status, a.related, a.note), t)
    ensures a.Checkpoint? ==> Commits(db, FinalCheckpoint(db.store, a.final), t)
    ensures a.Relate? ==> Commits(db, CreateRelation(db.store, a.project, a.memory, a.other, a.relation, a.note), t)
    ensures a.ReviewMemory? ==> t == db.(store := Review(db.store, a.memory, a.review, a.related, a.conflict, a.note).0)
    ensures a.UpsertMemory? ==>
      match Upsert(db.store, a.given, a.row, a.submitted)
      case Ok((s, m)) => t == db.(store := s)
      case Err(_) => t == db
  {
  }

  /** Maintenance deletes memories unless a claim rests on one of them. */
  lemma {:induction false} MaintainRuns(db: Db, due: set<Id>, t: Db)
    requires t == Step(db, Maintain(due))
    ensures if forall c :: c in db.claims && db.claims[c].memory.Some? ==> db.claims[c].memory.value !in due
            then t == db.(store := Purge(db.store, due)) else t == db
  {
    if c :| c in db.claims && db.claims[c].memory.Some? && db.claims[c].memory.value in due {
      assert db.claims[c].memory.value in due * ClaimedMemories(db);
    } else {
      assert due * ClaimedMemories(db) == {};
    }
  }

  /** An investigation is opened in a known project, under a scope of its own if any. */
  lemma {:induction false} OpenRuns(db: Db, p: Id, scope: Option<Id>, t: Db)
    requires t == Step(db, OpenCase(p, scope))
    ensures if p in db.store.nextSeq
              && (scope.Some? ==> scope.value in db.store.scopes && db.store.scopes[scope.value].project == p)
            then && t.cases == db.cases[db.store.nextId := Case(p, scope, true)] && t.store.nextId == db.store.nextId + 1
                 && t == db.(cases := t.cases, store := db.store.(nextId := t.store.nextId))
            else t == db
  {
  }

  lemma {:induction false} CompleteRuns(db: Db, i: Id, t: Db)
    requires t == Step(db, CompleteCase(i))
    ensures if i in db.cases then t == db.(cases := db.cases[i := Case(db.cases[i].project, db.cases[i].scope, false)]) else t == db
  {
  }

  lemma {:induction false} AnalyseRuns(db: Db, investigation: Id, reader: Option<Id>, source: Source, claims: seq<ClaimInput>)
    ensures Step(db, Analyse(investigation, reader, source, claims)) == RecordAnalysis(db, investigation, reader, source, claims).0
  {
  }

  /** An import that is accepted leaves what `TransferEffects.ArchiveEffect` says. */
  lemma {:induction false} ImportRuns(db: Db, a: Archive, t: Db) returns (loaded: Db, r: Result<Db, Error>)
    requires t == Step(db, ImportProject(a))
    ensures TransferEffects.ArchiveImportedAs(db, a, loaded, r)
    ensures t == if r.Ok? then loaded else db
  {
    loaded := TransferEffects.ArchiveEffect(db, a);
    r := ImportArchive(db, a);
  }
}
