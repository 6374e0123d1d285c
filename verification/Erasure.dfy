/** Resumable erasure of actors, projects and tenants (`HostedGovernanceStore`).
    Content and identity live in other databases, so an erasure is a saga over a
    journal; any process may die between two statements and another may retry. */
module Erasure {
  import opened Wrappers

  type Id = string

  datatype Kind = Actor | Project | Tenant

  datatype Request = Request(tenantId: Id, kind: Kind, target: Option<Id>)

  /** A row of `hosted_erasure_journal`. */
  datatype Row = Row(key: string, request: Request, contentDone: bool, identityDone: bool)

  /** A row of `hosted_erasure_receipts`; its hash columns stand for what they hash. */
  datatype Receipt = Receipt(key: string, request: Request)

  /** The three tables, and a record of what has happened: the operations ever
      journalled, the erasures that ran for them, the tenant operations whose backup
      check passed, and backups dropped from the registry while not deleted. */
  datatype Db = Db(
    journal: map<Id, Row>,
    receipts: map<Id, Receipt>,
    backups: map<(Id, Id), bool>,
    created: map<Id, Receipt>,
    contentErased: set<Id>,
    identityErased: set<Id>,
    cleared: set<Id>,
    forgotten: set<(Id, Id)>)

  datatype Error = InvalidRequest | KeyReused | UnknownOperation | IntegrityError

  datatype Status = Pending | Complete | AwaitingBackups | Interrupted

  predicate ValidRequest(r: Request, key: string) {
    && (r.kind != Tenant ==> r.target.Some? && r.target.value != "")
    && (r.kind == Tenant ==> r.target.None?)
    && key != ""
  }

  // ---------------------------------------------------------------------
  // Statements
  // ---------------------------------------------------------------------

  function OperationsWithKey(rows: map<Id, Receipt>, key: string): set<Id> {
    set op | op in rows && rows[op].key == key
  }

  function JournalledWithKey(journal: map<Id, Row>, key: string): set<Id> {
    set op | op in journal && journal[op].key == key
  }

  /** The journal insert; `idempotency_key` is unique among journal rows. */
  function Insert(db: Db, op: Id, key: string, r: Request): Option<Db> {
    if op in db.journal || JournalledWithKey(db.journal, key) != {} then None
    else Some(db.(journal := db.journal[op := Row(key, r, false, false)],
                  created := db.created[op := Receipt(key, r)]))
  }

  function EraseContent(db: Db, op: Id, kind: Kind): Db {
    if kind == Actor then db else db.(contentErased := db.contentErased + {op})
  }

  function EraseIdentity(db: Db, op: Id): Db {
    db.(identityErased := db.identityErased + {op})
  }

  function MarkContent(db: Db, op: Id): Db {
    if op in db.journal then db.(journal := db.journal[op := db.journal[op].(contentDone := true)]) else db
  }

  function MarkIdentity(db: Db, op: Id): Db {
    if op in db.journal then db.(journal := db.journal[op := db.journal[op].(identityDone := true)]) else db
  }

  function PendingBackups(db: Db, tenantId: Id): set<(Id, Id)> {
    set b | b in db.backups && b.0 == tenantId && !db.backups[b]
  }

  function PassCheck(db: Db, op: Id): Db {
    db.(cleared := db.cleared + {op})
  }

  function ClearRegistry(db: Db, tenantId: Id): Db {
    db.(backups := map b | b in db.backups && b.0 != tenantId :: db.backups[b],
        forgotten := db.forgotten + PendingBackups(db, tenantId))
  }

  /** `_complete_erasure`: the receipt insert and the journal delete commit together;
      operation id and key hash are unique among receipts. */
  function Finish(db: Db, op: Id, row: Row): Option<Db> {
    if op in db.receipts || OperationsWithKey(db.receipts, row.key) != {} then None
    else Some(db.(receipts := db.receipts[op := Receipt(row.key, row.request)], journal := db.journal - {op}))
  }

  // ---------------------------------------------------------------------
  // What the tables always satisfy
  // ---------------------------------------------------------------------

  /** The content erasure an operation of this kind needs has run. */
  predicate ContentRan(db: Db, op: Id, kind: Kind) {
    kind == Actor || op in db.contentErased
  }

  ghost predicate TablesOk(db: Db) {
    && db.journal.Keys !! db.receipts.Keys
    && db.journal.Keys + db.receipts.Keys == db.created.Keys
    && (forall op :: op in db.journal ==>
          && db.created[op] == Receipt(db.journal[op].key, db.journal[op].request)
          && (db.journal[op].contentDone ==> ContentRan(db, op, db.journal[op].request.kind))
          && (db.journal[op].identityDone ==> op in db.identityErased))
    && (forall op :: op in db.receipts ==>
          && db.created[op] == db.receipts[op]
          && ContentRan(db, op, db.receipts[op].request.kind)
          && op in db.identityErased
          && (db.receipts[op].request.kind == Tenant ==> op in db.cleared))
  }

  /** Stages an operation still has to pass: two marks and the receipt. */
  function StagesLeft(db: Db, op: Id): nat {
    if op in db.journal then RowStages(db.journal[op]) else 0
  }

  function RowStages(row: Row): nat {
    1 + (if row.contentDone then 0 else 1) + (if row.identityDone then 0 else 1)
  }

  // ---------------------------------------------------------------------
  // Concurrent workers
  // ---------------------------------------------------------------------

  datatype Stage = DoEraseContent | DoMarkContent | DoEraseIdentity | DoMarkIdentity | DoCheck | DoClear | DoFinish

  /** A process in the middle of `execute_erasure` or `request_erasure`. */
  datatype Worker =
    | Executing(op: Id, row: Row, stage: Stage)
    | NeedJournal(key: string, request: Request)
    | NeedInsert(key: string, request: Request)

  /** `answers` are the (key, request, operation id) triples requests have returned. */
  datatype State = State(db: Db, workers: map<nat, Worker>, answers: set<(string, Request, Id)>)

  datatype Action =
    | StartRequest(w: nat, key: string, request: Request)
    | ReadJournal(w: nat)
    | InsertRow(w: nat, op: Id)
    | StartExecute(w: nat, op: Id)
    | Advance(w: nat)
    | CrashWorker(w: nat)
    | RegisterBackup(tenantId: Id, backupId: Id)
    | MarkBackupDeleted(tenantId: Id, backupId: Id)

  const EmptyDb := Db(map[], map[], map[], map[], {}, {}, {}, {})
  const Initial := State(EmptyDb, map[], {})

  function AfterIdentity(row: Row): Stage {
    if row.request.kind == Tenant then DoCheck else DoFinish
  }

  function FirstStage(row: Row): Stage {
    if !row.contentDone then DoEraseContent
    else if !row.identityDone then DoEraseIdentity
    else AfterIdentity(row)
  }

  /** The statement a worker executes next: the database it leaves and the stage it
      goes on to; `None` when the call ends there. */
  function Statement(db: Db, op: Id, row: Row, stage: Stage): (Db, Option<Stage>) {
    match stage
    case DoEraseContent => (EraseContent(db, op, row.request.kind), Some(DoMarkContent))
    case DoMarkContent =>
      (MarkContent(db, op), Some(if !row.identityDone then DoEraseIdentity else AfterIdentity(row)))
    case DoEraseIdentity => (EraseIdentity(db, op), Some(DoMarkIdentity))
    case DoMarkIdentity => (MarkIdentity(db, op), Some(AfterIdentity(row)))
    case DoCheck =>
      if PendingBackups(db, row.request.tenantId) != {} then (db, None) else (PassCheck(db, op), Some(DoClear))
    case DoClear => (ClearRegistry(db, row.request.tenantId), Some(DoFinish))
    case DoFinish => (var done := Finish(db, op, row); if done.Some? then done.value else db, None)
  }

  function Step(s: State, a: Action): State {
    match a
    case StartRequest(w, key, r) =>
      if w in s.workers || !ValidRequest(r, key) then s
      else
        var found := OperationsWithKey(s.db.receipts, key);
        if found == {} then s.(workers := s.workers[w := NeedJournal(key, r)])
        else s.(answers := s.answers + set op | op in found && s.db.receipts[op].request == r :: (key, r, op))
    case ReadJournal(w) =>
      if w !in s.workers || !s.workers[w].NeedJournal? then s
      else
        var key, r := s.workers[w].key, s.workers[w].request;
        var found := JournalledWithKey(s.db.journal, key);
        if found == {} then s.(workers := s.workers[w := NeedInsert(key, r)])
        else s.(workers := s.workers - {w},
                answers := s.answers + set op | op in found && s.db.journal[op].request == r :: (key, r, op))
    case InsertRow(w, op) =>
      if w !in s.workers || !s.workers[w].NeedInsert? || op in s.db.created then s
      else
        var key, r := s.workers[w].key, s.workers[w].request;
        var db := Insert(s.db, op, key, r);
        if db.None? then s.(workers := s.workers - {w})
        else State(db.value, s.workers - {w}, s.answers + {(key, r, op)})
    case StartExecute(w, op) =>
      if w in s.workers || op !in s.db.journal then s
      else s.(workers := s.workers[w := Executing(op, s.db.journal[op], FirstStage(s.db.journal[op]))])
    case Advance(w) =>
      if w !in s.workers || !s.workers[w].Executing? then s
      else
        var me := s.workers[w];
        var (db, next) := Statement(s.db, me.op, me.row, me.stage);
        State(db, if next.Some? then s.workers[w := me.(stage := next.value)] else s.workers - {w}, s.answers)
    case CrashWorker(w) => s.(workers := s.workers - {w})
    case RegisterBackup(t, b) =>
      if (t, b) in s.db.backups then s else s.(db := s.db.(backups := s.db.backups[(t, b) := false]))
    case MarkBackupDeleted(t, b) =>
      if (t, b) !in s.db.backups then s else s.(db := s.db.(backups := s.db.backups[(t, b) := true]))
  }

  function Run(actions: seq<Action>): State {
    if actions == [] then Initial else Step(Run(actions[..|actions| - 1]), actions[|actions| - 1])
  }

  /** A worker's stage never runs ahead of the erasures that were done. */
  ghost predicate WorkerOk(db: Db, worker: Worker) {
    worker.Executing? ==>
      var op, row, kind := worker.op, worker.row, worker.row.request.kind;
      && op in db.created
      && db.created[op] == Receipt(row.key, row.request)
      && (row.contentDone ==> ContentRan(db, op, kind))
      && (row.identityDone ==> op in db.identityErased)
      && (worker.stage != DoEraseContent ==> ContentRan(db, op, kind))
      && (worker.stage in {DoMarkIdentity, DoCheck, DoClear, DoFinish} ==> op in db.identityErased)
      && (worker.stage == DoClear || (worker.stage == DoFinish && kind == Tenant) ==> op in db.cleared)
  }

  ghost predicate Inv(s: State) {
    TablesOk(s.db) && forall w :: w in s.workers ==> WorkerOk(s.db, s.workers[w])
  }

  /** What happened stays recorded, so other workers' knowledge stays true. */
  predicate Remembers(a: Db, b: Db) {
    && (forall op :: op in a.created ==> op in b.created && a.created[op] == b.created[op])
    && a.contentErased <= b.contentErased && a.identityErased <= b.identityErased && a.cleared <= b.cleared
  }

  lemma {:induction false} WorkersRemember(s: State, db: Db, w: nat)
    requires Inv(s) && Remembers(s.db, db) && w in s.workers
    ensures WorkerOk(db, s.workers[w])
  {
    assert WorkerOk(s.db, s.workers[w]);
  }

  lemma {:induction false} MarksKeep(db: Db, op: Id)
    requires TablesOk(db) && op in db.created
    ensures ContentRan(db, op, db.created[op].request.kind) ==> TablesOk(MarkContent(db, op))
    ensures op in db.identityErased ==> TablesOk(MarkIdentity(db, op))
  {
  }

  lemma {:induction false} FinishKeeps(db: Db, me: Worker)
    requires TablesOk(db) && WorkerOk(db, me) && me.Executing? && me.stage == DoFinish
    requires Finish(db, me.op, me.row).Some?
    ensures TablesOk(Finish(db, me.op, me.row).value)
  {
    var after := Finish(db, me.op, me.row).value;
    assert after.journal.Keys == db.journal.Keys - {me.op};
    assert after.receipts.Keys == db.receipts.Keys + {me.op};
  }

  /** Statements that leave the journal and the receipts alone. */
  lemma {:induction false} RecordsKeep(db: Db, after: Db)
    requires TablesOk(db) && Remembers(db, after)
    requires after.journal == db.journal && after.receipts == db.receipts && after.created == db.created
    ensures TablesOk(after)
  {
  }

  lemma {:induction false} StatementKeepsTables(db: Db, me: Worker)
    requires TablesOk(db) && WorkerOk(db, me) && me.Executing?
    ensures var after := Statement(db, me.op, me.row, me.stage).0;
      TablesOk(after) && Remembers(db, after)
  {
    if me.stage in {DoMarkContent, DoMarkIdentity} {
      MarksKeep(db, me.op);
    } else if me.stage != DoFinish {
      RecordsKeep(db, Statement(db, me.op, me.row, me.stage).0);
    } else if Finish(db, me.op, me.row).Some? {
      FinishKeeps(db, me);
    }
  }

  lemma {:induction false} StatementKeeps(db: Db, me: Worker)
    requires TablesOk(db) && WorkerOk(db, me) && me.Executing?
    ensures var (after, next) := Statement(db, me.op, me.row, me.stage);
      && TablesOk(after) && Remembers(db, after)
      && (next.Some? ==> WorkerOk(after, me.(stage := next.value)))
  {
    StatementKeepsTables(db, me);
  }

  lemma {:induction false} InsertKeeps(db: Db, op: Id, key: string, r: Request)
    requires TablesOk(db) && op !in db.created && Insert(db, op, key, r).Some?
    ensures TablesOk(Insert(db, op, key, r).value) && Remembers(db, Insert(db, op, key, r).value)
  {
    assert op !in db.journal.Keys + db.receipts.Keys;
    var after := Insert(db, op, key, r).value;
    assert after.journal.Keys == db.journal.Keys + {op} && after.created.Keys == db.created.Keys + {op};
  }

  lemma {:induction false} StepKeepsTables(s: State, a: Action)
    requires Inv(s)
    ensures TablesOk(Step(s, a).db)
    ensures Remembers(s.db, Step(s, a).db)
  {
    var t := Step(s, a);
    if t.db != s.db {
      if a.Advance? {
        assert WorkerOk(s.db, s.workers[a.w]);
        StatementKeepsTables(s.db, s.workers[a.w]);
      } else if a.InsertRow? {
        InsertKeeps(s.db, a.op, s.workers[a.w].key, s.workers[a.w].request);
      } else {
        RecordsKeep(s.db, t.db);
      }
    }
  }

  lemma {:induction false} StepKeepsInv(s: State, a: Action)
    requires Inv(s)
    ensures Inv(Step(s, a))
    ensures Remembers(s.db, Step(s, a).db)
  {
    var t := Step(s, a);
    StepKeepsTables(s, a);
    if a.Advance? && t != s {
      assert WorkerOk(s.db, s.workers[a.w]);
      StatementKeeps(s.db, s.workers[a.w]);
    }
    forall w | w in t.workers ensures WorkerOk(t.db, t.workers[w]) {
      if w in s.workers && t.workers[w] == s.workers[w] {
        WorkersRemember(s, t.db, w);
      }
    }
  }

  lemma {:induction false} RunKeepsInv(actions: seq<Action>)
    ensures Inv(Run(actions))
  {
    if actions != [] {
      RunKeepsInv(actions[..|actions| - 1]);
      StepKeepsInv(Run(actions[..|actions| - 1]), actions[|actions| - 1]);
    }
  }

  /** In every run, with crashes and retries anywhere: an operation is in exactly one
      of journal and receipts; a done flag means the erasure ran; a receipt means both
      ran and, for a tenant, that no registered backup was undeleted when checked. */
  lemma {:induction false} SagaSafe(actions: seq<Action>, op: Id)
    requires op in Run(actions).db.created
    ensures var db := Run(actions).db; var kind := db.created[op].request.kind;
      && (op in db.journal <==> op !in db.receipts)
      && (op in db.journal && db.journal[op].contentDone ==> ContentRan(db, op, kind))
      && (op in db.journal && db.journal[op].identityDone ==> op in db.identityErased)
      && (op in db.receipts ==>
            ContentRan(db, op, kind) && op in db.identityErased && (kind == Tenant ==> op in db.cleared))
  {
    RunKeepsInv(actions);
    var db := Run(actions).db;
    assert op in db.journal.Keys + db.receipts.Keys;
  }

  lemma {:induction false} StepClears(s: State, a: Action, op: Id)
    requires op in Step(s, a).db.cleared && op !in s.db.cleared
    ensures a.Advance? && a.w in s.workers && s.workers[a.w].Executing? && s.workers[a.w].op == op
    ensures PendingBackups(s.db, s.workers[a.w].row.request.tenantId) == {}
  {
  }

  /** A cleared operation passed its check at some moment of the run, and at that moment
      no registered backup of its tenant was undeleted. */
  lemma {:induction false} ClearedMeansNonePending(actions: seq<Action>, op: Id) returns (i: nat)
    requires op in Run(actions).db.cleared
    ensures i < |actions| && actions[i].Advance? && op !in Run(actions[..i]).db.cleared
    ensures var s, w := Run(actions[..i]), actions[i].w;
      && w in s.workers && s.workers[w].Executing? && s.workers[w].op == op
      && PendingBackups(s.db, s.workers[w].row.request.tenantId) == {}
  {
    i := |actions| - 1;
    if op !in Run(actions[..i]).db.cleared {
      StepClears(Run(actions[..i]), actions[i], op);
      return;
    }
    var front := actions[..i];
    i := ClearedMeansNonePending(front, op);
    assert front[..i] == actions[..i];
  }

  lemma {:induction false} StatementStages(db: Db, me: Worker, op: Id)
    requires TablesOk(db) && WorkerOk(db, me) && me.Executing? && op in db.created
    ensures StagesLeft(Statement(db, me.op, me.row, me.stage).0, op) <= StagesLeft(db, op)
  {
  }

  lemma {:induction false} StepStages(s: State, a: Action, op: Id)
    requires op in s.db.created && Inv(s)
    ensures op in Step(s, a).db.created && StagesLeft(Step(s, a).db, op) <= StagesLeft(s.db, op)
  {
    if a.Advance? {
      if a.w in s.workers && s.workers[a.w].Executing? {
        StatementStages(s.db, s.workers[a.w], op);
      }
      return;
    }
    if a.InsertRow? {
      return;
    }
    assert Step(s, a).db.journal == s.db.journal;
  }

  lemma {:induction false} RunExtends(actions: seq<Action>, more: seq<Action>)
    requires more != []
    ensures Run(actions + more) == Step(Run(actions + more[..|more| - 1]), more[|more| - 1])
  {
    assert (actions + more)[..|actions + more| - 1] == actions + more[..|more| - 1];
  }

  /** However a run goes on, no operation gets further from completion, and it stays
      known. */
  lemma {:induction false} StagesNeverGrow(actions: seq<Action>, more: seq<Action>, op: Id)
    requires op in Run(actions).db.created
    ensures op in Run(actions + more).db.created
    ensures StagesLeft(Run(actions + more).db, op) <= StagesLeft(Run(actions).db, op)
  {
    if more == [] {
      assert actions + more == actions;
      return;
    }
    var front, a := more[..|more| - 1], more[|more| - 1];
    StagesNeverGrow(actions, front, op);
    RunExtends(actions, more);
    RunKeepsInv(actions + front);
    StepStages(Run(actions + front), a, op);
  }

  // ---------------------------------------------------------------------
  // One operation per key
  // ---------------------------------------------------------------------

  /** A repeated key names one operation. */
  ghost predicate KeysDistinct(db: Db) {
    forall a, b :: a in db.created && b in db.created && db.created[a].key == db.created[b].key ==> a == b
  }

  /** The step inserts a journal row for a key that already has a receipt. */
  predicate Splits(s: State, a: Action) {
    && a.InsertRow? && a.w in s.workers && s.workers[a.w].NeedInsert? && a.op !in s.db.created
    && Insert(s.db, a.op, s.workers[a.w].key, s.workers[a.w].request).Some?
    && OperationsWithKey(s.db.receipts, s.workers[a.w].key) != {}
  }

  ghost predicate NeverSplits(actions: seq<Action>) {
    actions == [] ||
      (NeverSplits(actions[..|actions| - 1]) && !Splits(Run(actions[..|actions| - 1]), actions[|actions| - 1]))
  }

  /** A key that is in neither table belongs to no operation yet. */
  lemma {:induction false} KeyIsNew(db: Db, key: string, op: Id)
    requires TablesOk(db) && op in db.created
    requires JournalledWithKey(db.journal, key) == {} && OperationsWithKey(db.receipts, key) == {}
    ensures db.created[op].key != key
  {
    assert op in db.journal.Keys + db.receipts.Keys;
    assert op !in JournalledWithKey(db.journal, key) && op !in OperationsWithKey(db.receipts, key);
  }

  lemma {:induction false} SplitBreaks(s: State, a: Action)
    requires Inv(s) && Splits(s, a)
    ensures !KeysDistinct(Step(s, a).db)
  {
    var t, key := Step(s, a), s.workers[a.w].key;
    var other :| other in OperationsWithKey(s.db.receipts, key);
    assert t.db.created[other].key == t.db.created[a.op].key;
  }

  lemma {:induction false} CreatedByInsert(s: State, a: Action)
    requires Step(s, a).db.created != s.db.created
    ensures a.InsertRow? && a.w in s.workers && s.workers[a.w].NeedInsert? && a.op !in s.db.created
    ensures Insert(s.db, a.op, s.workers[a.w].key, s.workers[a.w].request) == Some(Step(s, a).db)
  {
  }

  lemma {:induction false} DistinctStep(s: State, a: Action)
    requires Inv(s)
    ensures KeysDistinct(Step(s, a).db) <==> KeysDistinct(s.db) && !Splits(s, a)
  {
    if Splits(s, a) {
      SplitBreaks(s, a);
    } else if Step(s, a).db.created != s.db.created {
      CreatedByInsert(s, a);
      InsertDistinct(s.db, Step(s, a).db, a.op, s.workers[a.w].key, s.workers[a.w].request);
    }
  }

  lemma {:induction false} InsertDistinct(db: Db, after: Db, op: Id, key: string, r: Request)
    requires TablesOk(db) && op !in db.created
    requires Insert(db, op, key, r) == Some(after)
    requires OperationsWithKey(db.receipts, key) == {}
    ensures KeysDistinct(after) <==> KeysDistinct(db)
  {
    forall x | x in db.created ensures db.created[x].key != key {
      KeyIsNew(db, key, x);
    }
    AddDistinct(db, after, op, key);
  }

  lemma {:induction false} AddDistinct(before: Db, after: Db, op: Id, key: string)
    requires op !in before.created && op in after.created && after.created[op].key == key
    requires after.created == before.created[op := after.created[op]]
    requires forall x :: x in before.created ==> before.created[x].key != key
    ensures KeysDistinct(after) <==> KeysDistinct(before)
  {
    forall x, y | KeysDistinct(after) && x in before.created && y in before.created && before.created[x].key == before.created[y].key
      ensures x == y
    {
      assert x in after.created && y in after.created;
    }
  }

  /** A run keeps one operation per key exactly when it never inserts a row for a key
      whose earlier operation has meanwhile completed. */
  lemma {:induction false} DistinctIffNeverSplits(actions: seq<Action>)
    ensures KeysDistinct(Run(actions).db) <==> NeverSplits(actions)
  {
    if actions != [] {
      var front, a := actions[..|actions| - 1], actions[|actions| - 1];
      DistinctIffNeverSplits(front);
      RunKeepsInv(front);
      DistinctStep(Run(front), a);
    }
  }

  /** A completion lands between a request's two reads (or before its insert). */
  ghost predicate Overtakes(s: State, a: Action) {
    && a.Advance? && a.w in s.workers && s.workers[a.w].Executing? && s.workers[a.w].stage == DoFinish
    && exists w :: w in s.workers && !s.workers[w].Executing? && s.workers[w].key == s.workers[a.w].row.key
  }

  ghost predicate Quiet(actions: seq<Action>) {
    actions == [] ||
      (Quiet(actions[..|actions| - 1]) && !Overtakes(Run(actions[..|actions| - 1]), actions[|actions| - 1]))
  }

  ghost predicate RequestersFresh(s: State) {
    forall w :: w in s.workers && !s.workers[w].Executing? ==> OperationsWithKey(s.db.receipts, s.workers[w].key) == {}
  }

  lemma {:induction false} FreshStep(s: State, a: Action)
    requires RequestersFresh(s) && !Overtakes(s, a)
    ensures RequestersFresh(Step(s, a)) && !Splits(s, a)
  {
    var t := Step(s, a);
    forall w | w in t.workers && !t.workers[w].Executing?
      ensures OperationsWithKey(t.db.receipts, t.workers[w].key) == {}
    {
      var key := t.workers[w].key;
      if w in s.workers {
        assert OperationsWithKey(s.db.receipts, key) == {};
        forall op | op in OperationsWithKey(t.db.receipts, key) ensures op in OperationsWithKey(s.db.receipts, key) {
        }
      }
    }
  }

  lemma {:induction false} QuietStaysFresh(actions: seq<Action>)
    requires Quiet(actions)
    ensures RequestersFresh(Run(actions)) && NeverSplits(actions)
  {
    if actions != [] {
      var front, a := actions[..|actions| - 1], actions[|actions| - 1];
      QuietStaysFresh(front);
      FreshStep(Run(front), a);
    }
  }

  ghost predicate AnswersOk(s: State) {
    forall x :: x in s.answers ==> x.2 in s.db.created && s.db.created[x.2] == Receipt(x.0, x.1)
  }

  lemma {:induction false} AnswersStep(s: State, a: Action)
    requires Inv(s) && AnswersOk(s)
    ensures AnswersOk(Step(s, a))
  {
    StepKeepsInv(s, a);
    var t := Step(s, a);
    forall x | x in t.answers ensures x.2 in t.db.created && t.db.created[x.2] == Receipt(x.0, x.1) {
      if x !in s.answers && a.ReadJournal? {
        assert x.2 in s.db.journal;
      }
    }
  }

  lemma {:induction false} AnswersAreOperations(actions: seq<Action>)
    ensures AnswersOk(Run(actions))
  {
    if actions != [] {
      var front := actions[..|actions| - 1];
      AnswersAreOperations(front);
      RunKeepsInv(front);
      AnswersStep(Run(front), actions[|actions| - 1]);
    }
  }

  /** Without such an overtaking completion, a repeated key always gets the same
      operation id, and never for a different request. */
  lemma {:induction false} RepeatedKeySameOperation(actions: seq<Action>, x: (string, Request, Id), y: (string, Request, Id))
    requires Quiet(actions)
    requires x in Run(actions).answers && y in Run(actions).answers && x.0 == y.0
    ensures x == y
  {
    QuietStaysFresh(actions);
    DistinctIffNeverSplits(actions);
    AnswersAreOperations(actions);
  }

  /** From any state in which a request was overtaken, its next two steps answer the
      key with a second operation id. */
  lemma {:induction false} OvertakenRequestSplits(s: State, w: nat, done: Id, op: Id)
    requires w in s.workers && s.workers[w].NeedJournal?
    requires done in s.db.receipts && s.db.receipts[done].key == s.workers[w].key
    requires JournalledWithKey(s.db.journal, s.workers[w].key) == {}
    requires op !in s.db.created && Inv(s)
    ensures var t := Step(Step(s, ReadJournal(w)), InsertRow(w, op));
      && (s.workers[w].key, s.workers[w].request, op) in t.answers
      && op in t.db.journal && t.db.journal[op].key == s.workers[w].key
      && done in t.db.receipts && op != done
  {
    assert op !in s.db.journal.Keys + s.db.receipts.Keys;
  }

  /** A journalled operation whose key has another operation's receipt. */
  ghost predicate Stuck(db: Db, done: Id, op: Id) {
    op in db.journal && done in db.receipts && db.receipts[done].key == db.journal[op].key
  }

  lemma {:induction false} StatementStuck(db: Db, me: Worker, done: Id, op: Id)
    requires TablesOk(db) && WorkerOk(db, me) && me.Executing? && Stuck(db, done, op)
    ensures Stuck(Statement(db, me.op, me.row, me.stage).0, done, op)
  {
    if me.op == op {
      assert done in OperationsWithKey(db.receipts, me.row.key);
    }
  }

  lemma {:induction false} StuckStep(s: State, a: Action, done: Id, op: Id)
    requires Inv(s) && Stuck(s.db, done, op)
    ensures Stuck(Step(s, a).db, done, op)
  {
    if a.Advance? {
      if a.w in s.workers && s.workers[a.w].Executing? {
        StatementStuck(s.db, s.workers[a.w], done, op);
      }
      return;
    }
    if a.InsertRow? {
      return;
    }
    assert Step(s, a).db.journal == s.db.journal && Step(s, a).db.receipts == s.db.receipts;
  }

  /** ... and that second operation can never complete, whatever runs later. */
  lemma {:induction false} SecondOperationIsStuck(actions: seq<Action>, later: seq<Action>, done: Id, op: Id)
    requires Stuck(Run(actions).db, done, op)
    ensures Stuck(Run(actions + later).db, done, op)
  {
    if later == [] {
      assert actions + later == actions;
    } else {
      var front, a := later[..|later| - 1], later[|later| - 1];
      SecondOperationIsStuck(actions, front, done, op);
      RunKeepsInv(actions + front);
      StuckStep(Run(actions + front), a, done, op);
      assert (actions + later)[..|actions + later| - 1] == actions + front;
    }
  }

  /** Two processes ask with one key; the first is journalled before the second reads. */
  lemma {:induction false} TwoRequesters(r: Request) returns (actions: seq<Action>, s: State)
    requires ValidRequest(r, "k")
    ensures Run(actions) == s
    ensures s == State(EmptyDb.(journal := map["op" := Row("k", r, false, false)], created := map["op" := Receipt("k", r)]),
                       map[1 := NeedJournal("k", r)], {("k", r, "op")})
  {
    var a0 := [StartRequest(0, "k", r)];
    assert a0[..0] == [];
    var s0 := Step(Initial, a0[0]);
    var a1, s1 := RunOn(a0, s0, ReadJournal(0));
    var a2, s2 := RunOn(a1, s1, InsertRow(0, "op"));
    actions, s := RunOn(a2, s2, StartRequest(1, "k", r));
    assert s.workers == map[1 := NeedJournal("k", r)];
  }

  /** A third process marks the content stage of the erasure ... */
  lemma {:induction false} HalfErased(r: Request) returns (actions: seq<Action>, s: State)
    requires ValidRequest(r, "k")
    ensures Run(actions) == s
    ensures s.workers == map[1 := NeedJournal("k", r), 2 := Executing("op", Row("k", r, false, false), DoEraseIdentity)]
    ensures s.db.receipts == map[] && s.db.journal == map["op" := Row("k", r, true, false)]
    ensures s.db.backups == map[] && s.db.forgotten == {}
  {
    var a0, s0 := TwoRequesters(r);
    var a1, s1 := RunOn(a0, s0, StartExecute(2, "op"));
    assert s1.workers == map[1 := NeedJournal("k", r), 2 := Executing("op", Row("k", r, false, false), DoEraseContent)];
    var a2, s2 := RunOn(a1, s1, Advance(2));
    assert s2.workers == map[1 := NeedJournal("k", r), 2 := Executing("op", Row("k", r, false, false), DoMarkContent)];
    actions, s := RunOn(a2, s2, Advance(2));
  }

  /** ... then the identity stage ... */
  lemma {:induction false} FullyErased(r: Request) returns (actions: seq<Action>, s: State)
    requires ValidRequest(r, "k")
    ensures Run(actions) == s
    ensures var row := Row("k", r, false, false);
      s.workers == map[1 := NeedJournal("k", r), 2 := Executing("op", row, AfterIdentity(row))]
    ensures s.db.receipts == map[] && s.db.journal == map["op" := Row("k", r, true, true)]
    ensures s.db.backups == map[] && s.db.forgotten == {}
  {
    var a0, s0 := HalfErased(r);
    var a1, s1 := RunOn(a0, s0, Advance(2));
    assert s1.workers == map[1 := NeedJournal("k", r), 2 := Executing("op", Row("k", r, false, false), DoMarkIdentity)];
    actions, s := RunOn(a1, s1, Advance(2));
  }

  /** ... and completes it: the second requester has been overtaken. */
  lemma {:induction false} OvertakenStateReachable() returns (actions: seq<Action>)
    ensures var s := Run(actions);
      && 1 in s.workers && s.workers[1].NeedJournal?
      && "op" in s.db.receipts && s.db.receipts["op"].key == s.workers[1].key
      && JournalledWithKey(s.db.journal, s.workers[1].key) == {}
  {
    var r := Request("t", Actor, Some("a"));
    var before, s := FullyErased(r);
    var after;
    actions, after := RunOn(before, s, Advance(2));
    assert after.db.journal == map[];
  }

  lemma {:induction false} RunOn(actions: seq<Action>, s: State, a: Action) returns (more: seq<Action>, t: State)
    requires Run(actions) == s
    ensures t == Step(s, a) && Run(more) == t && more == actions + [a]
  {
    more, t := actions + [a], Step(s, a);
    assert more[..|more| - 1] == actions;
  }

  // ---------------------------------------------------------------------
  // The backup registry
  // ---------------------------------------------------------------------

  /** A backup is registered for a tenant whose registry is about to be cleared. */
  ghost predicate LateRegistration(s: State, a: Action) {
    && a.RegisterBackup?
    && exists w :: w in s.workers && s.workers[w].Executing? && s.workers[w].stage == DoClear
                && s.workers[w].row.request.tenantId == a.tenantId
  }

  ghost predicate Timely(actions: seq<Action>) {
    actions == [] ||
      (Timely(actions[..|actions| - 1]) && !LateRegistration(Run(actions[..|actions| - 1]), actions[|actions| - 1]))
  }

  ghost predicate ClearersChecked(s: State) {
    && s.db.forgotten == {}
    && forall w :: w in s.workers && s.workers[w].Executing? && s.workers[w].stage == DoClear ==>
         PendingBackups(s.db, s.workers[w].row.request.tenantId) == {}
  }

  lemma {:induction false} TimelyStep(s: State, a: Action)
    requires ClearersChecked(s) && !LateRegistration(s, a)
    ensures ClearersChecked(Step(s, a))
  {
    var t := Step(s, a);
    forall w | w in t.workers && t.workers[w].Executing? && t.workers[w].stage == DoClear
      ensures PendingBackups(t.db, t.workers[w].row.request.tenantId) == {}
    {
      var tenant := t.workers[w].row.request.tenantId;
      assert PendingBackups(s.db, tenant) == {};
      forall b | b in PendingBackups(t.db, tenant) ensures b in PendingBackups(s.db, tenant) {
      }
    }
  }

  /** The step clears a tenant's registry while one of its backups is not deleted. */
  predicate Forgets(s: State, a: Action) {
    && a.Advance? && a.w in s.workers && s.workers[a.w].Executing? && s.workers[a.w].stage == DoClear
    && PendingBackups(s.db, s.workers[a.w].row.request.tenantId) != {}
  }

  ghost predicate NeverForgets(actions: seq<Action>) {
    actions == [] ||
      (NeverForgets(actions[..|actions| - 1]) && !Forgets(Run(actions[..|actions| - 1]), actions[|actions| - 1]))
  }

  lemma {:induction false} ForgottenStep(s: State, a: Action)
    ensures Step(s, a).db.forgotten == {} <==> s.db.forgotten == {} && !Forgets(s, a)
  {
    if a.Advance? && a.w in s.workers && s.workers[a.w].Executing? && s.workers[a.w].stage == DoClear {
      assert Step(s, a).db.forgotten == s.db.forgotten + PendingBackups(s.db, s.workers[a.w].row.request.tenantId);
    }
  }

  /** In a run no registry row is dropped before its object was deleted if and only if no
      tenant's registry is cleared while a backup of it is pending. */
  lemma {:induction false} NoBackupForgotten(actions: seq<Action>)
    ensures Run(actions).db.forgotten == {} <==> NeverForgets(actions)
  {
    if actions != [] {
      var front, a := actions[..|actions| - 1], actions[|actions| - 1];
      NoBackupForgotten(front);
      ForgottenStep(Run(front), a);
    }
  }

  /** Which never happens when no backup is registered between a tenant's check and its
      clearing. */
  lemma {:induction false} TimelyRunsForgetNothing(actions: seq<Action>)
    requires Timely(actions)
    ensures ClearersChecked(Run(actions))
    ensures Run(actions).db.forgotten == {}
  {
    if actions != [] {
      var front, a := actions[..|actions| - 1], actions[|actions| - 1];
      TimelyRunsForgetNothing(front);
      TimelyStep(Run(front), a);
    }
  }

  /** A backup registered in that gap is dropped although it was never deleted. */
  lemma {:induction false} LateBackupIsForgotten(s: State, w: nat, backupId: Id)
    requires w in s.workers && s.workers[w].Executing? && s.workers[w].stage == DoClear
    requires (s.workers[w].row.request.tenantId, backupId) !in s.db.backups
    ensures var b := (s.workers[w].row.request.tenantId, backupId);
      var t := Step(Step(s, RegisterBackup(b.0, b.1)), Advance(w));
      b !in t.db.backups && b in t.db.forgotten
  {
  }

  /** And it happens: a tenant's erasure passes its check, a backup is registered, and the
      registry is cleared. */
  lemma {:induction false} LateBackupReachable() returns (actions: seq<Action>)
    ensures ("t", "b") in Run(actions).db.forgotten
  {
    var r := Request("t", Tenant, None);
    var a0, s0 := FullyErased(r);
    var a1, s1 := RunOn(a0, s0, Advance(2));
    assert PendingBackups(s0.db, "t") == {};
    assert s1.workers[2] == Executing("op", Row("k", r, false, false), DoClear) && s1.db.backups == map[];
    var a2, s2 := RunOn(a1, s1, RegisterBackup("t", "b"));
    var s3;
    actions, s3 := RunOn(a2, s2, Advance(2));
    LateBackupIsForgotten(s1, 2, "b");
  }

  // ---------------------------------------------------------------------
  // One process, which may die after any number of statements
  // ---------------------------------------------------------------------

  // ---------------------------------------------------------------------
  // What each step does
  // ---------------------------------------------------------------------

  /** The answers a table's rows give a repeated request: the operations of its key, if they
      were asked for with this very request. */
  ghost predicate Answered(before: set<(string, Request, Id)>, after: set<(string, Request, Id)>, rows: map<Id, Receipt>, key: string, r: Request) {
    forall x :: x in after <==> x in before || (x.0 == key && x.1 == r && x.2 in rows && rows[x.2] == Receipt(key, r))
  }

  ghost predicate KeyIn(rows: map<Id, Receipt>, key: string) {
    exists op :: op in rows && rows[op].key == key
  }

  function Journalled(db: Db): map<Id, Receipt> {
    map op | op in db.journal :: Receipt(db.journal[op].key, db.journal[op].request)
  }

  /** A request whose key has a receipt is answered; another goes on to read the journal. */
  lemma {:induction false} RequestStarts(s: State, w: nat, key: string, r: Request, t: State)
    requires w !in s.workers && ValidRequest(r, key) && t == Step(s, StartRequest(w, key, r))
    ensures t.db == s.db
    ensures KeyIn(s.db.receipts, key) ==> t.workers == s.workers && Answered(s.answers, t.answers, s.db.receipts, key, r)
    ensures !KeyIn(s.db.receipts, key) ==> t.answers == s.answers && t.workers == s.workers[w := NeedJournal(key, r)]
  {
    if op :| op in s.db.receipts && s.db.receipts[op].key == key {
      assert op in OperationsWithKey(s.db.receipts, key);
    }
  }

  /** A request whose key is in the journal is answered; another goes on to insert a row. */
  lemma {:induction false} RequestReads(s: State, w: nat, key: string, r: Request, t: State)
    requires w in s.workers && s.workers[w] == NeedJournal(key, r) && t == Step(s, ReadJournal(w))
    ensures t.db == s.db
    ensures KeyIn(Journalled(s.db), key) ==> t.workers == s.workers - {w} && Answered(s.answers, t.answers, Journalled(s.db), key, r)
    ensures !KeyIn(Journalled(s.db), key) ==> t.answers == s.answers && t.workers == s.workers[w := NeedInsert(key, r)]
  {
    if op :| op in s.db.journal && s.db.journal[op].key == key {
      assert op in JournalledWithKey(s.db.journal, key) && Journalled(s.db)[op].key == key;
    } else {
      assert forall op :: op in Journalled(s.db) ==> op in s.db.journal;
    }
  }

  /** The insert adds a row with nothing done yet and answers with it, unless the key has been
      journalled meanwhile. */
  lemma {:induction false} RequestInserts(s: State, w: nat, key: string, r: Request, op: Id, t: State)
    requires w in s.workers && s.workers[w] == NeedInsert(key, r) && op !in s.db.created && op !in s.db.journal && t == Step(s, InsertRow(w, op))
    ensures t.workers == s.workers - {w}
    ensures KeyIn(Journalled(s.db), key) ==> t.db == s.db && t.answers == s.answers
    ensures !KeyIn(Journalled(s.db), key) ==>
      && t.answers == s.answers + {(key, r, op)}
      && t.db == s.db.(journal := s.db.journal[op := Row(key, r, false, false)], created := s.db.created[op := Receipt(key, r)])
  {
    if x :| x in s.db.journal && s.db.journal[x].key == key {
      assert x in JournalledWithKey(s.db.journal, key) && Journalled(s.db)[x].key == key;
    } else {
      assert forall x :: x in Journalled(s.db) ==> x in s.db.journal;
    }
  }

  /** A worker reads the journalled row and starts at the first stage not marked there. */
  lemma {:induction false} ExecutionStarts(s: State, w: nat, op: Id, t: State)
    requires w !in s.workers && op in s.db.journal && t == Step(s, StartExecute(w, op))
    ensures var row := s.db.journal[op];
      && t == s.(workers := t.workers) && t.workers.Keys == s.workers.Keys + {w}
      && (forall x :: x in s.workers ==> t.workers[x] == s.workers[x])
      && t.workers[w] == Executing(op, row,
           if !row.contentDone then DoEraseContent
           else if !row.identityDone then DoEraseIdentity
           else if row.request.kind == Tenant then DoCheck else DoFinish)
  {
  }

  /** A step of an execution is its next statement; a worker that has none is gone. */
  lemma {:induction false} ExecutionSteps(s: State, w: nat, op: Id, row: Row, stage: Stage, t: State)
    requires w in s.workers && s.workers[w] == Executing(op, row, stage) && t == Step(s, Advance(w))
    ensures t.db == Statement(s.db, op, row, stage).0 && t.answers == s.answers
    ensures var next := Statement(s.db, op, row, stage).1;
      t.workers == if next.Some? then s.workers[w := Executing(op, row, next.value)] else s.workers - {w}
  {
  }

  /** A crash loses the worker and nothing else; backups are registered as not deleted, once,
      and marked as deleted. */
  lemma {:induction false} OthersStep(s: State, w: nat, tenantId: Id, backupId: Id)
    ensures Step(s, CrashWorker(w)) == s.(workers := s.workers - {w})
    ensures var t := Step(s, RegisterBackup(tenantId, backupId)).db;
      && Step(s, RegisterBackup(tenantId, backupId)) == s.(db := s.db.(backups := t.backups))
      && t.backups.Keys == s.db.backups.Keys + {(tenantId, backupId)}
      && ((tenantId, backupId) !in s.db.backups ==> !t.backups[(tenantId, backupId)])
      && forall b :: b in s.db.backups ==> t.backups[b] == s.db.backups[b]
    ensures var t := Step(s, MarkBackupDeleted(tenantId, backupId)).db;
      && Step(s, MarkBackupDeleted(tenantId, backupId)) == s.(db := s.db.(backups := t.backups))
      && t.backups.Keys == s.db.backups.Keys
      && forall b :: b in s.db.backups ==> t.backups[b] == (b == (tenantId, backupId) || s.db.backups[b])
  {
  }

  class GovernanceStore {
    var journal: map<Id, Row>
    var receipts: map<Id, Receipt>
    var backups: map<(Id, Id), bool>
    ghost var created: map<Id, Receipt>
    ghost var contentErased: set<Id>
    ghost var identityErased: set<Id>
    ghost var cleared: set<Id>
    ghost var forgotten: set<(Id, Id)>

    ghost function Tables(): Db
      reads this
    {
      Db(journal, receipts, backups, created, contentErased, identityErased, cleared, forgotten)
    }

    /** One operation per key, as a single process keeps it. */
    ghost predicate Valid()
      reads this
    {
      TablesOk(Tables()) && KeysDistinct(Tables())
    }

    constructor ()
      ensures Valid() && Tables() == EmptyDb
    {
      journal, receipts, backups := map[], map[], map[];
      created, contentErased, identityErased, cleared, forgotten := map[], {}, {}, {}, {};
    }

    /** `request_erasure`. A key seen before answers with its operation and journals
        nothing; with another request it is refused. */
    method RequestErasure(key: string, r: Request, freshId: Id) returns (result: Result<(Id, Status), Error>)
      requires Valid() && freshId !in created
      modifies this`journal, this`created
      ensures Valid()
      ensures result == Err(InvalidRequest) <==>
        key == "" || (r.kind == Tenant && r.target.Some?) || (r.kind != Tenant && r.target in {None, Some("")})
      ensures result.Err? ==> Tables() == old(Tables())
      ensures ValidRequest(r, key) ==>
        forall op :: op in old(created) && old(created)[op].key == key ==>
          && Tables() == old(Tables())
          && result == if old(created)[op].request != r then Err(KeyReused)
                       else Ok((op, if op in receipts then Complete else Pending))
      ensures ValidRequest(r, key) && (forall op :: op in old(created) ==> old(created)[op].key != key) ==>
        && result == Ok((freshId, Pending))
        && journal == old(journal)[freshId := Row(key, r, false, false)]
    {
      if !ValidRequest(r, key) {
        return Err(InvalidRequest);
      }
      var finished := OperationsWithKey(receipts, key);
      if finished != {} {
        var op :| op in finished;
        assert created[op] == receipts[op];
        return if receipts[op].request != r then Err(KeyReused) else Ok((op, Complete));
      }
      var pending := JournalledWithKey(journal, key);
      if pending != {} {
        var op :| op in pending;
        assert created[op] == Receipt(journal[op].key, journal[op].request);
        return if journal[op].request != r then Err(KeyReused) else Ok((op, Pending));
      }
      forall op | op in created ensures created[op].key != key {
        KeyIsNew(Tables(), key, op);
      }
      InsertKeeps(Tables(), freshId, key, r);
      AddDistinct(Tables(), Insert(Tables(), freshId, key, r).value, freshId, key);
      journal, created := journal[freshId := Row(key, r, false, false)], created[freshId := Receipt(key, r)];
      result := Ok((freshId, Pending));
    }

    /** One statement of `execute_erasure` for an operation whose key is its own. */
    method Perform(op: Id, row: Row, stage: Stage) returns (next: Option<Stage>)
      requires Valid() && WorkerOk(Tables(), Executing(op, row, stage))
      requires op in journal
      modifies this
      ensures Valid()
      ensures (Tables(), next) == Statement(old(Tables()), op, row, stage)
      ensures next.Some? ==> WorkerOk(Tables(), Executing(op, row, next.value))
      ensures stage != DoFinish ==> op in journal
      ensures stage == DoFinish ==> op in receipts && op !in journal
      ensures KeysDistinct(Tables()) == KeysDistinct(old(Tables()))
    {
      ghost var before := Tables();
      if stage == DoFinish {
        OwnKeyUnused(before, op, row);
      }
      next := Apply(op, row, stage);
      PerformKeeps(before, op, row, stage, Tables(), next);
    }

    method Apply(op: Id, row: Row, stage: Stage) returns (next: Option<Stage>)
      requires op in journal
      requires stage == DoFinish ==> op !in receipts && OperationsWithKey(receipts, row.key) == {}
      modifies this
      ensures (Tables(), next) == Statement(old(Tables()), op, row, stage)
    {
      match stage {
        case DoEraseContent =>
          contentErased := if row.request.kind == Actor then contentErased else contentErased + {op};
          next := Some(DoMarkContent);
        case DoMarkContent =>
          journal := journal[op := journal[op].(contentDone := true)];
          next := Some(if !row.identityDone then DoEraseIdentity else AfterIdentity(row));
        case DoEraseIdentity =>
          identityErased := identityErased + {op};
          next := Some(DoMarkIdentity);
        case DoMarkIdentity =>
          journal := journal[op := journal[op].(identityDone := true)];
          next := Some(AfterIdentity(row));
        case DoCheck =>
          if PendingBackups(Db(journal, receipts, backups, map[], {}, {}, {}, {}), row.request.tenantId) != {} {
            assert PendingBackups(Tables(), row.request.tenantId) != {};
            next := None;
          } else {
            assert PendingBackups(Tables(), row.request.tenantId) == {};
            cleared := cleared + {op};
            next := Some(DoClear);
          }
        case DoClear =>
          forgotten := forgotten + PendingBackups(Tables(), row.request.tenantId);
          backups := map b | b in backups && b.0 != row.request.tenantId :: backups[b];
          next := Some(DoFinish);
        case DoFinish =>
          receipts, journal := receipts[op := Receipt(row.key, row.request)], journal - {op};
          next := None;
      }
    }

    /** `execute_erasure`, cut off after `budget` statements. Any three statements
        bring the operation at least one stage closer, and seven always suffice, unless
        a tenant still has backups to delete. */
    method ExecuteErasure(op: Id, budget: nat) returns (result: Result<Status, Error>)
      requires Valid()
      modifies this
      ensures Valid()
      ensures op !in old(journal) && op !in old(receipts) ==> result == Err(UnknownOperation)
      ensures op in old(receipts) ==> result == Ok(Complete)
      ensures op !in old(journal) ==> Tables() == old(Tables())
      ensures op in old(journal) ==> result.Ok? && result.value in {Complete, AwaitingBackups, Interrupted}
      ensures result == Ok(Complete) ==> op in receipts && op !in journal
      ensures result == Ok(AwaitingBackups) ==>
        && op in journal && journal[op].request.kind == Tenant
        && journal[op].contentDone && journal[op].identityDone
        && PendingBackups(Tables(), journal[op].request.tenantId) != {}
      ensures result == Ok(Interrupted) ==> budget < 7
      ensures op in old(journal) && 3 <= budget && result != Ok(AwaitingBackups) ==>
        StagesLeft(Tables(), op) < StagesLeft(old(Tables()), op)
      ensures op in old(journal) ==> Executed(old(Tables()), Tables(), op, result.value)
    {
      if op !in journal {
        return if op in receipts then Ok(Complete) else Err(UnknownOperation);
      }
      var status := Resume(op, budget);
      result := Ok(status);
    }

    /** The part of `execute_erasure` that runs when the operation is journalled. */
    method Resume(op: Id, budget: nat) returns (status: Status)
      requires Valid() && op in journal
      modifies this
      ensures Valid()
      ensures status in {Complete, AwaitingBackups, Interrupted}
      ensures status == Complete ==> op in receipts && op !in journal
      ensures status == AwaitingBackups ==>
        && op in journal && journal[op].request.kind == Tenant
        && journal[op].contentDone && journal[op].identityDone
        && PendingBackups(Tables(), journal[op].request.tenantId) != {}
      ensures status == Interrupted ==> budget < 7
      ensures 3 <= budget && status != AwaitingBackups ==> StagesLeft(Tables(), op) < old(RowStages(journal[op]))
      ensures Executed(old(Tables()), Tables(), op, status)
    {
      var row := journal[op];
      var stage, left := FirstStage(row), budget;
      while left > 0
        invariant Valid() && InCall(Tables(), op, row, stage, budget - left)
        invariant CallDid(old(Tables()), Tables(), op, row, stage)
        decreases left
      {
        CallProgress(Tables(), op, row, stage, budget - left);
        ghost var db := Tables();
        var before := stage;
        var next := Perform(op, row, stage);
        if next.None? {
          CallEnds(db, op, row, stage, budget - left, Tables());
          CallFinished(old(Tables()), db, op, row, stage, Tables());
          return if before == DoFinish then Complete else AwaitingBackups;
        }
        CallStep(db, op, row, stage, budget - left, Tables(), next.value);
        CallGoesOn(old(Tables()), db, op, row, stage, Tables(), next.value);
        left, stage := left - 1, next.value;
      }
      CallProgress(Tables(), op, row, stage, budget);
      CallCutOff(old(Tables()), Tables(), op, row, stage);
      status := Interrupted;
    }
  }

  lemma {:induction false} PerformKeeps(db: Db, op: Id, row: Row, stage: Stage, after: Db, next: Option<Stage>)
    requires TablesOk(db) && KeysDistinct(db) && WorkerOk(db, Executing(op, row, stage)) && op in db.journal
    requires Statement(db, op, row, stage) == (after, next)
    ensures TablesOk(after) && KeysDistinct(after) && (next.Some? ==> WorkerOk(after, Executing(op, row, next.value)))
    ensures stage != DoFinish ==> op in after.journal
  {
    StatementKeeps(db, Executing(op, row, stage));
    assert after.created == db.created;
  }

  /** No backup of the tenant waits for its deletion. */
  predicate NoneWaiting(db: Db, tenantId: Id) {
    forall b :: b in db.backups && b.0 == tenantId ==> db.backups[b]
  }

  /** The erasures this operation still needed have run, for it and no other. */
  ghost predicate Erased(before: Db, after: Db, op: Id, row: Row) {
    && after.contentErased == before.contentErased + (if row.contentDone || row.request.kind == Actor then {} else {op})
    && after.identityErased == before.identityErased + (if row.identityDone then {} else {op})
  }

  /** What one call leaves. A completed operation has its receipt instead of its journal row,
      and a tenant's backups, all deleted by then, are forgotten; a tenant with backups to
      delete keeps its row with both stages marked; a call cut off keeps it too. No other
      operation or tenant is touched. */
  ghost predicate Executed(before: Db, after: Db, op: Id, status: Status)
    requires op in before.journal
  {
    var row := before.journal[op];
    var tenantId := row.request.tenantId;
    && after.created == before.created
    && match status
       case Complete =>
         && after.journal == before.journal - {op} && after.receipts == before.receipts[op := Receipt(row.key, row.request)]
         && Erased(before, after, op, row)
         && (row.request.kind == Tenant ==>
               NoneWaiting(before, tenantId)
               && after.backups == map b | b in before.backups && b.0 != tenantId :: before.backups[b])
         && (row.request.kind != Tenant ==> after.backups == before.backups)
       case AwaitingBackups =>
         && row.request.kind == Tenant && !NoneWaiting(before, tenantId)
         && after.journal == before.journal[op := Row(row.key, row.request, true, true)]
         && after.receipts == before.receipts && after.backups == before.backups && Erased(before, after, op, row)
       case _ =>
         && op in after.journal && after.receipts == before.receipts
         && after.journal == before.journal[op := Row(row.key, row.request, after.journal[op].contentDone, after.journal[op].identityDone)]
         && (row.contentDone ==> after.journal[op].contentDone) && (row.identityDone ==> after.journal[op].identityDone)
         && before.contentErased <= after.contentErased <= before.contentErased + {op}
         && before.identityErased <= after.identityErased <= before.identityErased + {op}
         && (row.request.kind != Tenant ==> after.backups == before.backups)
         && forall b :: b in before.backups && (b.0 != tenantId || !before.backups[b]) ==>
              b in after.backups && after.backups[b] == before.backups[b]
  }

  /** What the call has done when it is at `stage`. */
  ghost predicate CallDid(before: Db, db: Db, op: Id, row: Row, stage: Stage) {
    var at, tenantId := Position(stage), row.request.tenantId;
    && op in before.journal && op in db.journal && before.journal[op] == row && Progress(row, db.journal[op], stage)
    && db.journal == before.journal[op := Row(row.key, row.request, row.contentDone || at >= 2, row.identityDone || at >= 4)]
    && db.receipts == before.receipts && db.created == before.created
    && db.contentErased == before.contentErased + (if row.contentDone || row.request.kind == Actor || at < 1 then {} else {op})
    && db.identityErased == before.identityErased + (if row.identityDone || at < 3 then {} else {op})
    && (at >= 5 && row.request.kind == Tenant ==> NoneWaiting(before, tenantId))
    && (at == 6 && row.request.kind == Tenant ==> db.backups == map b | b in before.backups && b.0 != tenantId :: before.backups[b])
    && (at < 6 || row.request.kind != Tenant ==> db.backups == before.backups)
  }

  lemma {:induction false} CallGoesOn(before: Db, db: Db, op: Id, row: Row, stage: Stage, after: Db, next: Stage)
    requires CallDid(before, db, op, row, stage) && Statement(db, op, row, stage) == (after, Some(next))
    ensures CallDid(before, after, op, row, next)
  {
    if stage == DoCheck {
      NoPending(before, db, row.request.tenantId);
    }
  }

  lemma {:induction false} CallCutOff(before: Db, db: Db, op: Id, row: Row, stage: Stage)
    requires CallDid(before, db, op, row, stage)
    ensures Executed(before, db, op, Interrupted)
  {
  }

  lemma {:induction false} NoPending(before: Db, db: Db, tenantId: Id)
    requires db.backups == before.backups
    ensures PendingBackups(db, tenantId) == {} <==> NoneWaiting(before, tenantId)
  {
    if b :| b in before.backups && b.0 == tenantId && !before.backups[b] {
      assert b in PendingBackups(db, tenantId);
    }
  }

  lemma {:induction false} CallFinished(before: Db, db: Db, op: Id, row: Row, stage: Stage, after: Db)
    requires CallDid(before, db, op, row, stage) && Statement(db, op, row, stage) == (after, None)
    requires stage == DoFinish ==> op in after.receipts && op !in db.receipts
    ensures Executed(before, after, op, if stage == DoFinish then Complete else AwaitingBackups)
  {
    if stage == DoCheck {
      NoPending(before, db, row.request.tenantId);
    }
  }

  /** A call that read `row` is at `stage` after `used` statements. */
  ghost predicate InCall(db: Db, op: Id, row: Row, stage: Stage, used: int) {
    && op in db.journal
    && db.journal[op].request == row.request
    && WorkerOk(db, Executing(op, row, stage))
    && Progress(row, db.journal[op], stage)
    && used == Position(stage) - Position(FirstStage(row)) - Jumped(row, stage)
  }

  lemma {:induction false} CallStep(db: Db, op: Id, row: Row, stage: Stage, used: int, after: Db, next: Stage)
    requires TablesOk(db) && InCall(db, op, row, stage, used)
    requires Statement(db, op, row, stage) == (after, Some(next))
    ensures InCall(after, op, row, next, used + 1)
  {
    StatementKeeps(db, Executing(op, row, stage));
    CallRow(db, op, row, stage, after, next);
  }

  lemma {:induction false} CallRow(db: Db, op: Id, row: Row, stage: Stage, after: Db, next: Stage)
    requires op in db.journal && db.journal[op].request == row.request && Progress(row, db.journal[op], stage)
    requires Statement(db, op, row, stage) == (after, Some(next))
    ensures op in after.journal && after.journal[op].request == row.request && Progress(row, after.journal[op], next)
  {
  }

  /** A call ends by completing the operation, or at a tenant's check, changing nothing. */
  lemma {:induction false} CallEnds(db: Db, op: Id, row: Row, stage: Stage, used: int, after: Db)
    requires InCall(db, op, row, stage, used) && Statement(db, op, row, stage) == (after, None)
    ensures stage != DoFinish ==>
      && stage == DoCheck && after == db && row.request.kind == Tenant
      && db.journal[op].contentDone && db.journal[op].identityDone
      && PendingBackups(db, row.request.tenantId) != {}
    ensures stage == DoFinish && op in after.receipts && op !in after.journal ==> StagesLeft(after, op) < RowStages(row)
  {
  }

  lemma {:induction false} CallProgress(db: Db, op: Id, row: Row, stage: Stage, used: int)
    requires InCall(db, op, row, stage, used)
    ensures 0 <= used < 7
    ensures used >= 3 ==> StagesLeft(db, op) < RowStages(row)
    ensures stage == DoCheck || stage == DoClear ==> db.journal[op].contentDone && db.journal[op].identityDone
    ensures stage == DoCheck ==> row.request.kind == Tenant
  {
  }

  /** Statements from the start of the saga to this stage. */
  function Position(stage: Stage): nat {
    match stage
    case DoEraseContent => 0
    case DoMarkContent => 1
    case DoEraseIdentity => 2
    case DoMarkIdentity => 3
    case DoCheck => 4
    case DoClear => 5
    case DoFinish => 6
  }

  /** Statements a call passes over: a done identity stage, or the backup stages of
      an erasure that is not a tenant's. */
  function Jumped(row: Row, stage: Stage): nat {
    (if !row.contentDone && row.identityDone && Position(stage) >= 4 then 2 else 0)
    + (if row.request.kind != Tenant && stage == DoFinish && FirstStage(row) != DoFinish then 2 else 0)
  }

  /** The marks set so far by the call that is at `stage`. */
  predicate Progress(start: Row, current: Row, stage: Stage) {
    && (current.contentDone <==> start.contentDone || Position(stage) >= 2)
    && (current.identityDone <==> start.identityDone || Position(stage) >= 4)
    && Position(stage) >= Position(FirstStage(start))
    && (stage == DoCheck || stage == DoClear ==> start.request.kind == Tenant)
    && (start.identityDone ==> stage != DoEraseIdentity && stage != DoMarkIdentity)
  }

  lemma {:induction false} OwnKeyUnused(db: Db, op: Id, row: Row)
    requires TablesOk(db) && KeysDistinct(db)
    requires op in db.journal && db.journal[op].key == row.key
    ensures OperationsWithKey(db.receipts, row.key) == {} && op !in db.receipts
  {
    assert op in db.created && op !in db.receipts;
    forall x | x in db.receipts ensures db.receipts[x].key != row.key {
      assert x in db.created;
    }
  }
}
