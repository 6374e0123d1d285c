/** Events, memories and the evidence that links them (`MemoryRepository`, with the
    checkpoint, review and transfer repositories that also write memories). */
module EvidenceStore {
  import opened Wrappers

  type Id = nat

  datatype Status = Proposed | Active | Superseded | Disputed | Expired | Rejected

  datatype Relation = Supersedes | Disputes | Supports | DependsOn | RelatedTo

  /** Rows. The scope and the session that an event, a memory or a session names must
      exist; nothing asks that they belong to the row's project. `body` stands for the
      columns nothing here depends on. */
  datatype Scope = Scope(project: Id, name: string)
  datatype Session = Session(project: Id, scope: Option<Id>, client: string, external: Option<string>, ended: bool)
  datatype Context = Context(scope: Option<Id>, session: Option<Id>)
  datatype Event = Event(project: Id, seqNo: int, context: Context, body: string)
  datatype Memory = Memory(project: Id, status: Status, scope: Option<Id>, body: string)
  datatype Edge = Edge(project: Id, note: string)
  datatype Stream = Stream(project: Id, consumer: string, scopeKey: string, kinds: seq<string>)
  datatype Receipt = Receipt(acknowledged: int, delivered: int)

  /** The tables. `nextSeq` is `project_event_cursors`, one row per project; a source link
      is keyed by memory and event, an edge by its two memories and relation, a receipt by
      its stream. */
  datatype Store = Store(
    nextSeq: map<Id, nat>,
    scopes: map<Id, Scope>,
    sessions: map<Id, Session>,
    events: map<Id, Event>,
    memories: map<Id, Memory>,
    sources: map<(Id, Id), string>,
    edges: map<(Id, Id, Relation), Edge>,
    receipts: map<Stream, Receipt>,
    nextId: Id)

  datatype Error = InvalidSource | NoSource | WrongProject | InvalidStatus | NotFound | NotProposed
    | TargetRequired | NotActive | SelfRelation | Integrity | InvalidExport | SessionEnded | InvalidCursor

  const EMPTY := Store(map[], map[], map[], map[], map[], map[], map[], map[], 0)

  // ---------------------------------------------------------------------
  // What every store satisfies
  // ---------------------------------------------------------------------

  /** The memory has a source event of its own project. */
  ghost predicate Sourced(s: Store, m: Id)
    requires m in s.memories
  {
    exists e :: (m, e) in s.sources && e in s.events && s.events[e].project == s.memories[m].project
  }

  /** Active implies a same-project source. */
  ghost predicate Provenance(s: Store) {
    forall m :: m in s.memories && s.memories[m].status == Active ==> Sourced(s, m)
  }

  /** Source links and edges never leave a project. */
  ghost predicate Local(s: Store) {
    && (forall k :: k in s.sources ==> LocalSource(s, k))
    && (forall k :: k in s.edges ==> LocalEdge(s, k))
  }

  predicate LocalSource(s: Store, k: (Id, Id)) {
    k.0 in s.memories && k.1 in s.events && s.memories[k.0].project == s.events[k.1].project
  }

  predicate LocalEdge(s: Store, k: (Id, Id, Relation))
    requires k in s.edges
  {
    && k.0 in s.memories && k.1 in s.memories
    && s.memories[k.0].project == s.edges[k].project == s.memories[k.1].project
  }

  /** Each project's events are numbered 1 .. next_seq - 1, without gap or repetition. */
  ghost predicate GapFree(nextSeq: map<Id, nat>, events: map<Id, Event>) {
    InRange(nextSeq, events) && Numbered(events) && Covered(nextSeq, events)
  }

  ghost predicate InRange(nextSeq: map<Id, nat>, events: map<Id, Event>) {
    && (forall e :: e in events ==> events[e].project in nextSeq && 1 <= events[e].seqNo < nextSeq[events[e].project])
    && (forall p :: p in nextSeq ==> nextSeq[p] >= 1)
  }

  ghost predicate Covered(nextSeq: map<Id, nat>, events: map<Id, Event>) {
    forall p, n :: p in nextSeq && 1 <= n < nextSeq[p] ==> HasEvent(events, p, n)
  }

  /** The unique index on project and number. */
  predicate Numbered(events: map<Id, Event>) {
    forall d, e ::
      d in events && e in events && events[d].project == events[e].project && events[d].seqNo == events[e].seqNo ==> d == e
  }

  ghost predicate HasEvent(events: map<Id, Event>, p: Id, n: nat) {
    exists e :: e in events && events[e].project == p && events[e].seqNo == n
  }

  ghost predicate Issued(s: Store) {
    && (forall p :: p in s.nextSeq ==> p < s.nextId)
    && (forall x :: x in s.scopes ==> x < s.nextId && s.scopes[x].project in s.nextSeq)
    && (forall x :: x in s.sessions ==> x < s.nextId && s.sessions[x].project in s.nextSeq)
    && (forall e :: e in s.events ==> e < s.nextId)
    && (forall m :: m in s.memories ==> m < s.nextId && s.memories[m].project in s.nextSeq)
  }

  /** A nullable foreign key. */
  predicate Refers<V>(table: map<Id, V>, reference: Option<Id>) {
    reference.None? || reference.value in table
  }

  predicate EventsKnown(scopes: map<Id, Scope>, sessions: map<Id, Session>, events: map<Id, Event>) {
    forall e :: e in events ==> Refers(scopes, events[e].context.scope) && Refers(sessions, events[e].context.session)
  }

  predicate MemoriesKnown(scopes: map<Id, Scope>, memories: map<Id, Memory>) {
    forall m :: m in memories ==> Refers(scopes, memories[m].scope)
  }

  predicate SessionsKnown(scopes: map<Id, Scope>, sessions: map<Id, Session>) {
    forall x :: x in sessions ==> Refers(scopes, sessions[x].scope)
  }

  /** The unique keys of scopes and sessions. */
  predicate ScopesDistinct(scopes: map<Id, Scope>) {
    forall x, y :: x in scopes && y in scopes && scopes[x] == scopes[y] ==> x == y
  }

  predicate SessionsDistinct(sessions: map<Id, Session>) {
    forall x, y :: x in sessions && y in sessions && SameSession(sessions[x], sessions[y]) ==> x == y
  }

  predicate SameSession(a: Session, b: Session) {
    a.external.Some? && a.project == b.project && a.client == b.client && a.external == b.external
  }

  predicate ReceiptsKnown(nextSeq: map<Id, nat>, receipts: map<Stream, Receipt>) {
    forall k :: k in receipts ==> k.project in nextSeq && 0 <= receipts[k].acknowledged <= receipts[k].delivered
  }

  /** Foreign keys to scopes and sessions, unique keys, and the checks on receipts. */
  ghost predicate Known(s: Store) {
    && EventsKnown(s.scopes, s.sessions, s.events)
    && MemoriesKnown(s.scopes, s.memories)
    && SessionsKnown(s.scopes, s.sessions)
    && ScopesDistinct(s.scopes) && SessionsDistinct(s.sessions)
    && ReceiptsKnown(s.nextSeq, s.receipts)
  }

  /** The rules of every store, by name. */
  datatype Rule = IdsIssued | NumbersGapFree | LinksLocal | ActiveSourced | ContextsKnown

  ghost predicate Obeys(s: Store, rule: Rule) {
    match rule
    case IdsIssued => Issued(s)
    case NumbersGapFree => GapFree(s.nextSeq, s.events)
    case LinksLocal => Local(s)
    case ActiveSourced => Provenance(s)
    case ContextsKnown => Known(s)
  }

  ghost predicate Inv(s: Store) {
    forall rule :: Obeys(s, rule)
  }

  lemma {:induction false} Rules(s: Store)
    ensures Inv(s) <==> Issued(s) && GapFree(s.nextSeq, s.events) && Local(s) && Provenance(s) && Known(s)
  {
    if Inv(s) {
      assert Obeys(s, IdsIssued) && Obeys(s, NumbersGapFree) && Obeys(s, LinksLocal) && Obeys(s, ActiveSourced);
      assert Obeys(s, ContextsKnown);
    }
  }

  // ---------------------------------------------------------------------
  // Writers; each returns the committed tables or an error and the old ones
  // ---------------------------------------------------------------------

  function NewProject(s: Store): Store {
    s.(nextSeq := s.nextSeq[s.nextId := 1], nextId := s.nextId + 1)
  }

  /** `create_scope`; who owns a directory is the subject of `PathRegistry`. */
  function NewScope(s: Store, p: Id, name: string): Result<Store, Error> {
    if p !in s.nextSeq || exists x :: x in s.scopes && s.scopes[x] == Scope(p, name) then Err(Integrity)
    else Ok(s.(scopes := s.scopes[s.nextId := Scope(p, name)], nextId := s.nextId + 1))
  }

  predicate Started(s: Store, row: Session) {
    exists x :: x in s.sessions && SameSession(row, s.sessions[x])
  }

  /** `start_session`: a non-empty external id that is known is answered without a write. */
  function StartSession(s: Store, p: Id, scope: Option<Id>, client: string, external: Option<string>): Result<Store, Error> {
    var row := Session(p, scope, client, external, false);
    if external.Some? && external.value != "" && Started(s, row) then Ok(s)
    else if p !in s.nextSeq || !Refers(s.scopes, scope) || Started(s, row) then Err(Integrity)
    else Ok(s.(sessions := s.sessions[s.nextId := row], nextId := s.nextId + 1))
  }

  function EndSession(s: Store, x: Id): Result<Store, Error> {
    if x !in s.sessions then Err(NotFound) else Ok(s.(sessions := s.sessions[x := s.sessions[x].(ended := true)]))
  }

  /** The upsert of a poll's receipt, and the acknowledgement of one. */
  function Deliver(s: Store, k: Stream, cursor: nat, delivered: nat): Result<Store, Error> {
    if k.project !in s.nextSeq then Err(NotFound)
    else if delivered < cursor then Err(Integrity)
    else if k !in s.receipts then Ok(s.(receipts := s.receipts[k := Receipt(cursor, delivered)]))
    else if s.receipts[k].delivered >= delivered then Ok(s)
    else Ok(s.(receipts := s.receipts[k := s.receipts[k].(delivered := delivered)]))
  }

  function Acknowledge(s: Store, k: Stream, cursor: nat): Result<Store, Error> {
    if k !in s.receipts then Err(NotFound)
    else if !(s.receipts[k].acknowledged <= cursor <= s.receipts[k].delivered) then Err(InvalidCursor)
    else Ok(s.(receipts := s.receipts[k := s.receipts[k].(acknowledged := cursor)]))
  }

  predicate KnownContext(s: Store, c: Context) {
    Refers(s.scopes, c.scope) && Refers(s.sessions, c.session)
  }

  /** Advance the project's cursor and insert the event under the number it had. */
  function InsertEvent(s: Store, p: Id, c: Context, body: string): Store
    requires p in s.nextSeq
  {
    s.(events := s.events[s.nextId := Event(p, s.nextSeq[p], c, body)],
       nextSeq := s.nextSeq[p := s.nextSeq[p] + 1],
       nextId := s.nextId + 1)
  }

  /** `record_event`: the scope and the session must exist, in whatever project. */
  function RecordEvent(s: Store, p: Id, c: Context, body: string): Result<Store, Error> {
    if p !in s.nextSeq then Err(NotFound)
    else if !KnownContext(s, c) then Err(Integrity)
    else Ok(InsertEvent(s, p, c, body))
  }

  predicate EventOf(s: Store, p: Id, e: Id) {
    e in s.events && s.events[e].project == p
  }

  predicate HasSource(s: Store, m: Id, p: Id) {
    exists k :: k in s.sources && k.0 == m && EventOf(s, p, k.1)
  }

  /** `_require_active_source`. */
  function SourceProblem(s: Store, m: Id, p: Id, submitted: seq<Id>): Option<Error> {
    if exists i :: 0 <= i < |submitted| && !EventOf(s, p, submitted[i]) then Some(InvalidSource)
    else if submitted == [] && !HasSource(s, m, p) then Some(NoSource)
    else None
  }

  /** `INSERT OR IGNORE` of the memory's links: a link that exists keeps its note. */
  function LinkSources(sources: map<(Id, Id), string>, m: Id, submitted: seq<Id>): map<(Id, Id), string>
    decreases |submitted|
  {
    if submitted == [] then sources
    else
      var k := (m, submitted[0]);
      LinkSources(if k in sources then sources else sources[k := ""], m, submitted[1..])
  }

  function Past(nextId: Id, id: Id): Id {
    if id < nextId then nextId else id + 1
  }

  /** `upsert_memory` of this row; `given` is a caller-chosen id. */
  function Upsert(s: Store, given: Option<Id>, row: Memory, submitted: seq<Id>): Result<(Store, Id), Error> {
    var p, m := row.project, if given.Some? then given.value else s.nextId;
    var problem := if row.status == Active then SourceProblem(s, m, p, submitted) else None;
    if problem.Some? then Err(problem.value)
    else if m in s.memories && s.memories[m].project != p then Err(WrongProject)
    else if (m !in s.memories && p !in s.nextSeq) || !Refers(s.scopes, row.scope) then Err(Integrity)
    else if exists i :: 0 <= i < |submitted| && !EventOf(s, p, submitted[i]) then Err(InvalidSource)
    else Ok((s.(memories := s.memories[m := row],
                sources := LinkSources(s.sources, m, submitted),
                nextId := Past(s.nextId, m)), m))
  }

  function RelationFor(status: Status): Option<Relation> {
    if status == Superseded then Some(Supersedes) else if status == Disputed then Some(Disputes) else None
  }

  /** `transition`: any known memory may move to any status but proposed. */
  function Transition(s: Store, m: Id, status: Status, related: Option<Id>, note: string): Result<Store, Error> {
    if status == Proposed then Err(InvalidStatus)
    else if m !in s.memories then Err(NotFound)
    else
      var p := s.memories[m].project;
      var problem := if status == Active then SourceProblem(s, m, p, []) else None;
      if problem.Some? then Err(problem.value)
      else
        var moved := s.(memories := s.memories[m := s.memories[m].(status := status)]);
        if RelationFor(status).None? || related.None? then Ok(moved)
        else if related.value !in s.memories || s.memories[related.value].project != p then Err(WrongProject)
        else
          var k := (related.value, m, RelationFor(status).value);
          Ok(if k in s.edges then moved else moved.(edges := moved.edges[k := Edge(p, note)]))
  }

  datatype ReviewAction = Approve | Reject | Supersede | Dispute

  /** `review_candidate`: superseding and disputing are two transactions, the second of
      which may fail after the first has activated the candidate. `conflict` is the
      candidate's most similar conflict. */
  function Review(s: Store, m: Id, action: ReviewAction, related: Option<Id>, conflict: Option<Id>, note: string): (Store, Option<Error>) {
    if m !in s.memories || s.memories[m].status != Proposed then (s, Some(NotProposed))
    else if action == Approve then Committed(s, Transition(s, m, Active, None, note))
    else if action == Reject then Committed(s, Transition(s, m, Rejected, None, note))
    else
      var target := if related.Some? then related else conflict;
      if target.None? then (s, Some(TargetRequired))
      else
        var approved := Transition(s, m, Active, None, note);
        if approved.Err? then (s, Some(approved.error))
        else Committed(approved.value,
          Transition(approved.value, target.value, if action == Supersede then Superseded else Disputed, Some(m), note))
  }

  function Committed(before: Store, r: Result<Store, Error>): (Store, Option<Error>) {
    match r
    case Ok(after) => (after, None)
    case Err(error) => (before, Some(error))
  }

  datatype Final = Final(project: Id, session: Id, scope: Option<Id>, body: string, handoff: string,
    verified: seq<Id>, previous: Option<Id>)

  /** The session's scope stands in for a missing one. */
  function FinalScope(s: Store, f: Final): Option<Id>
    requires f.session in s.sessions
  {
    if f.scope.None? then s.sessions[f.session].scope else f.scope
  }

  /** The checks before the transaction: unlike other writers, a checkpoint asks that its
      session and scope belong to its project. */
  function FinalProblem(s: Store, f: Final): Option<Error> {
    if f.project !in s.nextSeq || f.session !in s.sessions then Some(NotFound)
    else if s.sessions[f.session].project != f.project then Some(WrongProject)
    else if s.sessions[f.session].ended then Some(SessionEnded)
    else if f.verified == [] then Some(NoSource)
    else
      var scope := FinalScope(s, f);
      if scope.None? then None
      else if scope.value !in s.scopes then Some(NotFound)
      else if s.scopes[scope.value].project != f.project then Some(WrongProject)
      else None
  }

  /** The handoff of a final checkpoint, backed by these events. */
  function InsertHandoff(s: Store, row: Memory, evidence: seq<Id>): Store {
    s.(memories := s.memories[s.nextId := row],
       sources := LinkSources(s.sources, s.nextId, evidence),
       nextId := s.nextId + 1)
  }

  /** A new handoff supersedes the previous one. */
  function ReplaceHandoff(s: Store, m: Id, previous: Id): Store
    requires previous in s.memories
  {
    var row := s.memories[previous];
    s.(memories := s.memories[previous := row.(status := Superseded)],
       edges := s.edges[(m, previous, Supersedes) := Edge(row.project, "replaced by final checkpoint")])
  }

  function HandoffRow(s: Store, f: Final): Memory
    requires f.session in s.sessions
  {
    Memory(f.project, Active, FinalScope(s, f), f.handoff)
  }

  /** The checks inside the transaction, after the event went in. */
  function FinalRowsProblem(s: Store, f: Final): Option<Error> {
    if exists i :: 0 <= i < |f.verified| && !EventOf(s, f.project, f.verified[i]) then Some(InvalidSource)
    else if f.previous.None? then None
    else if f.previous.value !in s.memories || s.memories[f.previous.value].project != f.project then Some(WrongProject)
    else if s.memories[f.previous.value].status != Active then Some(NotActive)
    else None
  }

  /** The handoff with its links, and the one it replaces. */
  function PublishHandoff(s: Store, row: Memory, evidence: seq<Id>, previous: Option<Id>): Store
    requires previous.Some? ==> previous.value in s.memories
  {
    var inserted := InsertHandoff(s, row, evidence);
    if previous.None? then inserted else ReplaceHandoff(inserted, s.nextId, previous.value)
  }

  /** The transaction of a final checkpoint: its event, the handoff backed by that event
      and the verified ones, the handoff it replaces, and the end of its session. */
  function FinalCheckpoint(s: Store, f: Final): Result<Store, Error> {
    if FinalProblem(s, f).Some? then Err(FinalProblem(s, f).value)
    else
      var s1 := InsertEvent(s, f.project, Context(FinalScope(s, f), Some(f.session)), f.body);
      var problem := FinalRowsProblem(s1, f);
      if problem.Some? then Err(problem.value)
      else EndSession(PublishHandoff(s1, HandoffRow(s, f), [s.nextId] + f.verified, f.previous), f.session)
  }

  /** One investigation claim: its event, and a memory backed by it. */
  function InsertClaim(s: Store, p: Id, c: Context, body: string, status: Status): Store
    requires p in s.nextSeq
  {
    var s1 := InsertEvent(s, p, c, body);
    s1.(memories := s1.memories[s1.nextId := Memory(p, status, c.scope, body)],
        sources := s1.sources[(s1.nextId, s.nextId) := "investigation claim"],
        nextId := s1.nextId + 1)
  }

  function CreateRelation(s: Store, p: Id, a: Id, b: Id, relation: Relation, note: string): Result<Store, Error> {
    if a == b then Err(SelfRelation)
    else if !(a in s.memories && b in s.memories && s.memories[a].project == p == s.memories[b].project) then Err(WrongProject)
    else if (a, b, relation) in s.edges then Err(Integrity)
    else Ok(s.(edges := s.edges[(a, b, relation) := Edge(p, note)]))
  }

  /** Maintenance deletes memories; their links and edges go with them. */
  function Purge(s: Store, due: set<Id>): Store {
    s.(memories := s.memories - due,
       sources := map k | k in s.sources && k.0 !in due :: s.sources[k],
       edges := map k | k in s.edges && k.0 !in due && k.1 !in due :: s.edges[k])
  }

  // ---------------------------------------------------------------------
  // Every writer keeps the invariant
  // ---------------------------------------------------------------------

  /** Links and provenance look at events, memories, source links and edges only. */
  lemma {:induction false} OthersKept(s: Store, t: Store)
    requires Local(s) && Provenance(s)
    requires t.events == s.events && t.memories == s.memories && t.sources == s.sources && t.edges == s.edges
    ensures Local(t) && Provenance(t)
  {
    forall m | m in t.memories && t.memories[m].status == Active ensures Sourced(t, m) {
      assert Sourced(s, m);
    }
    forall k | k in t.sources ensures LocalSource(t, k) {
      assert LocalSource(s, k);
    }
    forall k | k in t.edges ensures LocalEdge(t, k) {
      assert LocalEdge(s, k);
    }
  }

  lemma {:induction false} InsertEventGapFree(s: Store, p: Id, c: Context, body: string, t: Store)
    requires Issued(s) && GapFree(s.nextSeq, s.events) && p in s.nextSeq && t == InsertEvent(s, p, c, body)
    ensures GapFree(t.nextSeq, t.events)
  {
    assert s.nextId !in s.events;
    forall q, n | q in t.nextSeq && 1 <= n < t.nextSeq[q] ensures HasEvent(t.events, q, n) {
      if q == p && n == s.nextSeq[p] {
        assert t.events[s.nextId].seqNo == n;
      } else {
        assert HasEvent(s.events, q, n);
        var e :| e in s.events && s.events[e].project == q && s.events[e].seqNo == n;
        assert t.events[e] == s.events[e];
      }
    }
  }

  /** A new event row leaves links and provenance alone. */
  lemma {:induction false} MoreEventsKept(s: Store, t: Store)
    requires Local(s) && Provenance(s)
    requires forall e :: e in s.events ==> e in t.events && t.events[e] == s.events[e]
    requires t.memories == s.memories && t.sources == s.sources && t.edges == s.edges
    ensures Local(t) && Provenance(t)
  {
    forall m | m in t.memories && t.memories[m].status == Active ensures Sourced(t, m) {
      var e :| (m, e) in s.sources && e in s.events && s.events[e].project == s.memories[m].project;
      assert (m, e) in t.sources;
    }
    forall k | k in t.sources ensures LocalSource(t, k) {
      assert LocalSource(s, k);
    }
    forall k | k in t.edges ensures LocalEdge(t, k) {
      assert LocalEdge(s, k);
    }
  }

  lemma {:induction false} InsertEventKeeps(s: Store, p: Id, c: Context, body: string, t: Store)
    requires Inv(s) && p in s.nextSeq && KnownContext(s, c) && t == InsertEvent(s, p, c, body)
    ensures Inv(t)
  {
    Rules(s);
    InsertEventGapFree(s, p, c, body, t);
    assert s.nextId !in s.events;
    MoreEventsKept(s, t);
    InsertEventKnown(s, p, c, body, t);
    Rules(t);
  }

  lemma {:induction false} InsertEventKnown(s: Store, p: Id, c: Context, body: string, t: Store)
    requires Issued(s) && Known(s) && p in s.nextSeq && KnownContext(s, c) && t == InsertEvent(s, p, c, body)
    ensures Issued(t) && Known(t)
  {
  }

  lemma {:induction false} LinkSourcesExact(sources: map<(Id, Id), string>, m: Id, submitted: seq<Id>)
    ensures LinkSources(sources, m, submitted).Keys == sources.Keys + set e | e in submitted :: (m, e)
    decreases |submitted|
  {
    if submitted != [] {
      var k := (m, submitted[0]);
      LinkSourcesExact(if k in sources then sources else sources[k := ""], m, submitted[1..]);
      assert submitted == [submitted[0]] + submitted[1..];
    }
  }

  /** A memory row written together with links to these events. */
  ghost predicate PutsMemory(s: Store, t: Store, m: Id, row: Memory, linked: seq<Id>) {
    && (m in s.memories ==> s.memories[m].project == row.project)
    && row.project in s.nextSeq && Refers(s.scopes, row.scope)
    && (forall i :: 0 <= i < |linked| ==> EventOf(s, row.project, linked[i]))
    && t == s.(memories := s.memories[m := row], sources := t.sources, nextId := Past(s.nextId, m))
    && t.sources.Keys == s.sources.Keys + set e | e in linked :: (m, e)
  }

  lemma {:induction false} PutMemorySourced(s: Store, t: Store, m: Id, row: Memory, linked: seq<Id>)
    requires Provenance(s) && PutsMemory(s, t, m, row, linked)
    requires row.status == Active ==> linked != [] || HasSource(s, m, row.project)
    ensures Provenance(t)
  {
    forall x | x in t.memories && t.memories[x].status == Active ensures Sourced(t, x) {
      if x == m && linked != [] {
        assert linked[0] in linked && (m, linked[0]) in t.sources;
      } else if x == m {
        var k :| k in s.sources && k.0 == m && EventOf(s, row.project, k.1);
        assert (m, k.1) in t.sources;
      } else {
        var e :| (x, e) in s.sources && e in s.events && s.events[e].project == s.memories[x].project;
        assert (x, e) in t.sources;
      }
    }
  }

  lemma {:induction false} PutMemoryLocal(s: Store, t: Store, m: Id, row: Memory, linked: seq<Id>)
    requires Local(s) && PutsMemory(s, t, m, row, linked)
    ensures Local(t)
  {
    forall k | k in t.sources ensures LocalSource(t, k) {
      if k in s.sources {
        assert LocalSource(s, k);
      } else {
        var e :| e in linked && k == (m, e);
      }
    }
    forall k | k in t.edges ensures LocalEdge(t, k) {
      assert LocalEdge(s, k);
    }
  }

  /** Writing a memory row together with valid links to events of its project. */
  lemma {:induction false} PutMemoryKeeps(s: Store, t: Store, m: Id, row: Memory, linked: seq<Id>)
    requires Inv(s) && PutsMemory(s, t, m, row, linked)
    requires row.status == Active ==> linked != [] || HasSource(s, m, row.project)
    ensures Inv(t)
  {
    Rules(s);
    PutMemorySourced(s, t, m, row, linked);
    PutMemoryLocal(s, t, m, row, linked);
    Rules(t);
  }

  lemma {:induction false} UpsertKeeps(s: Store, given: Option<Id>, row: Memory, submitted: seq<Id>, t: Store, m: Id)
    requires Inv(s) && Upsert(s, given, row, submitted) == Ok((t, m))
    ensures Inv(t)
  {
    Rules(s);
    LinkSourcesExact(s.sources, m, submitted);
    PutMemoryKeeps(s, t, m, row, submitted);
  }

  lemma {:induction false} AddEdgeKeeps(s: Store, k: (Id, Id, Relation), edge: Edge, t: Store)
    requires Inv(s) && k.0 in s.memories && k.1 in s.memories
    requires s.memories[k.0].project == edge.project == s.memories[k.1].project
    requires t == s.(edges := s.edges[k := edge])
    ensures Inv(t)
  {
    Rules(s);
    Rules(t);
    forall m | m in t.memories && t.memories[m].status == Active ensures Sourced(t, m) {
      assert Sourced(s, m);
    }
    forall x | x in t.edges ensures LocalEdge(t, x) {
      if x != k {
        assert LocalEdge(s, x);
      }
    }
    forall x | x in t.sources ensures LocalSource(t, x) {
      assert LocalSource(s, x);
    }
  }

  lemma {:induction false} SetStatusKeeps(s: Store, m: Id, status: Status, t: Store)
    requires Inv(s) && m in s.memories
    requires status == Active ==> HasSource(s, m, s.memories[m].project)
    requires t == s.(memories := s.memories[m := s.memories[m].(status := status)])
    ensures Inv(t)
  {
    Rules(s);
    assert t == t.(nextId := Past(s.nextId, m));
    PutMemoryKeeps(s, t, m, s.memories[m].(status := status), []);
  }

  lemma {:induction false} TransitionKeeps(s: Store, m: Id, status: Status, related: Option<Id>, note: string, t: Store)
    requires Inv(s) && Transition(s, m, status, related, note) == Ok(t)
    ensures Inv(t)
  {
    var moved := s.(memories := s.memories[m := s.memories[m].(status := status)]);
    SetStatusKeeps(s, m, status, moved);
    if t != moved {
      AddEdgeKeeps(moved, (related.value, m, RelationFor(status).value), Edge(s.memories[m].project, note), t);
    }
  }

  /** The transitions a review runs: activate or reject, then perhaps one on the target. */
  lemma {:induction false} ReviewKeeps(s: Store, m: Id, action: ReviewAction, related: Option<Id>, conflict: Option<Id>, note: string, t: Store)
    requires Inv(s) && t == Review(s, m, action, related, conflict, note).0
    ensures Inv(t)
  {
    if t == s {
      return;
    }
    if action in {Approve, Reject} {
      TransitionKeeps(s, m, if action == Approve then Active else Rejected, None, note, t);
      return;
    }
    var target := if related.Some? then related.value else conflict.value;
    var approved := Transition(s, m, Active, None, note).value;
    TransitionKeeps(s, m, Active, None, note, approved);
    if t != approved {
      TransitionKeeps(approved, target, if action == Supersede then Superseded else Disputed, Some(m), note, t);
    }
  }

  lemma {:induction false} InsertHandoffKeeps(s: Store, row: Memory, evidence: seq<Id>, t: Store)
    requires Inv(s) && row.project in s.nextSeq && Refers(s.scopes, row.scope) && evidence != []
    requires forall i :: 0 <= i < |evidence| ==> EventOf(s, row.project, evidence[i])
    requires t == InsertHandoff(s, row, evidence)
    ensures Inv(t)
  {
    Rules(s);
    LinkSourcesExact(s.sources, s.nextId, evidence);
    PutMemoryKeeps(s, t, s.nextId, row, evidence);
  }

  lemma {:induction false} ReplaceHandoffKeeps(s: Store, m: Id, previous: Id, t: Store)
    requires Inv(s) && m in s.memories && previous in s.memories && s.memories[m].project == s.memories[previous].project
    requires t == ReplaceHandoff(s, m, previous)
    ensures Inv(t)
  {
    var moved := s.(memories := s.memories[previous := s.memories[previous].(status := Superseded)]);
    SetStatusKeeps(s, previous, Superseded, moved);
    AddEdgeKeeps(moved, (m, previous, Supersedes), Edge(s.memories[previous].project, "replaced by final checkpoint"), t);
  }

  lemma {:induction false} EndSessionKeeps(s: Store, x: Id, t: Store)
    requires Inv(s) && EndSession(s, x) == Ok(t)
    ensures Inv(t)
  {
    Rules(s);
    OthersKept(s, t);
    Rules(t);
  }

  lemma {:induction false} PublishHandoffKeeps(s: Store, row: Memory, evidence: seq<Id>, previous: Option<Id>, t: Store)
    requires Inv(s) && row.project in s.nextSeq && Refers(s.scopes, row.scope) && evidence != []
    requires forall i :: 0 <= i < |evidence| ==> EventOf(s, row.project, evidence[i])
    requires previous.Some? ==> previous.value in s.memories && s.memories[previous.value].project == row.project
    requires t == PublishHandoff(s, row, evidence, previous)
    ensures Inv(t)
  {
    var inserted := InsertHandoff(s, row, evidence);
    InsertHandoffKeeps(s, row, evidence, inserted);
    if previous.Some? {
      ReplaceHandoffKeeps(inserted, s.nextId, previous.value, t);
    }
  }

  lemma {:induction false} FinalCheckpointKeeps(s: Store, f: Final, t: Store)
    requires Inv(s) && FinalCheckpoint(s, f) == Ok(t)
    ensures Inv(t)
  {
    Rules(s);
    var c, evidence := Context(FinalScope(s, f), Some(f.session)), [s.nextId] + f.verified;
    var s1 := InsertEvent(s, f.project, c, f.body);
    InsertEventKeeps(s, f.project, c, f.body, s1);
    var s2 := PublishHandoff(s1, HandoffRow(s, f), evidence, f.previous);
    PublishHandoffKeeps(s1, HandoffRow(s, f), evidence, f.previous, s2);
    EndSessionKeeps(s2, f.session, t);
  }

  lemma {:induction false} InsertClaimKeeps(s: Store, p: Id, c: Context, body: string, status: Status, t: Store)
    requires Inv(s) && p in s.nextSeq && KnownContext(s, c) && t == InsertClaim(s, p, c, body, status)
    ensures Inv(t)
  {
    Rules(s);
    var s1 := InsertEvent(s, p, c, body);
    InsertEventKeeps(s, p, c, body, s1);
    PutMemoryKeeps(s1, t, s1.nextId, Memory(p, status, c.scope, body), [s.nextId]);
  }

  lemma {:induction false} PurgeKeeps(s: Store, due: set<Id>, t: Store)
    requires Inv(s) && t == Purge(s, due)
    ensures Inv(t)
  {
    Rules(s);
    PurgeLinksKept(s, due, t);
    Rules(t);
  }

  lemma {:induction false} PurgeLinksKept(s: Store, due: set<Id>, t: Store)
    requires Local(s) && Provenance(s) && t == Purge(s, due)
    ensures Local(t) && Provenance(t)
  {
    forall m | m in t.memories && t.memories[m].status == Active ensures Sourced(t, m) {
      var e :| (m, e) in s.sources && e in s.events && s.events[e].project == s.memories[m].project;
      assert (m, e) in t.sources;
    }
    forall k | k in t.sources ensures LocalSource(t, k) {
      assert LocalSource(s, k);
    }
    forall k | k in t.edges ensures LocalEdge(t, k) {
      assert LocalEdge(s, k);
    }
  }

  lemma {:induction false} NewProjectGapFree(s: Store, t: Store)
    requires Issued(s) && GapFree(s.nextSeq, s.events) && t == NewProject(s)
    ensures GapFree(t.nextSeq, t.events)
  {
    assert s.nextId !in s.nextSeq;
    forall p, n | p in t.nextSeq && 1 <= n < t.nextSeq[p] ensures HasEvent(t.events, p, n) {
      assert p in s.nextSeq && n < s.nextSeq[p];
    }
  }

  lemma {:induction false} NewProjectKeeps(s: Store, t: Store)
    requires Inv(s) && t == NewProject(s)
    ensures Inv(t)
  {
    Rules(s);
    NewProjectGapFree(s, t);
    OthersKept(s, t);
    NewProjectKnown(s, t);
    Rules(t);
  }

  lemma {:induction false} NewProjectKnown(s: Store, t: Store)
    requires Issued(s) && Known(s) && t == NewProject(s)
    ensures Issued(t) && Known(t)
  {
  }

  lemma {:induction false} NewScopeKeeps(s: Store, p: Id, name: string, t: Store)
    requires Inv(s) && NewScope(s, p, name) == Ok(t)
    ensures Inv(t)
  {
    Rules(s);
    assert s.nextId !in s.scopes;
    OthersKept(s, t);
    Rules(t);
  }

  lemma {:induction false} SessionRowDistinct(sessions: map<Id, Session>, x: Id, row: Session)
    requires SessionsDistinct(sessions) && x !in sessions && forall y :: y in sessions ==> !SameSession(row, sessions[y])
    ensures SessionsDistinct(sessions[x := row])
  {
    forall y | y in sessions ensures !SameSession(sessions[y], row) {
      assert !SameSession(row, sessions[y]);
    }
  }

  lemma {:induction false} SessionRowKeeps(s: Store, row: Session, t: Store)
    requires Inv(s) && row.project in s.nextSeq && Refers(s.scopes, row.scope)
    requires forall x :: x in s.sessions ==> !SameSession(row, s.sessions[x])
    requires t == s.(sessions := s.sessions[s.nextId := row], nextId := s.nextId + 1)
    ensures Inv(t)
  {
    Rules(s);
    SessionRowDistinct(s.sessions, s.nextId, row);
    OthersKept(s, t);
    SessionRowKnown(s, row, t);
    Rules(t);
  }

  lemma {:induction false} SessionRowKnown(s: Store, row: Session, t: Store)
    requires Issued(s) && Known(s) && row.project in s.nextSeq && Refers(s.scopes, row.scope)
    requires t == s.(sessions := s.sessions[s.nextId := row], nextId := s.nextId + 1) && SessionsDistinct(t.sessions)
    ensures Issued(t) && Known(t)
  {
  }

  lemma {:induction false} StartSessionKeeps(s: Store, p: Id, scope: Option<Id>, client: string, external: Option<string>, t: Store)
    requires Inv(s) && StartSession(s, p, scope, client, external) == Ok(t)
    ensures Inv(t)
  {
    var row := Session(p, scope, client, external, false);
    if t != s {
      assert !Started(s, row);
      SessionRowKeeps(s, row, t);
    }
  }

  lemma {:induction false} ReceiptKeeps(s: Store, k: Stream, r: Receipt, t: Store)
    requires Inv(s) && k.project in s.nextSeq && 0 <= r.acknowledged <= r.delivered
    requires t == s.(receipts := s.receipts[k := r])
    ensures Inv(t)
  {
    Rules(s);
    OthersKept(s, t);
    Rules(t);
  }

  lemma {:induction false} DeliverKeeps(s: Store, k: Stream, cursor: nat, delivered: nat, t: Store)
    requires Inv(s) && Deliver(s, k, cursor, delivered) == Ok(t)
    ensures Inv(t)
  {
    ReceiptValid(s, k);
    if k !in s.receipts {
      ReceiptKeeps(s, k, Receipt(cursor, delivered), t);
    } else if t != s {
      ReceiptKeeps(s, k, s.receipts[k].(delivered := delivered), t);
    }
  }

  lemma {:induction false} AcknowledgeKeeps(s: Store, k: Stream, cursor: nat, t: Store)
    requires Inv(s) && Acknowledge(s, k, cursor) == Ok(t)
    ensures Inv(t)
  {
    ReceiptValid(s, k);
    ReceiptKeeps(s, k, t.receipts[k], t);
  }

  lemma {:induction false} ReceiptValid(s: Store, k: Stream)
    requires Inv(s)
    ensures k in s.receipts ==> k.project in s.nextSeq && 0 <= s.receipts[k].acknowledged <= s.receipts[k].delivered
  {
    Rules(s);
  }

  lemma {:induction false} EmptyObeys()
    ensures Inv(EMPTY)
  {
    Rules(EMPTY);
  }
}
