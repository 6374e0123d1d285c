/** The store's writers as they run: tables are fields, a failed transaction restores
    them. Each method is held to its specification in `EvidenceStore` and `Transfer`. */
module EvidenceRepository {
  import opened Wrappers
  import opened EvidenceStore
  import opened Transfer

  class Repository {
    var nextSeq: map<Id, nat>
    var scopes: map<Id, Scope>
    var sessions: map<Id, Session>
    var events: map<Id, Event>
    var memories: map<Id, Memory>
    var sources: map<(Id, Id), string>
    var edges: map<(Id, Id, Relation), Edge>
    var receipts: map<Stream, Receipt>
    var nextId: Id

    function View(): Store
      reads this
    {
      Store(nextSeq, scopes, sessions, events, memories, sources, edges, receipts, nextId)
    }

    constructor ()
      ensures View() == EMPTY
    {
      nextSeq, scopes, sessions, events, memories := map[], map[], map[], map[], map[];
      sources, edges, receipts, nextId := map[], map[], map[], 0;
    }

    /** A known external id is answered with the session that has it. */
    method StartSession(p: Id, scope: Option<Id>, client: string, external: Option<string>) returns (r: Result<Id, Error>)
      modifies this`sessions, this`nextId
      ensures match EvidenceStore.StartSession(old(View()), p, scope, client, external)
        case Ok(after) => r.Ok? && View() == after && r.value in sessions
          && sessions[r.value].project == p && sessions[r.value].client == client && sessions[r.value].external == external
        case Err(error) => r == Err(error) && View() == old(View())
    {
      var row := Session(p, scope, client, external, false);
      if x :| x in sessions && SameSession(row, sessions[x]) {
        assert Started(View(), row);
        return if external.value != "" then Ok(x) else Err(Integrity);
      }
      assert !Started(View(), row);
      if p !in nextSeq || !Refers(scopes, scope) {
        return Err(Integrity);
      }
      sessions := sessions[nextId := row];
      r := Ok(nextId);
      nextId := nextId + 1;
    }

    method RecordEvent(p: Id, c: Context, body: string) returns (r: Result<Id, Error>)
      modifies this`nextSeq, this`events, this`nextId
      ensures match EvidenceStore.RecordEvent(old(View()), p, c, body)
        case Ok(after) => r == Ok(old(nextId)) && View() == after
        case Err(error) => r == Err(error) && View() == old(View())
    {
      if p !in nextSeq {
        return Err(NotFound);
      }
      var seqNo := nextSeq[p];
      nextSeq := nextSeq[p := seqNo + 1];
      if !Refers(scopes, c.scope) || !Refers(sessions, c.session) {
        nextSeq := nextSeq[p := seqNo];
        assert nextSeq == old(nextSeq);
        return Err(Integrity);
      }
      events := events[nextId := Event(p, seqNo, c, body)];
      r := Ok(nextId);
      nextId := nextId + 1;
    }

    method RequireActiveSource(m: Id, p: Id, submitted: seq<Id>) returns (problem: Option<Error>)
      ensures problem == SourceProblem(View(), m, p, submitted)
    {
      var i := 0;
      while i < |submitted|
        invariant 0 <= i <= |submitted|
        invariant forall j :: 0 <= j < i ==> EventOf(View(), p, submitted[j])
      {
        if submitted[i] !in events || events[submitted[i]].project != p {
          return Some(InvalidSource);
        }
        i := i + 1;
      }
      var existing := exists k :: k in sources && k.0 == m && k.1 in events && events[k.1].project == p;
      assert existing == HasSource(View(), m, p);
      return if submitted == [] && !existing then Some(NoSource) else None;
    }

    /** Insert the links one by one, ignoring those that exist. */
    method LinkEvidence(m: Id, p: Id, submitted: seq<Id>) returns (ok: bool)
      modifies this`sources
      ensures ok <==> forall i :: 0 <= i < |submitted| ==> EventOf(old(View()), p, submitted[i])
      ensures ok ==> sources == LinkSources(old(sources), m, submitted)
    {
      var i := 0;
      assert submitted[0..] == submitted;
      while i < |submitted|
        invariant 0 <= i <= |submitted|
        invariant forall j :: 0 <= j < i ==> EventOf(old(View()), p, submitted[j])
        invariant LinkSources(old(sources), m, submitted) == LinkSources(sources, m, submitted[i..])
      {
        if submitted[i] !in events || events[submitted[i]].project != p {
          return false;
        }
        assert submitted[i..][1..] == submitted[i + 1..];
        if (m, submitted[i]) !in sources {
          sources := sources[(m, submitted[i]) := ""];
        }
        i := i + 1;
      }
      ok := true;
    }

    method UpsertMemory(given: Option<Id>, row: Memory, submitted: seq<Id>) returns (r: Result<Id, Error>)
      modifies this`memories, this`sources, this`nextId
      ensures match Upsert(old(View()), given, row, submitted)
        case Ok(done) => r == Ok(done.1) && View() == done.0
        case Err(error) => r == Err(error) && View() == old(View())
    {
      var m := if given.Some? then given.value else nextId;
      if row.status == Active {
        var problem := RequireActiveSource(m, row.project, submitted);
        if problem.Some? {
          return Err(problem.value);
        }
      }
      if m in memories && memories[m].project != row.project {
        return Err(WrongProject);
      }
      if (m !in memories && row.project !in nextSeq) || !Refers(scopes, row.scope) {
        return Err(Integrity);
      }
      var oldMemories, oldSources := memories, sources;
      memories := memories[m := row];
      var ok := LinkEvidence(m, row.project, submitted);
      if !ok {
        memories, sources := oldMemories, oldSources;
        return Err(InvalidSource);
      }
      nextId := Past(nextId, m);
      r := Ok(m);
    }

    method TransitionMemory(m: Id, status: Status, related: Option<Id>, note: string) returns (failed: Option<Error>)
      modifies this`memories, this`edges
      ensures (View(), failed) == Committed(old(View()), Transition(old(View()), m, status, related, note))
    {
      if status == Proposed {
        return Some(InvalidStatus);
      }
      if m !in memories {
        return Some(NotFound);
      }
      var row := memories[m];
      if status == Active {
        var problem := RequireActiveSource(m, row.project, []);
        if problem.Some? {
          return problem;
        }
      }
      var before := memories;
      memories := memories[m := row.(status := status)];
      var relation := RelationFor(status);
      if relation.Some? && related.Some? {
        if related.value !in before || before[related.value].project != row.project {
          memories := before;
          return Some(WrongProject);
        }
        var k := (related.value, m, relation.value);
        if k !in edges {
          edges := edges[k := Edge(row.project, note)];
        }
      }
      failed := None;
    }

    method ReviewCandidate(m: Id, action: ReviewAction, related: Option<Id>, conflict: Option<Id>, note: string) returns (failed: Option<Error>)
      modifies this`memories, this`edges
      ensures (View(), failed) == Review(old(View()), m, action, related, conflict, note)
    {
      if m !in memories || memories[m].status != Proposed {
        return Some(NotProposed);
      }
      if action == Approve {
        failed := TransitionMemory(m, Active, None, note);
        return;
      }
      if action == Reject {
        failed := TransitionMemory(m, Rejected, None, note);
        return;
      }
      var target := if related.Some? then related else conflict;
      if target.None? {
        return Some(TargetRequired);
      }
      failed := TransitionMemory(m, Active, None, note);
      if failed.None? {
        failed := TransitionMemory(target.value, if action == Supersede then Superseded else Disputed, Some(m), note);
      }
    }

    method CheckFinal(f: Final) returns (problem: Option<Error>, scope: Option<Id>)
      ensures problem == FinalProblem(View(), f)
      ensures problem.None? ==> scope == FinalScope(View(), f)
    {
      var p := f.project;
      scope := f.scope;
      if p !in nextSeq || f.session !in sessions {
        return Some(NotFound), scope;
      }
      var session := sessions[f.session];
      if session.project != p {
        return Some(WrongProject), scope;
      }
      if session.ended {
        return Some(SessionEnded), scope;
      }
      if f.verified == [] {
        return Some(NoSource), scope;
      }
      scope := if scope.None? then session.scope else scope;
      if scope.Some? && scope.value !in scopes {
        return Some(NotFound), scope;
      }
      if scope.Some? && scopes[scope.value].project != p {
        return Some(WrongProject), scope;
      }
      problem := None;
    }

    method CheckFinalRows(f: Final) returns (problem: Option<Error>)
      ensures problem == FinalRowsProblem(View(), f)
    {
      var i := 0;
      while i < |f.verified|
        invariant 0 <= i <= |f.verified|
        invariant forall j :: 0 <= j < i ==> EventOf(View(), f.project, f.verified[j])
      {
        if f.verified[i] !in events || events[f.verified[i]].project != f.project {
          assert !EventOf(View(), f.project, f.verified[i]);
          return Some(InvalidSource);
        }
        i := i + 1;
      }
      if f.previous.None? {
        return None;
      }
      if f.previous.value !in memories || memories[f.previous.value].project != f.project {
        return Some(WrongProject);
      }
      problem := if memories[f.previous.value].status != Active then Some(NotActive) else None;
    }

    /** Insert the handoff with its links, and supersede the one it replaces. */
    method PublishHandoff(row: Memory, evidence: seq<Id>, previous: Option<Id>)
      requires forall i :: 0 <= i < |evidence| ==> EventOf(View(), row.project, evidence[i])
      requires previous.Some? ==> previous.value in memories
      modifies this`memories, this`sources, this`edges, this`nextId
      ensures View() == EvidenceStore.PublishHandoff(old(View()), row, evidence, previous)
    {
      var m := nextId;
      var ok := LinkEvidence(m, row.project, evidence);
      memories := memories[m := row];
      nextId := m + 1;
      if previous.Some? {
        var replaced := memories[previous.value];
        memories := memories[previous.value := replaced.(status := Superseded)];
        edges := edges[(m, previous.value, Supersedes) := Edge(replaced.project, "replaced by final checkpoint")];
      }
    }

    method CreateFinalCheckpoint(f: Final) returns (failed: Option<Error>)
      modifies this
      ensures (View(), failed) == Committed(old(View()), FinalCheckpoint(old(View()), f))
    {
      var problem, scope := CheckFinal(f);
      if problem.Some? {
        return problem;
      }
      var p, previous := f.project, f.previous;
      var oldNextSeq, oldEvents, event := nextSeq, events, nextId;
      nextSeq, events, nextId :=
        nextSeq[p := nextSeq[p] + 1], events[event := Event(p, nextSeq[p], Context(scope, Some(f.session)), f.body)], event + 1;
      assert View() == InsertEvent(old(View()), p, Context(scope, Some(f.session)), f.body);
      problem := CheckFinalRows(f);
      if problem.Some? {
        nextSeq, events, nextId := oldNextSeq, oldEvents, event;
        assert View() == old(View());
        return problem;
      }
      PublishHandoff(Memory(p, Active, scope, f.handoff), [event] + f.verified, previous);
      sessions := sessions[f.session := sessions[f.session].(ended := true)];
      failed := None;
    }

    method RelateMemories(p: Id, a: Id, b: Id, relation: Relation, note: string) returns (failed: Option<Error>)
      modifies this`edges
      ensures (View(), failed) == Committed(old(View()), CreateRelation(old(View()), p, a, b, relation, note))
    {
      if a == b {
        return Some(SelfRelation);
      }
      if a !in memories || b !in memories || memories[a].project != p || memories[b].project != p {
        return Some(WrongProject);
      }
      if (a, b, relation) in edges {
        return Some(Integrity);
      }
      edges := edges[(a, b, relation) := Edge(p, note)];
      failed := None;
    }

    /** `import_project`: insert every record, reset the cursor, validate and commit. */
    method ImportProject(b: Bundle) returns (failed: Option<Error>)
      modifies this
      ensures (View(), failed) == Committed(old(View()), Import(old(View()), b))
    {
      if b.project in nextSeq {
        return Some(InvalidExport);
      }
      var loaded := InsertRecords(View(), b);
      if loaded.None? {
        return Some(Integrity);
      }
      var after := loaded.value;
      failed := ValidateImport(after, b.project);
      if failed.None? {
        Commit(after);
      }
    }

    method Commit(after: Store)
      modifies this
      ensures View() == after
    {
      nextSeq, scopes, sessions, events, memories := after.nextSeq, after.scopes, after.sessions, after.events, after.memories;
      sources, edges, receipts, nextId := after.sources, after.edges, after.receipts, after.nextId;
    }
  }

  /** Every record goes into its table, in a running transaction. */
  method InsertRecords(s: Store, b: Bundle) returns (loaded: Option<Store>)
    ensures loaded == Loaded(s, b)
  {
    var newScopes := InsertRows(s.scopes, b.scopes);
    var newSessions := InsertRows(s.sessions, b.sessions);
    var newEvents := InsertRows(s.events, WithNumbers(b.events));
    var newMemories := InsertRows(s.memories, b.memories);
    var newSources := InsertRows(s.sources, b.sources);
    var newEdges := InsertRows(s.edges, b.edges);
    var newReceipts := InsertRows(s.receipts, b.receipts);
    if newScopes.None? || newSessions.None? || newEvents.None? || newMemories.None? || newSources.None? || newEdges.None?
      || newReceipts.None?
    {
      return None;
    }
    loaded := Some(Store(s.nextSeq[b.project := |b.events| + 1], newScopes.value, newSessions.value, newEvents.value,
      newMemories.value, newSources.value, newEdges.value, newReceipts.value,
      PastAll(PastAll(PastAll(PastAll(Past(s.nextId, b.project), b.scopes), b.sessions), b.events), b.memories)));
  }

  /** The checks on the loaded tables, the foreign keys last. */
  method ValidateImport(after: Store, p: Id) returns (problem: Option<Error>)
    ensures problem == ImportProblem(after, p)
  {
    if !Constraints(after) {
      return Some(Integrity);
    }
    if InvalidLinks(after, p) {
      return Some(InvalidSource);
    }
    if MissingSources(after, p) {
      return Some(NoSource);
    }
    problem := if RowsRefer(after) && ContextsRefer(after) then None else Some(Integrity);
  }

  method InsertRows<K(==), V>(table: map<K, V>, rows: seq<(K, V)>) returns (after: Option<map<K, V>>)
    ensures after == InsertAll(table, rows)
  {
    var grown := table;
    var i := 0;
    assert rows[0..] == rows;
    while i < |rows|
      invariant 0 <= i <= |rows|
      invariant InsertAll(table, rows) == InsertAll(grown, rows[i..])
    {
      if rows[i].0 in grown {
        return None;
      }
      assert rows[i..][1..] == rows[i + 1..];
      grown := grown[rows[i].0 := rows[i].1];
      i := i + 1;
    }
    after := Some(grown);
  }
}
