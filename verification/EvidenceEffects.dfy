/** What each writer of the evidence store does to its rows: when it commits, which error it
    answers otherwise, which rows it changes, and that it changes no others. */
module EvidenceEffects {
  import opened Wrappers
  import opened EvidenceStore

  /** The memory has a source event of project p. */
  ghost predicate HasOwnSource(s: Store, m: Id, p: Id) {
    exists e :: (m, e) in s.sources && e in s.events && s.events[e].project == p
  }

  lemma {:induction false} OwnSource(s: Store, m: Id, p: Id)
    ensures HasSource(s, m, p) <==> HasOwnSource(s, m, p)
  {
    if HasSource(s, m, p) {
      var k :| k in s.sources && k.0 == m && EventOf(s, p, k.1);
      assert k == (m, k.1);
    }
    if HasOwnSource(s, m, p) {
      var e :| (m, e) in s.sources && e in s.events && s.events[e].project == p;
      assert EventOf(s, p, (m, e).1);
    }
  }

  predicate Present<V>(table: map<Id, V>, reference: Option<Id>) {
    reference.Some? ==> reference.value in table
  }

  /** Every given event is one of project p. */
  predicate AllOwn(s: Store, p: Id, submitted: seq<Id>) {
    forall i :: 0 <= i < |submitted| ==> submitted[i] in s.events && s.events[submitted[i]].project == p
  }

  // ---------------------------------------------------------------------
  // Projects, scopes, sessions, events and receipts
  // ---------------------------------------------------------------------

  lemma {:induction false} ProjectEffect(s: Store, t: Store)
    requires t == NewProject(s)
    ensures t.nextSeq == s.nextSeq[s.nextId := 1] && t.nextId == s.nextId + 1
    ensures t == s.(nextSeq := t.nextSeq, nextId := t.nextId)
  {
  }

  /** A scope needs its project and a name that is new there. */
  lemma {:induction false} ScopeEffect(s: Store, p: Id, name: string)
    ensures NewScope(s, p, name) ==
      if p in s.nextSeq && forall x :: x in s.scopes && s.scopes[x].project == p ==> s.scopes[x].name != name
      then Ok(s.(scopes := s.scopes[s.nextId := Scope(p, name)], nextId := s.nextId + 1))
      else Err(Integrity)
  {
    if x :| x in s.scopes && s.scopes[x].project == p && s.scopes[x].name == name {
      assert s.scopes[x] == Scope(p, name);
    }
  }

  /** The session a non-empty external id already names. */
  ghost predicate KnownSession(s: Store, p: Id, client: string, external: Option<string>, x: Id) {
    && external.Some? && x in s.sessions
    && s.sessions[x].project == p && s.sessions[x].client == client && s.sessions[x].external == external
  }

  /** A known session is answered without a write, unless its external id is empty, which the
      unique key refuses; a new one needs its project and scope. */
  lemma {:induction false} SessionEffect(s: Store, p: Id, scope: Option<Id>, client: string, external: Option<string>)
    ensures StartSession(s, p, scope, client, external) ==
      if exists x :: KnownSession(s, p, client, external, x) then (if external != Some("") then Ok(s) else Err(Integrity))
      else if p in s.nextSeq && Present(s.scopes, scope)
      then Ok(s.(sessions := s.sessions[s.nextId := Session(p, scope, client, external, false)], nextId := s.nextId + 1))
      else Err(Integrity)
  {
    var row := Session(p, scope, client, external, false);
    if Started(s, row) {
      var x :| x in s.sessions && SameSession(row, s.sessions[x]);
      assert KnownSession(s, p, client, external, x);
    }
    if x :| KnownSession(s, p, client, external, x) {
      assert SameSession(row, s.sessions[x]);
    }
  }

  lemma {:induction false} EndEffect(s: Store, x: Id)
    ensures EndSession(s, x) ==
      if x in s.sessions
      then Ok(s.(sessions := s.sessions[x := Session(s.sessions[x].project, s.sessions[x].scope, s.sessions[x].client,
                                                      s.sessions[x].external, true)]))
      else Err(NotFound)
  {
  }

  /** An event needs its project, and the scope and session it names, in whatever project; it
      takes the project's next number. */
  lemma {:induction false} EventEffect(s: Store, p: Id, c: Context, body: string)
    ensures RecordEvent(s, p, c, body) ==
      if p !in s.nextSeq then Err(NotFound)
      else if !Present(s.scopes, c.scope) || !Present(s.sessions, c.session) then Err(Integrity)
      else Ok(s.(events := s.events[s.nextId := Event(p, s.nextSeq[p], c, body)],
                 nextSeq := s.nextSeq[p := s.nextSeq[p] + 1],
                 nextId := s.nextId + 1))
  {
  }

  /** A poll's receipt keeps its acknowledged cursor and the larger delivered one. */
  lemma {:induction false} DeliverEffect(s: Store, k: Stream, cursor: nat, delivered: nat)
    ensures Deliver(s, k, cursor, delivered).Ok? <==> k.project in s.nextSeq && cursor <= delivered
    ensures Deliver(s, k, cursor, delivered).Ok? ==>
      var t := Deliver(s, k, cursor, delivered).value;
      && t == s.(receipts := t.receipts) && t.receipts.Keys == s.receipts.Keys + {k}
      && t.receipts[k].acknowledged == (if k in s.receipts then s.receipts[k].acknowledged else cursor)
      && t.receipts[k].delivered == (if k in s.receipts && s.receipts[k].delivered > delivered then s.receipts[k].delivered else delivered)
      && forall j :: j in s.receipts && j != k ==> t.receipts[j] == s.receipts[j]
  {
  }

  lemma {:induction false} AcknowledgeEffect(s: Store, k: Stream, cursor: nat)
    ensures Acknowledge(s, k, cursor) ==
      if k !in s.receipts then Err(NotFound)
      else if cursor < s.receipts[k].acknowledged || cursor > s.receipts[k].delivered then Err(InvalidCursor)
      else Ok(s.(receipts := s.receipts[k := Receipt(cursor, s.receipts[k].delivered)]))
  {
  }

  // ---------------------------------------------------------------------
  // Memories
  // ---------------------------------------------------------------------

  lemma {:induction false} LinksAdded(sources: map<(Id, Id), string>, m: Id, submitted: seq<Id>, after: map<(Id, Id), string>)
    requires after == LinkSources(sources, m, submitted)
    ensures forall k :: k in after <==> k in sources || (k.0 == m && k.1 in submitted)
    ensures forall k :: k in after ==> after[k] == if k in sources then sources[k] else ""
    decreases |submitted|
  {
    if submitted != [] {
      var k := (m, submitted[0]);
      LinksAdded(if k in sources then sources else sources[k := ""], m, submitted[1..], after);
      assert submitted == [submitted[0]] + submitted[1..];
    }
  }

  lemma {:induction false} ProblemExact(s: Store, m: Id, p: Id, submitted: seq<Id>)
    ensures SourceProblem(s, m, p, submitted) ==
      if !AllOwn(s, p, submitted) then Some(InvalidSource)
      else if submitted == [] && !HasOwnSource(s, m, p) then Some(NoSource)
      else None
  {
    OwnSource(s, m, p);
    if !AllOwn(s, p, submitted) {
      var i :| 0 <= i < |submitted| && !(submitted[i] in s.events && s.events[submitted[i]].project == p);
      assert !EventOf(s, p, submitted[i]);
    }
  }

  /** What an upsert answers first. */
  ghost function UpsertError(s: Store, m: Id, row: Memory, submitted: seq<Id>): Option<Error> {
    if row.status == Active && !AllOwn(s, row.project, submitted) then Some(InvalidSource)
    else if row.status == Active && submitted == [] && !HasOwnSource(s, m, row.project) then Some(NoSource)
    else if m in s.memories && s.memories[m].project != row.project then Some(WrongProject)
    else if (m !in s.memories && row.project !in s.nextSeq) || !Present(s.scopes, row.scope) then Some(Integrity)
    else if !AllOwn(s, row.project, submitted) then Some(InvalidSource)
    else None
  }

  lemma {:induction false} UpsertChecks(s: Store, given: Option<Id>, row: Memory, submitted: seq<Id>, m: Id)
    requires m == if given.Some? then given.value else s.nextId
    ensures Upsert(s, given, row, submitted).Err? <==> UpsertError(s, m, row, submitted).Some?
    ensures Upsert(s, given, row, submitted).Err? ==> UpsertError(s, m, row, submitted) == Some(Upsert(s, given, row, submitted).error)
  {
    ProblemExact(s, m, row.project, submitted);
    assert AllOwn(s, row.project, submitted) <==> forall i :: 0 <= i < |submitted| ==> EventOf(s, row.project, submitted[i]);
  }

  /** An upsert writes this row under the chosen or next id and links the given events to it;
      links that exist keep their notes. */
  lemma {:induction false} UpsertEffect(s: Store, given: Option<Id>, row: Memory, submitted: seq<Id>, t: Store, id: Id)
    requires Upsert(s, given, row, submitted) == Ok((t, id))
    ensures id == if given.Some? then given.value else s.nextId
    ensures t.memories == s.memories[id := row]
    ensures forall k :: k in t.sources <==> k in s.sources || (k.0 == id && k.1 in submitted)
    ensures forall k :: k in t.sources ==> t.sources[k] == if k in s.sources then s.sources[k] else ""
    ensures t.nextId == if id < s.nextId then s.nextId else id + 1
    ensures t == s.(memories := t.memories, sources := t.sources, nextId := t.nextId)
  {
    LinksAdded(s.sources, id, submitted, t.sources);
  }

  ghost function TransitionError(s: Store, m: Id, status: Status, related: Option<Id>): Option<Error> {
    if status == Proposed then Some(InvalidStatus)
    else if m !in s.memories then Some(NotFound)
    else if status == Active && !HasOwnSource(s, m, s.memories[m].project) then Some(NoSource)
    else if status in {Superseded, Disputed} && related.Some?
      && (related.value !in s.memories || s.memories[related.value].project != s.memories[m].project) then Some(WrongProject)
    else None
  }

  /** The memory has this status and nothing else about it changed. */
  ghost predicate Moved(s: Store, t: Store, m: Id, status: Status)
    requires m in s.memories
  {
    t.memories == s.memories[m := Memory(s.memories[m].project, status, s.memories[m].scope, s.memories[m].body)]
  }

  /** Superseding and disputing in favour of a related memory adds the edge from it, unless
      there is one. */
  ghost predicate Joined(s: Store, t: Store, from: Id, to: Id, relation: Relation, project: Id, note: string) {
    && (from, to, relation) in t.edges
    && ((from, to, relation) !in s.edges ==> t.edges[(from, to, relation)] == Edge(project, note))
    && (forall k :: k in s.edges ==> k in t.edges && t.edges[k] == s.edges[k])
    && (forall k :: k in t.edges && k !in s.edges ==> k == (from, to, relation))
  }

  /** A transition moves exactly its memory, and joins it to the related one. */
  lemma {:induction false} TransitionEffect(s: Store, m: Id, status: Status, related: Option<Id>, note: string)
    ensures Transition(s, m, status, related, note).Err? <==> TransitionError(s, m, status, related).Some?
    ensures Transition(s, m, status, related, note).Err? ==>
      TransitionError(s, m, status, related) == Some(Transition(s, m, status, related, note).error)
    ensures Transition(s, m, status, related, note).Ok? ==>
      var t := Transition(s, m, status, related, note).value;
      && m in s.memories && Moved(s, t, m, status)
      && t == s.(memories := t.memories, edges := t.edges)
      && (if status == Superseded && related.Some? then Joined(s, t, related.value, m, Supersedes, s.memories[m].project, note)
          else if status == Disputed && related.Some? then Joined(s, t, related.value, m, Disputes, s.memories[m].project, note)
          else t.edges == s.edges)
  {
    if m !in s.memories || status == Proposed {
      return;
    }
    ProblemExact(s, m, s.memories[m].project, []);
    if status in {Superseded, Disputed} && related.Some? {
      TransitionJoins(s, m, status, related.value, note);
    }
  }

  lemma {:induction false} TransitionJoins(s: Store, m: Id, status: Status, related: Id, note: string)
    requires m in s.memories && status in {Superseded, Disputed}
    ensures Transition(s, m, status, Some(related), note).Ok? ==>
      var t := Transition(s, m, status, Some(related), note).value;
      && Moved(s, t, m, status) && t == s.(memories := t.memories, edges := t.edges)
      && Joined(s, t, related, m, if status == Superseded then Supersedes else Disputes, s.memories[m].project, note)
  {
  }

  // ---------------------------------------------------------------------
  // Reviews
  // ---------------------------------------------------------------------

  /** What a review of candidate m answers. */
  ghost function ReviewError(s: Store, m: Id, action: ReviewAction, target: Option<Id>): Option<Error> {
    if m !in s.memories || s.memories[m].status != Proposed then Some(NotProposed)
    else if action == Reject then None
    else if action != Approve && target.None? then Some(TargetRequired)
    else if !HasOwnSource(s, m, s.memories[m].project) then Some(NoSource)
    else if action == Approve then None
    else if target.value !in s.memories then Some(NotFound)
    else if s.memories[target.value].project != s.memories[m].project then Some(WrongProject)
    else None
  }

  /** The candidate was activated before its second transaction failed. */
  ghost predicate HalfReviewed(s: Store, m: Id, action: ReviewAction, target: Option<Id>) {
    action in {Supersede, Dispute} && ReviewError(s, m, action, target) in {Some(NotFound), Some(WrongProject)}
  }

  /** Approving leaves the candidate active, rejecting leaves it rejected. Superseding and
      disputing leave it active, move the target, and join the two; when the target is unknown
      or foreign only the candidate has moved. Any other refusal changes nothing. */
  lemma {:induction false} ReviewEffect(s: Store, m: Id, action: ReviewAction, related: Option<Id>, conflict: Option<Id>, note: string,
    target: Option<Id>, t: Store, problem: Option<Error>)
    requires target == if related.Some? then related else conflict
    requires (t, problem) == Review(s, m, action, related, conflict, note)
    ensures problem == ReviewError(s, m, action, target)
    ensures problem.Some? && !HalfReviewed(s, m, action, target) ==> t == s
    ensures HalfReviewed(s, m, action, target) ==> m in s.memories && Moved(s, t, m, Active) && t == s.(memories := t.memories)
    ensures problem.None? && action == Approve ==> m in s.memories && Moved(s, t, m, Active) && t == s.(memories := t.memories)
    ensures problem.None? && action == Reject ==> m in s.memories && Moved(s, t, m, Rejected) && t == s.(memories := t.memories)
    ensures problem.None? && action in {Supersede, Dispute} ==>
      && m in s.memories && target.Some? && target.value in s.memories
      && ReviewedBoth(s, t, m, target.value, if action == Supersede then Superseded else Disputed,
                      if action == Supersede then Supersedes else Disputes, note)
  {
    if m !in s.memories || s.memories[m].status != Proposed {
      return;
    }
    if action == Reject {
      TransitionEffect(s, m, Rejected, None, note);
      return;
    }
    TransitionEffect(s, m, Active, None, note);
    if action == Approve || target.None? || problem == Some(NoSource) {
      return;
    }
    ReviewPair(s, m, target.value, action, note, Transition(s, m, Active, None, note).value, t, problem);
  }

  /** Both memories of a review, and the edge between them. */
  ghost predicate ReviewedBoth(s: Store, t: Store, m: Id, target: Id, status: Status, relation: Relation, note: string)
    requires m in s.memories && target in s.memories
  {
    && target in t.memories && m in t.memories && t.memories.Keys == s.memories.Keys
    && t.memories[target].status == status && (m != target ==> t.memories[m].status == Active)
    && (forall x :: x in s.memories ==>
          && t.memories[x] == Memory(s.memories[x].project, t.memories[x].status, s.memories[x].scope, s.memories[x].body)
          && (x != m && x != target ==> t.memories[x].status == s.memories[x].status))
    && Joined(s, t, m, target, relation, s.memories[target].project, note)
    && t == s.(memories := t.memories, edges := t.edges)
  }

  lemma {:induction false} ReviewPair(s: Store, m: Id, target: Id, action: ReviewAction, note: string, approved: Store, t: Store,
    problem: Option<Error>)
    requires m in s.memories && action in {Supersede, Dispute} && Moved(s, approved, m, Active) && approved == s.(memories := approved.memories)
    requires (t, problem) ==
      Committed(approved, Transition(approved, target, if action == Supersede then Superseded else Disputed, Some(m), note))
    ensures problem == if target !in s.memories then Some(NotFound)
                       else if s.memories[target].project != s.memories[m].project then Some(WrongProject)
                       else None
    ensures problem.Some? ==> t == approved
    ensures problem.None? ==> ReviewedBoth(s, t, m, target, if action == Supersede then Superseded else Disputed,
                                           if action == Supersede then Supersedes else Disputes, note)
  {
    var status := if action == Supersede then Superseded else Disputed;
    TransitionEffect(approved, target, status, Some(m), note);
  }

  // ---------------------------------------------------------------------
  // Relations, final checkpoints and purges
  // ---------------------------------------------------------------------

  lemma {:induction false} RelationEffect(s: Store, p: Id, a: Id, b: Id, relation: Relation, note: string)
    ensures CreateRelation(s, p, a, b, relation, note) ==
      if a == b then Err(SelfRelation)
      else if a !in s.memories || b !in s.memories || s.memories[a].project != p || s.memories[b].project != p then Err(WrongProject)
      else if (a, b, relation) in s.edges then Err(Integrity)
      else Ok(s.(edges := s.edges[(a, b, relation) := Edge(p, note)]))
  {
  }

  /** A purge deletes these memories with their links and edges, and nothing else. */
  lemma {:induction false} PurgeEffect(s: Store, due: set<Id>, t: Store)
    requires t == Purge(s, due)
    ensures forall m :: m in t.memories <==> m in s.memories && m !in due
    ensures forall k :: k in t.sources <==> k in s.sources && k.0 !in due
    ensures forall k :: k in t.edges <==> k in s.edges && k.0 !in due && k.1 !in due
    ensures forall m :: m in t.memories ==> t.memories[m] == s.memories[m]
    ensures forall k :: k in t.sources ==> t.sources[k] == s.sources[k]
    ensures forall k :: k in t.edges ==> t.edges[k] == s.edges[k]
    ensures t == s.(memories := t.memories, sources := t.sources, edges := t.edges)
  {
  }

  /** The scope a final checkpoint writes under. */
  ghost function CheckpointScope(s: Store, f: Final): Option<Id>
    requires f.session in s.sessions
  {
    if f.scope.Some? then f.scope else s.sessions[f.session].scope
  }

  ghost function FinalError(s: Store, f: Final): Option<Error> {
    if f.project !in s.nextSeq || f.session !in s.sessions then Some(NotFound)
    else if s.sessions[f.session].project != f.project then Some(WrongProject)
    else if s.sessions[f.session].ended then Some(SessionEnded)
    else if f.verified == [] then Some(NoSource)
    else if !Present(s.scopes, CheckpointScope(s, f)) then Some(NotFound)
    else if CheckpointScope(s, f).Some? && s.scopes[CheckpointScope(s, f).value].project != f.project then Some(WrongProject)
    else if !AllOwn(WithEvent(s, f), f.project, f.verified) then Some(InvalidSource)
    else if f.previous.Some? && (f.previous.value !in s.memories || s.memories[f.previous.value].project != f.project) then Some(WrongProject)
    else if f.previous.Some? && s.memories[f.previous.value].status != Active then Some(NotActive)
    else None
  }

  /** The tables once the checkpoint's event is in. */
  ghost function WithEvent(s: Store, f: Final): Store
    requires f.project in s.nextSeq && f.session in s.sessions
  {
    s.(events := s.events[s.nextId := Event(f.project, s.nextSeq[f.project], Context(CheckpointScope(s, f), Some(f.session)), f.body)],
       nextSeq := s.nextSeq[f.project := s.nextSeq[f.project] + 1], nextId := s.nextId + 1)
  }

  /** A handoff row with its links, and the one it supersedes. */
  ghost predicate HandedOff(s: Store, row: Memory, evidence: seq<Id>, previous: Option<Id>, t: Store) {
    var m := s.nextId;
    && t.memories.Keys == s.memories.Keys + {m} && t.memories[m] == row
    && (forall x :: x in s.memories && previous != Some(x) ==> t.memories[x] == s.memories[x])
    && (forall k :: k in t.sources <==> k in s.sources || (k.0 == m && k.1 in evidence))
    && (forall k :: k in s.sources ==> t.sources[k] == s.sources[k])
    && (previous.None? ==> t.edges == s.edges)
    && (previous.Some? && previous.value in s.memories ==>
          var x := previous.value;
          && t.memories[x] == Memory(s.memories[x].project, Superseded, s.memories[x].scope, s.memories[x].body)
          && t.edges == s.edges[(m, x, Supersedes) := Edge(s.memories[x].project, "replaced by final checkpoint")])
    && t == s.(memories := t.memories, sources := t.sources, edges := t.edges, nextId := m + 1)
  }

  lemma {:induction false} HandoffEffect(s: Store, row: Memory, evidence: seq<Id>, previous: Option<Id>, t: Store)
    requires s.nextId !in s.memories && (previous.Some? ==> previous.value in s.memories)
    requires t == PublishHandoff(s, row, evidence, previous)
    ensures HandedOff(s, row, evidence, previous, t)
  {
    LinksAdded(s.sources, s.nextId, evidence, t.sources);
  }

  lemma {:induction false} FinalChecks(s: Store, f: Final)
    requires s.nextId !in s.memories
    ensures FinalCheckpoint(s, f).Err? <==> FinalError(s, f).Some?
    ensures FinalCheckpoint(s, f).Err? ==> FinalError(s, f) == Some(FinalCheckpoint(s, f).error)
  {
    if FinalProblem(s, f).None? {
      var s1 := WithEvent(s, f);
      assert s1 == InsertEvent(s, f.project, Context(FinalScope(s, f), Some(f.session)), f.body);
      assert AllOwn(s1, f.project, f.verified) <==> forall i :: 0 <= i < |f.verified| ==> EventOf(s1, f.project, f.verified[i]);
    }
  }

  lemma {:induction false} FinalCommits(s: Store, f: Final, t: Store)
    requires FinalCheckpoint(s, f) == Ok(t)
    ensures f.project in s.nextSeq && f.session in s.sessions
    ensures f.previous.Some? ==> f.previous.value in s.memories
    ensures EndSession(PublishHandoff(WithEvent(s, f), HandoffRow(s, f), [s.nextId] + f.verified, f.previous), f.session) == Ok(t)
  {
    assert WithEvent(s, f) == InsertEvent(s, f.project, Context(FinalScope(s, f), Some(f.session)), f.body);
  }

  lemma {:induction false} PublishKeepsSessions(s: Store, row: Memory, evidence: seq<Id>, previous: Option<Id>)
    requires previous.Some? ==> previous.value in s.memories
    ensures PublishHandoff(s, row, evidence, previous).sessions == s.sessions
  {
  }

  lemma {:induction false} FinalParts(s: Store, f: Final, t: Store) returns (s2: Store)
    requires FinalCheckpoint(s, f) == Ok(t)
    ensures f.project in s.nextSeq && f.session in s.sessions && (f.previous.Some? ==> f.previous.value in s.memories)
    ensures s2 == PublishHandoff(WithEvent(s, f), HandoffRow(s, f), [s.nextId] + f.verified, f.previous)
    ensures s2.sessions == s.sessions
    ensures t == s2.(sessions := s.sessions[f.session := Session(s.sessions[f.session].project, s.sessions[f.session].scope,
                                                                 s.sessions[f.session].client, s.sessions[f.session].external, true)])
  {
    FinalCommits(s, f, t);
    PublishKeepsSessions(WithEvent(s, f), HandoffRow(s, f), [s.nextId] + f.verified, f.previous);
    s2 := PublishHandoff(WithEvent(s, f), HandoffRow(s, f), [s.nextId] + f.verified, f.previous);
    EndEffect(s2, f.session);
  }

  /** A final checkpoint writes its event, an active handoff that rests on that event and on
      the verified ones, and the end of its session; a previous handoff of the project, active
      until now, is superseded by the new one. */
  lemma {:induction false} FinalEffect(s: Store, f: Final, t: Store)
    requires Issued(s) && FinalCheckpoint(s, f) == Ok(t)
    ensures FinalError(s, f).None?
    ensures HandedOff(WithEvent(s, f), Memory(f.project, Active, CheckpointScope(s, f), f.handoff), [s.nextId] + f.verified, f.previous,
                      t.(sessions := s.sessions))
    ensures t.sessions == s.sessions[f.session := Session(s.sessions[f.session].project, s.sessions[f.session].scope,
                                                          s.sessions[f.session].client, s.sessions[f.session].external, true)]
  {
    FinalChecks(s, f);
    var s2 := FinalParts(s, f, t);
    HandoffEffect(WithEvent(s, f), HandoffRow(s, f), [s.nextId] + f.verified, f.previous, s2);
    assert t.(sessions := s.sessions) == s2;
  }
}
