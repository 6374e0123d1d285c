/** Investigations: source analyses, their claims, and the links from a claim to the
    claims it rests on (`InvestigationRepository`). */
module Investigation {
  import opened Wrappers
  import opened Text
  import opened EvidenceStore
  import opened Transfer
  import Digraph

  datatype Role = Evidence | Inference | Acting | Decision | Rationale | Outcome

  datatype LinkRelation = DerivedFrom | Informed | Supporting

  /** What a caller submits. `wellTyped` is the check of memory type, confidence and
      importance. */
  datatype Source = Source(sourceType: string, stableId: string, accessReason: string, method_: string,
    version: Option<string>, fingerprint: Option<string>)

  datatype ClaimInput = ClaimInput(key: string, role: Role, content: string, refs: seq<string>, externalRefs: seq<(Id, string)>,
    status: Status, expectedOutcome: Option<string>, hasEffect: bool, wellTyped: bool)

  datatype Case = Case(project: Id, scope: Option<Id>, open: bool)
  datatype Analysis = Analysis(investigation: Id, identity: (string, string, string))
  /** The memory column is nullable; every recorded claim has one. */
  datatype Claim = Claim(investigation: Id, analysis: Id, key: string, role: Role, event: Id, memory: Option<Id>)
  datatype Link = Link(from: Id, to: Id, relation: LinkRelation)

  datatype Db = Db(store: Store, cases: map<Id, Case>, analyses: map<Id, Analysis>, claims: map<Id, Claim>, links: set<Link>)

  datatype Failure = UnknownInvestigation | Completed | BadSource | BadClaims

  datatype Recorded = Recorded(analysis: Id, idempotent: bool)

  // ---------------------------------------------------------------------
  // Recording a source analysis
  // ---------------------------------------------------------------------

  predicate Present(text: Option<string>) {
    text.Some? && Strip(text.value) != ""
  }

  predicate ValidSource(source: Source) {
    && Strip(source.sourceType) != "" && Strip(source.stableId) != ""
    && Strip(source.accessReason) != "" && Strip(source.method_) != ""
    && (Present(source.version) || Present(source.fingerprint))
  }

  /** The triple behind `identity_key`. */
  function Identity(source: Source): (string, string, string) {
    (Strip(source.sourceType), Strip(source.stableId),
     if Present(source.version) then Strip(source.version.value)
     else "fingerprint:" + if source.fingerprint.Some? then Strip(source.fingerprint.value) else "")
  }

  predicate ValidKeys(claims: seq<ClaimInput>) {
    && claims != []
    && (forall i :: 0 <= i < |claims| ==> Strip(claims[i].key) != "")
    && (forall i, j :: 0 <= i < j < |claims| ==> claims[i].key != claims[j].key)
  }

  function RelationOf(role: Role): LinkRelation {
    if role == Inference then DerivedFrom else if role in {Acting, Decision} then Informed else Supporting
  }

  /** The recorded claim an external reference names. */
  predicate Names(db: Db, investigation: Id, reference: (Id, string), c: Id) {
    c in db.claims && Named(db.claims[c], investigation, reference)
  }

  predicate Named(c: Claim, investigation: Id, reference: (Id, string)) {
    c.investigation == investigation && c.analysis == reference.0 && c.key == reference.1
  }

  ghost function Resolve(db: Db, investigation: Id, reference: (Id, string)): Option<Id> {
    if exists c :: Names(db, investigation, reference, c) then Some(var c :| Names(db, investigation, reference, c); c) else None
  }

  ghost function ResolveAll(db: Db, investigation: Id, references: seq<(Id, string)>): Option<seq<Id>> {
    if references == [] then Some([])
    else
      var first, rest := Resolve(db, investigation, references[0]), ResolveAll(db, investigation, references[1..]);
      if first.None? || rest.None? then None else Some([first.value] + rest.value)
  }

  /** The checks on one claim besides its references. */
  predicate ValidClaim(c: ClaimInput) {
    && Strip(c.content) != ""
    && (c.expectedOutcome.Some? ==> c.role == Decision && Strip(c.expectedOutcome.value) != "")
    && (c.hasEffect ==> c.role == Outcome)
    && c.status in {Proposed, Active} && (c.role == Inference ==> c.status == Proposed)
    && c.wellTyped
  }

  predicate Distinct(ids: seq<Id>) {
    forall i, j :: 0 <= i < j < |ids| ==> ids[i] != ids[j]
  }

  /** The claims one claim rests on: earlier ones of this analysis, then recorded ones. */
  ghost function Grounds(db: Db, investigation: Id, created: map<string, Id>, c: ClaimInput): Option<seq<Id>> {
    var recorded := ResolveAll(db, investigation, c.externalRefs);
    if recorded.None? || exists i :: 0 <= i < |c.refs| && c.refs[i] !in created then None
    else Some(seq(|c.refs|, i requires 0 <= i < |c.refs| && c.refs[i] in created => created[c.refs[i]]) + recorded.value)
  }

  /** The grounds of a claim that passes every check. */
  ghost function AcceptedGrounds(db: Db, investigation: Id, session: Option<Id>, created: map<string, Id>, c: ClaimInput): Option<seq<Id>> {
    var grounds := Grounds(db, investigation, created, c);
    if !Writable(db, investigation, session) || !ValidClaim(c) || grounds.None? then None
    else if (c.role != Evidence && grounds.value == []) || !Distinct(grounds.value) then None
    else grounds
  }

  /** The rows of one claim: event, memory and source, the claim, and its links. A link
      given twice violates the links' primary key. */
  ghost function AddClaim(db: Db, investigation: Id, analysis: Id, session: Option<Id>, created: map<string, Id>, c: ClaimInput): Option<(Db, map<string, Id>)> {
    var grounds := AcceptedGrounds(db, investigation, session, created, c);
    if grounds.None? then None
    else Some((WithClaim(db, investigation, analysis, session, c, grounds.value), created[c.key := ClaimId(db)]))
  }

  /** The investigation's project has an event cursor, and the session exists. */
  predicate Writable(db: Db, investigation: Id, session: Option<Id>) {
    && investigation in db.cases && db.cases[investigation].project in db.store.nextSeq
    && KnownContext(db.store, Context(db.cases[investigation].scope, session))
  }

  /** The uid after the claim's event and memory. */
  function ClaimId(db: Db): Id {
    db.store.nextId + 2
  }

  function WithClaim(db: Db, investigation: Id, analysis: Id, session: Option<Id>, c: ClaimInput, grounds: seq<Id>): Db
    requires Writable(db, investigation, session)
  {
    var e, m, id := db.store.nextId, db.store.nextId + 1, ClaimId(db);
    var inquiry := db.cases[investigation];
    var stored := InsertClaim(db.store, inquiry.project, Context(inquiry.scope, session), Strip(c.content), c.status);
    db.(store := stored.(nextId := id + 1),
        claims := db.claims[id := Claim(investigation, analysis, c.key, c.role, e, Some(m))],
        links := db.links + LinksTo(grounds, id, RelationOf(c.role)))
  }

  function LinksTo(grounds: seq<Id>, id: Id, relation: LinkRelation): (links: set<Link>)
    ensures forall k :: k in links <==> k.from in grounds && k.to == id && k.relation == relation
  {
    set g | g in grounds :: Link(g, id, relation)
  }

  ghost function AddClaims(db: Db, investigation: Id, analysis: Id, session: Option<Id>, created: map<string, Id>, claims: seq<ClaimInput>): Option<Db>
    decreases |claims|
  {
    if claims == [] then Some(db)
    else
      var added := AddClaim(db, investigation, analysis, session, created, claims[0]);
      if added.None? then None
      else AddClaims(added.value.0, investigation, analysis, session, added.value.1, claims[1..])
  }

  predicate AnalysedAs(db: Db, investigation: Id, identity: (string, string, string), a: Id) {
    a in db.analyses && db.analyses[a] == Analysis(investigation, identity)
  }

  function WithAnalysis(db: Db, investigation: Id, identity: (string, string, string)): Db {
    db.(analyses := db.analyses[db.store.nextId := Analysis(investigation, identity)],
        store := db.store.(nextId := db.store.nextId + 1))
  }

  /** `record_source_analysis`: a recorded identity is replayed; otherwise one transaction
      inserts the analysis and all its claims, or nothing. */
  ghost function RecordAnalysis(db: Db, investigation: Id, session: Option<Id>, source: Source, claims: seq<ClaimInput>): (Db, Result<Recorded, Failure>) {
    if investigation !in db.cases then (db, Err(UnknownInvestigation))
    else if !db.cases[investigation].open then (db, Err(Completed))
    else if !ValidSource(source) then (db, Err(BadSource))
    else if !ValidKeys(claims) then (db, Err(BadClaims))
    else if exists a :: AnalysedAs(db, investigation, Identity(source), a) then
      var a :| AnalysedAs(db, investigation, Identity(source), a);
      (db, Ok(Recorded(a, true)))
    else RecordNew(db, investigation, session, Identity(source), claims)
  }

  ghost function RecordNew(db: Db, investigation: Id, session: Option<Id>, identity: (string, string, string), claims: seq<ClaimInput>): (Db, Result<Recorded, Failure>) {
    var done := AddClaims(WithAnalysis(db, investigation, identity), investigation, db.store.nextId, session, map[], claims);
    if done.None? then (db, Err(BadClaims)) else (done.value, Ok(Recorded(db.store.nextId, false)))
  }

  // ---------------------------------------------------------------------
  // Invariants
  // ---------------------------------------------------------------------

  predicate CaseOk(s: Store, c: Case) {
    c.project in s.nextSeq && OwnScope(s, c.project, c.scope)
  }

  /** Investigations belong to projects, their scopes too. */
  ghost predicate CasesOk(db: Db) {
    forall i :: i in db.cases ==> i < db.store.nextId && CaseOk(db.store, db.cases[i])
  }

  /** Analyses belong to investigations and are unique per identity, claims per analysis and
      key and per event. */
  predicate AnalysesOk(db: Db) {
    && AnalysesDistinct(db.analyses)
    && (forall a :: a in db.analyses ==> a < db.store.nextId && db.analyses[a].investigation in db.cases)
  }

  predicate AnalysesDistinct(analyses: map<Id, Analysis>) {
    forall a, b :: a in analyses && b in analyses && analyses[a] == analyses[b] ==> a == b
  }

  predicate SameClaim(c: Claim, d: Claim) {
    (c.analysis == d.analysis && c.key == d.key) || c.event == d.event
  }

  predicate ClaimsDistinct(claims: map<Id, Claim>) {
    forall c, d :: c in claims && d in claims && SameClaim(claims[c], claims[d]) ==> c == d
  }

  ghost predicate ClaimsOk(db: Db) {
    && AnalysesOk(db) && ClaimsDistinct(db.claims)
    && (forall c :: c in db.claims ==> c < db.store.nextId && ClaimOk(db, db.claims[c]))
  }

  /** A claim's event and memory are of its investigation's project, the memory sourced by
      that very event. */
  ghost predicate ClaimOk(db: Db, c: Claim) {
    && c.investigation in db.cases
    && c.analysis in db.analyses && db.analyses[c.analysis].investigation == c.investigation
    && ClaimStored(db.store, c, db.cases[c.investigation].project)
  }

  predicate ClaimStored(s: Store, c: Claim, p: Id) {
    && c.memory.Some? && c.memory.value in s.memories && c.event in s.events
    && (c.memory.value, c.event) in s.sources
    && s.memories[c.memory.value].project == s.events[c.event].project == p
  }

  /** From a claim to each claim that rests on it. */
  function Arcs(links: set<Link>): set<(Id, Id)> {
    set k | k in links :: (k.from, k.to)
  }

  /** Both ends of a link are claims of one investigation. */
  predicate LinkOk(claims: map<Id, Claim>, k: Link) {
    k.from in claims && k.to in claims && claims[k.from].investigation == claims[k.to].investigation
  }

  /** Links stay inside an investigation, and no claim rests on itself, directly or through
      others. */
  ghost predicate LinksOk(db: Db) {
    (forall k :: k in db.links ==> LinkOk(db.claims, k)) && Digraph.Acyclic(Arcs(db.links))
  }

  predicate Backed(links: set<Link>, c: Id) {
    exists k :: k in links && k.to == c
  }

  /** Every claim that is not evidence rests on another claim. */
  ghost predicate Supported(db: Db) {
    forall c :: c in db.claims && db.claims[c].role != Evidence ==> Backed(db.links, c)
  }

  /** The rules of the claim graph, by name. */
  datatype GraphRule = CaseRule | ClaimRule | LinkRule | SupportRule

  ghost predicate GraphObeys(db: Db, rule: GraphRule) {
    match rule
    case CaseRule => CasesOk(db)
    case ClaimRule => ClaimsOk(db)
    case LinkRule => LinksOk(db)
    case SupportRule => Supported(db)
  }

  ghost predicate Graph(db: Db) {
    forall rule :: GraphObeys(db, rule)
  }

  lemma {:induction false} GraphRules(db: Db)
    ensures Graph(db) <==> CasesOk(db) && ClaimsOk(db) && LinksOk(db) && Supported(db)
  {
    if Graph(db) {
      assert GraphObeys(db, CaseRule) && GraphObeys(db, ClaimRule) && GraphObeys(db, LinkRule) && GraphObeys(db, SupportRule);
    }
  }

  /** What the tables themselves enforce, whatever is written: identifiers are below the next
      one, keys are unique, and claims name rows that exist. */
  ghost predicate Consistent(db: Db) {
    && Issued(db.store) && AnalysesDistinct(db.analyses) && ClaimsDistinct(db.claims)
    && (forall a :: a in db.analyses ==> a < db.store.nextId)
    && (forall c :: c in db.claims ==>
          c < db.store.nextId && db.claims[c].analysis in db.analyses && db.claims[c].event in db.store.events)
  }

  lemma {:induction false} GraphConsistent(db: Db)
    requires Graph(db) && Issued(db.store)
    ensures Consistent(db)
  {
    GraphRules(db);
    forall c | c in db.claims ensures db.claims[c].analysis in db.analyses && db.claims[c].event in db.store.events {
      assert ClaimOk(db, db.claims[c]);
    }
  }

  // ---------------------------------------------------------------------
  // The claim graph
  // ---------------------------------------------------------------------

  lemma {:induction false} PathClaims(db: Db, path: seq<Id>, i: nat)
    requires LinksOk(db) && Digraph.IsPath(Arcs(db.links), path) && path[|path| - 1] in db.claims && i < |path|
    ensures path[i] in db.claims && db.claims[path[i]].investigation == db.claims[path[|path| - 1]].investigation
    decreases |path| - i
  {
    if i < |path| - 1 {
      PathClaims(db, path, i + 1);
      assert (path[i], path[i + 1]) in Arcs(db.links);
      var k :| k in db.links && k.from == path[i] && k.to == path[i + 1];
      assert LinkOk(db.claims, k);
    }
  }

  /** A path to the claim from an evidence claim of its own investigation. */
  ghost predicate GroundedBy(db: Db, c: Id, path: seq<Id>) {
    && Digraph.IsPath(Arcs(db.links), path) && path[|path| - 1] == c
    && path[0] in db.claims && db.claims[path[0]].role == Evidence
    && c in db.claims && db.claims[path[0]].investigation == db.claims[c].investigation
  }

  /** From any claim, going back from claim to ground ends at evidence: a path of claims never
      repeats one, so it cannot grow for ever. */
  lemma {:induction false} ClaimGrounded(db: Db, c: Id) returns (path: seq<Id>)
    requires LinksOk(db) && Supported(db) && c in db.claims
    ensures GroundedBy(db, c, path)
  {
    path := PathToEvidence(db, c, [c]);
  }

  lemma {:induction false} PathToEvidence(db: Db, c: Id, after: seq<Id>) returns (path: seq<Id>)
    requires LinksOk(db) && Supported(db) && c in db.claims
    requires Digraph.IsPath(Arcs(db.links), after) && after[|after| - 1] == c
    ensures GroundedBy(db, c, path)
    decreases |db.claims| - |after|
  {
    PathClaims(db, after, 0);
    if db.claims[after[0]].role == Evidence {
      path := after;
      return;
    }
    assert Backed(db.links, after[0]);
    var k :| k in db.links && k.to == after[0];
    assert (k.from, after[0]) in Arcs(db.links);
    Digraph.Concat(Arcs(db.links), [k.from], after);
    var longer := [k.from] + after;
    PathLength(db, c, longer);
    path := PathToEvidence(db, c, longer);
  }

  lemma {:induction false} PathLength(db: Db, c: Id, path: seq<Id>)
    requires LinksOk(db) && c in db.claims && Digraph.IsPath(Arcs(db.links), path) && path[|path| - 1] == c
    ensures |path| <= |db.claims|
  {
    forall i | 0 <= i < |path| ensures path[i] in db.claims.Keys {
      PathClaims(db, path, i);
    }
    Digraph.PathBounded(Arcs(db.links), path, db.claims.Keys);
    assert |db.claims.Keys| == |db.claims|;
  }

  // ---------------------------------------------------------------------
  // Recording keeps the graph sound
  // ---------------------------------------------------------------------

  /** The keys created so far in this analysis name its claims. */
  ghost predicate CreatedOk(db: Db, investigation: Id, analysis: Id, created: map<string, Id>) {
    && (forall key :: key in created ==> created[key] in db.claims && db.claims[created[key]].investigation == investigation)
    && (forall c :: c in db.claims && db.claims[c].analysis == analysis ==> db.claims[c].key in created)
  }

  lemma {:induction false} ResolveAllFinds(db: Db, investigation: Id, references: seq<(Id, string)>)
    requires ResolveAll(db, investigation, references).Some?
    ensures forall g :: g in ResolveAll(db, investigation, references).value ==>
      g in db.claims && db.claims[g].investigation == investigation
  {
    if references != [] {
      ResolveAllFinds(db, investigation, references[1..]);
    }
  }

  lemma {:induction false} GroundsFind(db: Db, investigation: Id, analysis: Id, created: map<string, Id>, c: ClaimInput)
    requires CreatedOk(db, investigation, analysis, created) && Grounds(db, investigation, created, c).Some?
    ensures forall g :: g in Grounds(db, investigation, created, c).value ==>
      g in db.claims && db.claims[g].investigation == investigation
  {
    ResolveAllFinds(db, investigation, c.externalRefs);
  }

  /** Nothing a claim or an investigation refers to is lost. */
  ghost predicate Holds(db: Db, t: Store) {
    && (forall i :: i in db.cases ==> CaseOk(t, db.cases[i]))
    && (forall c :: c in db.claims ==> ClaimOk(db.(store := t), db.claims[c]))
    && db.store.nextId <= t.nextId
  }

  lemma {:induction false} StoreChange(db: Db, t: Store)
    requires Graph(db) && Holds(db, t)
    ensures Graph(db.(store := t))
  {
    GraphRules(db);
    GraphRules(db.(store := t));
  }

  /** A store that keeps every row of another: events unchanged, memories in their
      projects, links in place. */
  ghost predicate Keeps(s: Store, t: Store) {
    && s.nextSeq.Keys <= t.nextSeq.Keys && s.nextId <= t.nextId
    && (forall x :: x in s.scopes ==> x in t.scopes && t.scopes[x] == s.scopes[x])
    && (forall e :: e in s.events ==> e in t.events && t.events[e] == s.events[e])
    && (forall m :: m in s.memories ==> m in t.memories && t.memories[m].project == s.memories[m].project)
    && (forall k :: k in s.sources ==> k in t.sources)
  }

  lemma {:induction false} KeepsHolds(db: Db, t: Store)
    requires Graph(db) && Keeps(db.store, t)
    ensures Holds(db, t)
  {
    GraphRules(db);
    forall c | c in db.claims ensures ClaimOk(db.(store := t), db.claims[c]) {
      assert ClaimOk(db, db.claims[c]);
    }
  }

  lemma {:induction false} LaterId(s: Store, nextId: Id, t: Store)
    requires Inv(s) && s.nextId <= nextId && t == s.(nextId := nextId)
    ensures Inv(t)
  {
    Rules(s);
    OthersKept(s, t);
    Rules(t);
  }

  /** A claim added to a database that already has its event and memory. */
  function AddRow(db: Db, id: Id, row: Claim, grounds: seq<Id>): Db {
    db.(claims := db.claims[id := row], links := db.links + LinksTo(grounds, id, RelationOf(row.role)))
  }

  /** A row that repeats no recorded claim's key and event. */
  ghost predicate NewClaim(claims: map<Id, Claim>, row: Claim) {
    forall d :: d in claims ==> !SameClaim(claims[d], row) && !SameClaim(row, claims[d])
  }

  lemma {:induction false} RowClaimsOk(db: Db, id: Id, row: Claim, grounds: seq<Id>)
    requires ClaimsOk(db) && id !in db.claims && id < db.store.nextId && ClaimOk(db, row) && NewClaim(db.claims, row)
    ensures ClaimsOk(AddRow(db, id, row, grounds))
  {
    var t := AddRow(db, id, row, grounds);
    forall d | d in t.claims ensures d < t.store.nextId && ClaimOk(t, t.claims[d]) {
      if d != id {
        assert ClaimOk(db, db.claims[d]);
      }
    }
  }

  lemma {:induction false} RowLinksOk(db: Db, id: Id, row: Claim, grounds: seq<Id>)
    requires LinksOk(db) && id !in db.claims
    requires forall g :: g in grounds ==> g in db.claims && db.claims[g].investigation == row.investigation
    ensures LinksOk(AddRow(db, id, row, grounds))
  {
    var t := AddRow(db, id, row, grounds);
    var more := LinksTo(grounds, id, RelationOf(row.role));
    forall k | k in t.links ensures LinkOk(t.claims, k) {
      if k in db.links {
        assert LinkOk(db.claims, k);
      }
    }
    assert Arcs(t.links) == Arcs(db.links) + Arcs(more);
    forall k | k in Arcs(db.links) + Arcs(more) ensures k.0 != id {
      assert forall l :: l in db.links ==> LinkOk(db.claims, l);
    }
    Digraph.SinkAcyclic(Arcs(db.links), Arcs(more), id);
  }

  lemma {:induction false} RowSupported(db: Db, id: Id, row: Claim, grounds: seq<Id>)
    requires Supported(db) && (row.role != Evidence ==> grounds != [])
    ensures Supported(AddRow(db, id, row, grounds))
  {
    var t := AddRow(db, id, row, grounds);
    forall d | d in t.claims && t.claims[d].role != Evidence ensures Backed(t.links, d) {
      if d == id {
        assert grounds[0] in grounds;
        assert Link(grounds[0], id, RelationOf(row.role)) in t.links;
      } else {
        assert Backed(db.links, d);
      }
    }
  }

  lemma {:induction false} AddRowSound(db: Db, id: Id, row: Claim, grounds: seq<Id>)
    requires Graph(db) && id < db.store.nextId && id !in db.claims && ClaimOk(db, row) && NewClaim(db.claims, row)
    requires forall g :: g in grounds ==> g in db.claims && db.claims[g].investigation == row.investigation
    requires row.role != Evidence ==> grounds != []
    ensures Graph(AddRow(db, id, row, grounds))
  {
    GraphRules(db);
    GraphRules(AddRow(db, id, row, grounds));
    RowClaimsOk(db, id, row, grounds);
    RowLinksOk(db, id, row, grounds);
    RowSupported(db, id, row, grounds);
  }

  function StoreWithClaim(db: Db, p: Id, context: Context, c: ClaimInput): Store
    requires p in db.store.nextSeq
  {
    InsertClaim(db.store, p, context, Strip(c.content), c.status).(nextId := ClaimId(db) + 1)
  }

  lemma {:induction false} StoreClaimKeeps(db: Db, p: Id, context: Context, c: ClaimInput, t: Store)
    requires Inv(db.store) && p in db.store.nextSeq && KnownContext(db.store, context) && t == StoreWithClaim(db, p, context, c)
    ensures Inv(t)
  {
    var stored := InsertClaim(db.store, p, context, Strip(c.content), c.status);
    InsertClaimKeeps(db.store, p, context, Strip(c.content), c.status, stored);
    LaterId(stored, ClaimId(db) + 1, t);
  }

  lemma {:induction false} InsertClaimHolds(s: Store, p: Id, c: Context, body: string, status: Status, nextId: Id, t: Store)
    requires Issued(s) && p in s.nextSeq && nextId >= s.nextId + 2
    requires t == InsertClaim(s, p, c, body, status).(nextId := nextId)
    ensures Keeps(s, t) && Issued(t)
    ensures s.nextId in t.events && s.nextId + 1 in t.memories && (s.nextId + 1, s.nextId) in t.sources
    ensures t.events[s.nextId].project == t.memories[s.nextId + 1].project == p
  {
  }

  lemma {:induction false} StoreClaimGraph(db: Db, investigation: Id, context: Context, c: ClaimInput, t: Store)
    requires Graph(db) && Issued(db.store) && investigation in db.cases && db.cases[investigation].project in db.store.nextSeq
    requires t == StoreWithClaim(db, db.cases[investigation].project, context, c)
    ensures var s := db.store;
      && Graph(db.(store := t)) && Issued(t)
      && s.nextId in t.events && s.nextId + 1 in t.memories && (s.nextId + 1, s.nextId) in t.sources
      && t.events[s.nextId].project == t.memories[s.nextId + 1].project == db.cases[investigation].project
  {
    InsertClaimHolds(db.store, db.cases[investigation].project, context, Strip(c.content), c.status, ClaimId(db) + 1, t);
    KeepsHolds(db, t);
    StoreChange(db, t);
  }

  lemma {:induction false} WithClaimGraph(db: Db, investigation: Id, analysis: Id, session: Option<Id>, c: ClaimInput, grounds: seq<Id>, t: Db)
    requires Graph(db) && Issued(db.store) && Writable(db, investigation, session)
    requires t == WithClaim(db, investigation, analysis, session, c, grounds)
    requires analysis in db.analyses && db.analyses[analysis].investigation == investigation
    requires forall d :: d in db.claims && db.claims[d].analysis == analysis ==> db.claims[d].key != c.key
    requires forall g :: g in grounds ==> g in db.claims && db.claims[g].investigation == investigation
    requires c.role != Evidence ==> grounds != []
    ensures Graph(t) && Issued(t.store)
  {
    GraphRules(db);
    var context := Context(db.cases[investigation].scope, session);
    var held := db.(store := StoreWithClaim(db, db.cases[investigation].project, context, c));
    StoreClaimGraph(db, investigation, context, c, held.store);
    var row := Claim(investigation, analysis, c.key, c.role, db.store.nextId, Some(db.store.nextId + 1));
    assert ClaimOk(held, row);
    forall d | d in db.claims ensures d != ClaimId(db) && db.claims[d].event != db.store.nextId {
      assert ClaimOk(db, db.claims[d]);
    }
    AddRowSound(held, ClaimId(db), row, grounds);
    assert t == AddRow(held, ClaimId(db), row, grounds);
  }

  lemma {:induction false} WithClaimCreated(db: Db, investigation: Id, analysis: Id, session: Option<Id>, created: map<string, Id>, c: ClaimInput, grounds: seq<Id>)
    requires CreatedOk(db, investigation, analysis, created) && ClaimId(db) !in db.claims
    requires Writable(db, investigation, session)
    ensures CreatedOk(WithClaim(db, investigation, analysis, session, c, grounds), investigation, analysis, created[c.key := ClaimId(db)])
  {
  }

  /** All claims of an analysis keep the graph sound ... */
  lemma {:induction false} AddClaimsGraph(db: Db, investigation: Id, analysis: Id, session: Option<Id>, created: map<string, Id>, claims: seq<ClaimInput>, t: Db)
    requires Graph(db) && Issued(db.store) && investigation in db.cases
    requires analysis in db.analyses && db.analyses[analysis].investigation == investigation
    requires CreatedOk(db, investigation, analysis, created)
    requires forall i :: 0 <= i < |claims| ==> claims[i].key !in created
    requires forall i, j :: 0 <= i < j < |claims| ==> claims[i].key != claims[j].key
    requires AddClaims(db, investigation, analysis, session, created, claims) == Some(t)
    ensures Graph(t) && Issued(t.store)
    decreases |claims|
  {
    GraphRules(db);
    if claims == [] {
      return;
    }
    var c, rest := claims[0], claims[1..];
    var grounds := AcceptedGrounds(db, investigation, session, created, c).value;
    GroundsFind(db, investigation, analysis, created, c);
    var next := WithClaim(db, investigation, analysis, session, c, grounds);
    WithClaimGraph(db, investigation, analysis, session, c, grounds, next);
    WithClaimCreated(db, investigation, analysis, session, created, c, grounds);
    forall i | 0 <= i < |rest| ensures rest[i] == claims[i + 1] {
    }
    AddClaimsGraph(next, investigation, analysis, session, created[c.key := ClaimId(db)], rest, t);
  }

  /** ... and the store's own invariant. */
  lemma {:induction false} AddClaimsStore(db: Db, investigation: Id, analysis: Id, session: Option<Id>, created: map<string, Id>, claims: seq<ClaimInput>, t: Db)
    requires Inv(db.store) && AddClaims(db, investigation, analysis, session, created, claims) == Some(t)
    ensures Inv(t.store)
    decreases |claims|
  {
    if claims == [] {
      return;
    }
    var c := claims[0];
    var grounds := AcceptedGrounds(db, investigation, session, created, c).value;
    var next := WithClaim(db, investigation, analysis, session, c, grounds);
    StoreClaimKeeps(db, db.cases[investigation].project, Context(db.cases[investigation].scope, session), c, next.store);
    AddClaimsStore(next, investigation, analysis, session, created[c.key := ClaimId(db)], claims[1..], t);
  }

  lemma {:induction false} WithAnalysisClaims(db: Db, investigation: Id, identity: (string, string, string), t: Db)
    requires ClaimsOk(db) && investigation in db.cases && t == WithAnalysis(db, investigation, identity)
    requires forall a :: !AnalysedAs(db, investigation, identity, a)
    ensures ClaimsOk(t) && CreatedOk(t, investigation, db.store.nextId, map[])
  {
    forall c | c in t.claims ensures c < t.store.nextId && ClaimOk(t, t.claims[c]) && t.claims[c].analysis != db.store.nextId {
      assert ClaimOk(db, db.claims[c]);
    }
    forall a, b | a in t.analyses && b in t.analyses && t.analyses[a] == t.analyses[b] ensures a == b {
      assert !AnalysedAs(db, investigation, identity, a) && !AnalysedAs(db, investigation, identity, b);
    }
  }

  lemma {:induction false} WithAnalysisGraph(db: Db, investigation: Id, identity: (string, string, string), t: Db)
    requires Graph(db) && investigation in db.cases && t == WithAnalysis(db, investigation, identity)
    requires forall a :: !AnalysedAs(db, investigation, identity, a)
    ensures Graph(t) && CreatedOk(t, investigation, db.store.nextId, map[])
  {
    GraphRules(db);
    WithAnalysisClaims(db, investigation, identity, t);
    WithAnalysisRest(db, investigation, identity, t);
    GraphRules(t);
  }

  lemma {:induction false} WithAnalysisRest(db: Db, investigation: Id, identity: (string, string, string), t: Db)
    requires CasesOk(db) && LinksOk(db) && Supported(db) && t == WithAnalysis(db, investigation, identity)
    ensures CasesOk(t) && LinksOk(t) && Supported(t)
  {
    forall c | c in t.claims && t.claims[c].role != Evidence ensures Backed(t.links, c) {
      assert Backed(db.links, c);
    }
  }

  lemma {:induction false} RecordAnalysisGraph(db: Db, investigation: Id, session: Option<Id>, source: Source, claims: seq<ClaimInput>, t: Db)
    requires Graph(db) && Issued(db.store) && t == RecordAnalysis(db, investigation, session, source, claims).0
    ensures Graph(t) && Issued(t.store)
  {
    if t == db {
      return;
    }
    var identity := Identity(source);
    var begun := WithAnalysis(db, investigation, identity);
    WithAnalysisGraph(db, investigation, identity, begun);
    AddClaimsGraph(begun, investigation, db.store.nextId, session, map[], claims, t);
  }

  lemma {:induction false} RecordNewStore(db: Db, investigation: Id, session: Option<Id>, identity: (string, string, string), claims: seq<ClaimInput>, t: Db)
    requires Inv(db.store) && t == RecordNew(db, investigation, session, identity, claims).0
    ensures Inv(t.store)
  {
    if t == db {
      return;
    }
    LaterId(db.store, db.store.nextId + 1, WithAnalysis(db, investigation, identity).store);
    AddClaimsStore(WithAnalysis(db, investigation, identity), investigation, db.store.nextId, session, map[], claims, t);
  }

  lemma {:induction false} RecordAnalysisStore(db: Db, investigation: Id, session: Option<Id>, source: Source, claims: seq<ClaimInput>, t: Db)
    requires Inv(db.store) && t == RecordAnalysis(db, investigation, session, source, claims).0
    ensures Inv(t.store)
  {
    if t == db {
      return;
    }
    RecordNewStore(db, investigation, session, Identity(source), claims, t);
  }

  // ---------------------------------------------------------------------
  // All, nothing, or a replay
  // ---------------------------------------------------------------------

  lemma {:induction false} WithClaimIds(db: Db, investigation: Id, analysis: Id, session: Option<Id>, c: ClaimInput, grounds: seq<Id>)
    requires Issued(db.store) && Writable(db, investigation, session)
    requires forall d :: d in db.claims ==> d < db.store.nextId
    ensures var t := WithClaim(db, investigation, analysis, session, c, grounds);
      Issued(t.store) && forall d :: d in t.claims ==> d < t.store.nextId
  {
  }

  /** The claims add one event, one memory and one claim each. */
  lemma {:induction false} AddClaimsCount(db: Db, investigation: Id, analysis: Id, session: Option<Id>, created: map<string, Id>, claims: seq<ClaimInput>)
    requires Issued(db.store) && Writable(db, investigation, session)
    requires forall c :: c in db.claims ==> c < db.store.nextId
    requires AddClaims(db, investigation, analysis, session, created, claims).Some?
    ensures var t, p := AddClaims(db, investigation, analysis, session, created, claims).value, db.cases[investigation].project;
      && t.cases == db.cases && t.analyses == db.analyses
      && |t.claims| == |db.claims| + |claims|
      && |t.store.events| == |db.store.events| + |claims|
      && |t.store.memories| == |db.store.memories| + |claims|
      && p in t.store.nextSeq && t.store.nextSeq[p] == db.store.nextSeq[p] + |claims|
    decreases |claims|
  {
    if claims != [] {
      var c := claims[0];
      var grounds := AcceptedGrounds(db, investigation, session, created, c).value;
      assert ClaimId(db) !in db.claims;
      WithClaimIds(db, investigation, analysis, session, c, grounds);
      AddClaimsCount(WithClaim(db, investigation, analysis, session, c, grounds), investigation, analysis, session, created[c.key := ClaimId(db)], claims[1..]);
    }
  }

  lemma {:induction false} RecordedNew(db: Db, investigation: Id, session: Option<Id>, identity: (string, string, string),
    claims: seq<ClaimInput>, t: Db, r: Result<Recorded, Failure>)
    requires Consistent(db) && investigation in db.cases && claims != []
    requires RecordNew(db, investigation, session, identity, claims) == (t, r) && r.Ok?
    ensures r.value == Recorded(db.store.nextId, false) && t.cases == db.cases
    ensures t.analyses == db.analyses[db.store.nextId := Analysis(investigation, identity)]
    ensures |t.claims| == |db.claims| + |claims|
    ensures |t.store.events| == |db.store.events| + |claims|
    ensures |t.store.memories| == |db.store.memories| + |claims|
  {
    var begun := WithAnalysis(db, investigation, identity);
    AddClaimsCount(begun, investigation, db.store.nextId, session, map[], claims);
  }

  /** What one call adds: an analysis with all its claims, or no row at all. */
  lemma {:induction false} RecordedAllOrNothing(db: Db, investigation: Id, session: Option<Id>, source: Source, claims: seq<ClaimInput>)
    requires Consistent(db)
    ensures var (t, r) := RecordAnalysis(db, investigation, session, source, claims);
      && (r.Err? || r.value.idempotent ==> t == db)
      && (r.Ok? ==> AnalysedAs(t, investigation, Identity(source), r.value.analysis) && t.cases == db.cases)
      && (r.Ok? && !r.value.idempotent ==>
            && t.analyses == db.analyses[db.store.nextId := Analysis(investigation, Identity(source))]
            && |t.claims| == |db.claims| + |claims|
            && |t.store.events| == |db.store.events| + |claims|
            && |t.store.memories| == |db.store.memories| + |claims|)
  {
    var (t, r) := RecordAnalysis(db, investigation, session, source, claims);
    if r.Ok? && !r.value.idempotent {
      RecordedNew(db, investigation, session, Identity(source), claims, t, r);
    }
  }

  const NOTHING := Db(EMPTY, map[], map[], map[], {})

  function CompleteStep(db: Db, i: Id): Db {
    if i in db.cases then db.(cases := db.cases[i := db.cases[i].(open := false)]) else db
  }

  // ---------------------------------------------------------------------
  // The repository
  // ---------------------------------------------------------------------

  lemma {:induction false} ResolveIs(db: Db, investigation: Id, reference: (Id, string), c: Id)
    requires ClaimsDistinct(db.claims) && Names(db, investigation, reference, c)
    ensures Resolve(db, investigation, reference) == Some(c)
  {
  }

  lemma {:induction false} WithAnalysisConsistent(db: Db, investigation: Id, identity: (string, string, string), t: Db)
    requires Consistent(db) && t == WithAnalysis(db, investigation, identity)
    requires forall a :: !AnalysedAs(db, investigation, identity, a)
    ensures Consistent(t) && CreatedOk(t, investigation, db.store.nextId, map[])
  {
    forall a | a in db.analyses ensures db.analyses[a] != Analysis(investigation, identity) {
      assert !AnalysedAs(db, investigation, identity, a);
    }
  }

  /** A database in the middle of recording an analysis. */
  ghost predicate Recording(db: Db, investigation: Id, analysis: Id, created: map<string, Id>) {
    Consistent(db) && analysis in db.analyses && CreatedOk(db, investigation, analysis, created)
  }

  lemma {:induction false} RowConsistent(db: Db, s: Store, id: Id, row: Claim, links: set<Link>, t: Db)
    requires Consistent(db) && Keeps(db.store, s) && Issued(s) && db.store.nextId <= id < s.nextId
    requires row.analysis in db.analyses && row.event in s.events && NewClaim(db.claims, row)
    requires t == Db(s, db.cases, db.analyses, db.claims[id := row], links)
    ensures Consistent(t)
  {
  }

  lemma {:induction false} FreshClaim(db: Db, row: Claim)
    requires Consistent(db) && row.event == db.store.nextId
    requires forall d :: d in db.claims && db.claims[d].analysis == row.analysis ==> db.claims[d].key != row.key
    ensures NewClaim(db.claims, row)
  {
    assert forall d :: d in db.claims ==> db.claims[d].event in db.store.events;
  }

  lemma {:induction false} WithClaimConsistent(db: Db, investigation: Id, analysis: Id, session: Option<Id>, c: ClaimInput, grounds: seq<Id>, t: Db)
    requires Consistent(db) && Writable(db, investigation, session) && analysis in db.analyses
    requires forall d :: d in db.claims && db.claims[d].analysis == analysis ==> db.claims[d].key != c.key
    requires t == WithClaim(db, investigation, analysis, session, c, grounds)
    ensures Consistent(t)
  {
    var p, context := db.cases[investigation].project, Context(db.cases[investigation].scope, session);
    InsertClaimHolds(db.store, p, context, Strip(c.content), c.status, ClaimId(db) + 1, t.store);
    var row := Claim(investigation, analysis, c.key, c.role, db.store.nextId, Some(db.store.nextId + 1));
    FreshClaim(db, row);
    assert t == Db(t.store, db.cases, db.analyses, db.claims[ClaimId(db) := row], t.links);
    RowConsistent(db, t.store, ClaimId(db), row, t.links, t);
  }

  lemma {:induction false} RecordingNext(db: Db, investigation: Id, analysis: Id, session: Option<Id>, created: map<string, Id>, c: ClaimInput,
    t: Db, names: map<string, Id>)
    requires Recording(db, investigation, analysis, created) && c.key !in created
    requires AddClaim(db, investigation, analysis, session, created, c) == Some((t, names))
    ensures Recording(t, investigation, analysis, names) && t.cases == db.cases && names.Keys == created.Keys + {c.key}
  {
    var grounds := AcceptedGrounds(db, investigation, session, created, c).value;
    WithClaimConsistent(db, investigation, analysis, session, c, grounds, t);
    WithClaimCreated(db, investigation, analysis, session, created, c, grounds);
    assert t == WithClaim(db, investigation, analysis, session, c, grounds) && names == created[c.key := ClaimId(db)];
  }

  lemma {:induction false} AddClaimsConsistent(db: Db, investigation: Id, analysis: Id, session: Option<Id>, created: map<string, Id>,
    claims: seq<ClaimInput>, t: Db)
    requires Recording(db, investigation, analysis, created)
    requires forall i :: 0 <= i < |claims| ==> claims[i].key !in created
    requires forall i, j :: 0 <= i < j < |claims| ==> claims[i].key != claims[j].key
    requires AddClaims(db, investigation, analysis, session, created, claims) == Some(t)
    ensures Consistent(t) && t.analyses == db.analyses
    decreases |claims|
  {
    if claims == [] {
      return;
    }
    var (next, names) := AddClaim(db, investigation, analysis, session, created, claims[0]).value;
    RecordingNext(db, investigation, analysis, session, created, claims[0], next, names);
    AddClaimsConsistent(next, investigation, analysis, session, names, claims[1..], t);
  }

  lemma {:induction false} RecordAnalysisConsistent(db: Db, investigation: Id, session: Option<Id>, source: Source, claims: seq<ClaimInput>, t: Db)
    requires Consistent(db) && t == RecordAnalysis(db, investigation, session, source, claims).0
    ensures Consistent(t)
  {
    if t == db {
      return;
    }
    var identity := Identity(source);
    var begun := WithAnalysis(db, investigation, identity);
    WithAnalysisConsistent(db, investigation, identity, begun);
    AddClaimsConsistent(begun, investigation, db.store.nextId, session, map[], claims, t);
  }

  lemma {:induction false} AddedClaim(db: Db, investigation: Id, analysis: Id, session: Option<Id>, created: map<string, Id>, c: ClaimInput,
    grounds: seq<Id>)
    requires AcceptedGrounds(db, investigation, session, created, c) == Some(grounds)
    ensures Writable(db, investigation, session)
    ensures AddClaim(db, investigation, analysis, session, created, c)
         == Some((WithClaim(db, investigation, analysis, session, c, grounds), created[c.key := ClaimId(db)]))
  {
  }

  lemma {:induction false} RecordKeeps(db: Db, investigation: Id, session: Option<Id>, source: Source, claims: seq<ClaimInput>, t: Db)
    requires Consistent(db) && t == RecordAnalysis(db, investigation, session, source, claims).0
    ensures Consistent(t) && (Graph(db) ==> Graph(t))
  {
    RecordAnalysisConsistent(db, investigation, session, source, claims, t);
    if Graph(db) {
      RecordAnalysisGraph(db, investigation, session, source, claims, t);
    }
  }

  class InvestigationRepository {
    var store: Store
    var cases: map<Id, Case>
    var analyses: map<Id, Analysis>
    var claims: map<Id, Claim>
    var links: set<Link>

    ghost function View(): Db
      reads this
    {
      Db(store, cases, analyses, claims, links)
    }

    constructor ()
      ensures View() == NOTHING
    {
      store, cases, analyses, claims, links := EMPTY, map[], map[], map[], {};
    }

    method ResolveReferences(investigation: Id, references: seq<(Id, string)>) returns (ids: Option<seq<Id>>)
      requires ClaimsDistinct(claims)
      ensures ids == ResolveAll(View(), investigation, references)
    {
      var found := [];
      var i := 0;
      assert references[0..] == references;
      assert forall rest: seq<Id> :: [] + rest == rest;
      while i < |references|
        invariant 0 <= i <= |references|
        invariant var rest := ResolveAll(View(), investigation, references[i..]);
          ResolveAll(View(), investigation, references) == if rest.None? then None else Some(found + rest.value)
      {
        assert references[i..][1..] == references[i + 1..];
        if c :| c in claims && Named(claims[c], investigation, references[i]) {
          ResolveIs(View(), investigation, references[i], c);
          ghost var rest := ResolveAll(View(), investigation, references[i + 1..]);
          assert rest.Some? ==> found + ([c] + rest.value) == (found + [c]) + rest.value;
          found := found + [c];
        } else {
          return None;
        }
        i := i + 1;
      }
      assert found + [] == found;
      ids := Some(found);
    }

    method GroundsOf(investigation: Id, created: map<string, Id>, c: ClaimInput) returns (grounds: Option<seq<Id>>)
      requires ClaimsDistinct(claims)
      ensures grounds == Grounds(View(), investigation, created, c)
    {
      var recorded := ResolveReferences(investigation, c.externalRefs);
      if recorded.None? || exists i :: 0 <= i < |c.refs| && c.refs[i] !in created {
        return None;
      }
      grounds := Some(seq(|c.refs|, i requires 0 <= i < |c.refs| && c.refs[i] in created => created[c.refs[i]]) + recorded.value);
    }

    method InsertClaimRows(investigation: Id, analysis: Id, session: Option<Id>, c: ClaimInput, grounds: seq<Id>)
      requires Writable(View(), investigation, session)
      modifies this
      ensures View() == WithClaim(old(View()), investigation, analysis, session, c, grounds)
    {
      var event, memory, id := store.nextId, store.nextId + 1, store.nextId + 2;
      var inquiry := cases[investigation];
      store := InsertClaim(store, inquiry.project, Context(inquiry.scope, session), Strip(c.content), c.status).(nextId := id + 1);
      claims := claims[id := Claim(investigation, analysis, c.key, c.role, event, Some(memory))];
      links := links + LinksTo(grounds, id, RelationOf(c.role));
    }

    method RecordSourceAnalysis(investigation: Id, session: Option<Id>, source: Source, submitted: seq<ClaimInput>) returns (r: Result<Recorded, Failure>)
      requires Consistent(View())
      modifies this
      ensures (View(), r) == RecordAnalysis(old(View()), investigation, session, source, submitted)
      ensures Consistent(View()) && (old(Graph(View())) ==> Graph(View()))
    {
      RecordKeeps(View(), investigation, session, source, submitted, RecordAnalysis(View(), investigation, session, source, submitted).0);
      if investigation !in cases {
        return Err(UnknownInvestigation);
      }
      if !cases[investigation].open {
        return Err(Completed);
      }
      if !ValidSource(source) {
        return Err(BadSource);
      }
      if !ValidKeys(submitted) {
        return Err(BadClaims);
      }
      var identity := Identity(source);
      if a :| a in analyses && analyses[a] == Analysis(investigation, identity) {
        assert AnalysedAs(View(), investigation, identity, a);
        return Ok(Recorded(a, true));
      }
      r := Transaction(investigation, session, identity, submitted);
    }

    /** What the foreign keys of a claim's event ask. */
    predicate Insertable(investigation: Id, session: Option<Id>)
      reads this
    {
      && investigation in cases && cases[investigation].project in store.nextSeq
      && Refers(store.scopes, cases[investigation].scope) && Refers(store.sessions, session)
    }

    method CheckClaim(investigation: Id, session: Option<Id>, created: map<string, Id>, c: ClaimInput) returns (grounds: Option<seq<Id>>)
      requires ClaimsDistinct(claims)
      ensures grounds == AcceptedGrounds(View(), investigation, session, created, c)
    {
      grounds := GroundsOf(investigation, created, c);
      if !Insertable(investigation, session) || !ValidClaim(c) || grounds.None? {
        return None;
      }
      if (c.role != Evidence && grounds.value == []) || !Distinct(grounds.value) {
        return None;
      }
    }

    /** The next claim of a running transaction. */
    method AddOne(investigation: Id, analysis: Id, session: Option<Id>, created: map<string, Id>, c: ClaimInput) returns (ok: bool, names: map<string, Id>)
      requires ClaimsDistinct(claims)
      modifies this
      ensures var added := AddClaim(old(View()), investigation, analysis, session, created, c);
        ok == added.Some? && (ok ==> (View(), names) == added.value)
    {
      names := created;
      var grounds := CheckClaim(investigation, session, created, c);
      ok := grounds.Some?;
      if !ok {
        return;
      }
      names := created[c.key := store.nextId + 2];
      ghost var db := View();
      InsertClaimRows(investigation, analysis, session, c, grounds.value);
      AddedClaim(db, investigation, analysis, session, created, c, grounds.value);
    }

    /** The claims in order, in a running transaction. */
    method AddAll(investigation: Id, analysis: Id, session: Option<Id>, submitted: seq<ClaimInput>) returns (ok: bool)
      requires Recording(View(), investigation, analysis, map[])
      requires forall i, j :: 0 <= i < j < |submitted| ==> submitted[i].key != submitted[j].key
      modifies this
      ensures var after := AddClaims(old(View()), investigation, analysis, session, map[], submitted);
        ok == after.Some? && (ok ==> View() == after.value && cases == old(cases))
    {
      var created: map<string, Id> := map[];
      var i := 0;
      assert submitted[0..] == submitted;
      while i < |submitted|
        invariant 0 <= i <= |submitted| && cases == old(cases)
        invariant Recording(View(), investigation, analysis, created)
        invariant forall k :: i <= k < |submitted| ==> submitted[k].key !in created
        invariant AddClaims(old(View()), investigation, analysis, session, map[], submitted)
          == AddClaims(View(), investigation, analysis, session, created, submitted[i..])
      {
        assert submitted[i..][0] == submitted[i] && submitted[i..][1..] == submitted[i + 1..];
        ghost var before, named := View(), created;
        ok, created := AddOne(investigation, analysis, session, created, submitted[i]);
        if !ok {
          return;
        }
        RecordingNext(before, investigation, analysis, session, named, submitted[i], View(), created);
        i := i + 1;
      }
      ok := true;
    }

    /** One transaction: the analysis and every claim, or nothing. */
    method Transaction(investigation: Id, session: Option<Id>, identity: (string, string, string), submitted: seq<ClaimInput>) returns (r: Result<Recorded, Failure>)
      requires Consistent(View()) && investigation in cases && ValidKeys(submitted)
      requires forall a :: !AnalysedAs(View(), investigation, identity, a)
      modifies this
      ensures (View(), r) == RecordNew(old(View()), investigation, session, identity, submitted)
    {
      var oldStore, oldAnalyses, oldClaims, oldLinks, oldCases := store, analyses, claims, links, cases;
      var analysis := store.nextId;
      WithAnalysisConsistent(View(), investigation, identity, WithAnalysis(View(), investigation, identity));
      analyses := analyses[analysis := Analysis(investigation, identity)];
      store := store.(nextId := analysis + 1);
      assert View() == WithAnalysis(old(View()), investigation, identity);
      var ok := AddAll(investigation, analysis, session, submitted);
      if !ok {
        store, analyses, claims, links, cases := oldStore, oldAnalyses, oldClaims, oldLinks, oldCases;
        return Err(BadClaims);
      }
      r := Ok(Recorded(analysis, false));
    }

    method CompleteInvestigation(investigation: Id) returns (known: bool)
      modifies this`cases
      ensures View() == CompleteStep(old(View()), investigation) && known == (investigation in old(cases))
    {
      known := investigation in cases;
      if known {
        cases := cases[investigation := cases[investigation].(open := false)];
      }
    }
  }
}