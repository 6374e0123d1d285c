/** What recording a source analysis does, row by row: when it succeeds, and the exact rows of
    every claim it records. */
module InvestigationEffects {
  import opened Wrappers
  import opened Text
  import opened EvidenceStore
  import opened Transfer
  import opened Investigation

  /** The identifiers of claim j and of its event and memory, issued one after the other. */
  function EventAt(base: Id, j: nat): Id {
    base + 3 * j
  }

  function MemoryAt(base: Id, j: nat): Id {
    base + 3 * j + 1
  }

  function ClaimAt(base: Id, j: nat): Id {
    base + 3 * j + 2
  }

  /** A recording in progress: the database before it, where it writes, and what was submitted. */
  datatype Job = Job(db: Db, investigation: Id, analysis: Id, session: Option<Id>, claims: seq<ClaimInput>, base: Id) {
    ghost predicate Valid() {
      && Consistent(db) && investigation in db.cases && analysis in db.analyses
      && base == db.store.nextId
      && (forall c :: c in db.claims ==> db.claims[c].analysis != analysis)
      && (forall i, j :: 0 <= i < j < |claims| ==> claims[i].key != claims[j].key)
    }

    function Inquiry(): Case
      requires investigation in db.cases
    {
      db.cases[investigation]
    }

    /** The recorded claim c of this investigation is what the reference names. */
    predicate NamesRecorded(reference: (Id, string), c: Id) {
      && c in db.claims && db.claims[c].investigation == investigation
      && db.claims[c].analysis == reference.0 && db.claims[c].key == reference.1
    }

    /** Claim g is one that submitted claim i gives as a ground: an earlier claim of this
        analysis by key, or a recorded one by analysis and key. */
    ghost predicate Ground(i: nat, g: Id)
      requires i < |claims|
    {
      || (exists j :: 0 <= j < i && claims[j].key in claims[i].refs && g == ClaimAt(base, j))
      || (exists r :: r in claims[i].externalRefs && NamesRecorded(r, g))
      || (exists j :: 0 <= j < i && (analysis, claims[j].key) in claims[i].externalRefs && g == ClaimAt(base, j))
    }

    /** Every ground that claim i gives exists. */
    ghost predicate GroundsExist(i: nat)
      requires i < |claims|
    {
      && (forall key :: key in claims[i].refs ==> exists j :: 0 <= j < i && claims[j].key == key)
      && (forall r :: r in claims[i].externalRefs ==>
            (exists c :: NamesRecorded(r, c)) || (r.0 == analysis && exists j :: 0 <= j < i && claims[j].key == r.1))
    }

    /** No ground is given twice. */
    predicate GroundsOnce(i: nat)
      requires i < |claims|
    {
      var c := claims[i];
      && (forall x, y :: 0 <= x < y < |c.refs| ==> c.refs[x] != c.refs[y])
      && (forall x, y :: 0 <= x < y < |c.externalRefs| ==> c.externalRefs[x] != c.externalRefs[y])
      && (forall key :: key in c.refs ==> (analysis, key) !in c.externalRefs)
    }

    /** What is asked of one claim. */
    ghost predicate Acceptable(i: nat)
      requires i < |claims| && investigation in db.cases
    {
      var c := claims[i];
      && Inquiry().project in db.store.nextSeq
      && (Inquiry().scope.Some? ==> Inquiry().scope.value in db.store.scopes)
      && (session.Some? ==> session.value in db.store.sessions)
      && !Blank(c.content)
      && (c.expectedOutcome.Some? ==> c.role == Decision && !Blank(c.expectedOutcome.value))
      && (c.hasEffect ==> c.role == Outcome)
      && (c.status == Proposed || (c.status == Active && c.role != Inference))
      && c.wellTyped
      && GroundsExist(i) && GroundsOnce(i)
      && (c.role == Evidence || c.refs != [] || c.externalRefs != [])
    }

    /** The relation of a claim to its grounds. */
    function Relation(i: nat): LinkRelation
      requires i < |claims|
    {
      match claims[i].role
      case Inference => DerivedFrom
      case Acting => Informed
      case Decision => Informed
      case _ => Supporting
    }
  }

  // ---------------------------------------------------------------------
  // The rows of the first k claims
  // ---------------------------------------------------------------------

  /** One event per claim, with its trimmed content, under the project's next numbers. */
  function EventRows(job: Job, k: nat): (rows: seq<(Id, Event)>)
    requires k <= |job.claims| && job.investigation in job.db.cases && job.Inquiry().project in job.db.store.nextSeq
    ensures |rows| == k
    ensures forall j: nat :: j < k ==>
      rows[j] == (EventAt(job.base, j),
                  Event(job.Inquiry().project, job.db.store.nextSeq[job.Inquiry().project] + j,
                        Context(job.Inquiry().scope, job.session), Strip(job.claims[j].content)))
  {
    seq(k, j requires 0 <= j < k =>
      (EventAt(job.base, j),
       Event(job.Inquiry().project, job.db.store.nextSeq[job.Inquiry().project] + j,
             Context(job.Inquiry().scope, job.session), Strip(job.claims[j].content))))
  }

  /** One memory per claim, with the submitted status. */
  function MemoryRows(job: Job, k: nat): (rows: seq<(Id, Memory)>)
    requires k <= |job.claims| && job.investigation in job.db.cases
    ensures |rows| == k
    ensures forall j: nat :: j < k ==>
      rows[j] == (MemoryAt(job.base, j),
                  Memory(job.Inquiry().project, job.claims[j].status, job.Inquiry().scope, Strip(job.claims[j].content)))
  {
    seq(k, j requires 0 <= j < k =>
      (MemoryAt(job.base, j), Memory(job.Inquiry().project, job.claims[j].status, job.Inquiry().scope, Strip(job.claims[j].content))))
  }

  /** Each memory has its claim's event as its source; links of older memories stay. */
  ghost predicate SourcesRecorded(base: Id, before: map<(Id, Id), string>, sources: map<(Id, Id), string>, k: nat) {
    && (forall x :: x in sources <==> x in before || NewSource(base, x, k))
    && (forall x :: x in sources && NewSource(base, x, k) ==> sources[x] == "investigation claim")
    && (forall x :: x in sources && x in before && x.0 < base ==> sources[x] == before[x])
  }

  ghost predicate NewSource(base: Id, x: (Id, Id), k: nat) {
    exists j: nat :: j < k && x == (MemoryAt(base, j), EventAt(base, j))
  }

  function ClaimRows(job: Job, k: nat): (rows: seq<(Id, Claim)>)
    requires k <= |job.claims|
    ensures |rows| == k
    ensures forall j: nat :: j < k ==>
      rows[j] == (ClaimAt(job.base, j),
                  Claim(job.investigation, job.analysis, job.claims[j].key, job.claims[j].role, EventAt(job.base, j), Some(MemoryAt(job.base, j))))
  {
    seq(k, j requires 0 <= j < k =>
      (ClaimAt(job.base, j),
       Claim(job.investigation, job.analysis, job.claims[j].key, job.claims[j].role, EventAt(job.base, j), Some(MemoryAt(job.base, j)))))
  }

  lemma {:induction false} ExtendsOne<K(!new), V>(before: map<K, V>, rows: seq<(K, V)>, table: map<K, V>, key: K, row: V, more: seq<(K, V)>)
    requires Extends(before, rows, table) && key !in table && more == rows + [(key, row)]
    ensures Extends(before, more, table[key := row])
  {
    var after := table[key := row];
    forall x | x in after && x !in before ensures exists i :: 0 <= i < |more| && more[i].0 == x {
      if x == key {
        assert more[|rows|].0 == key;
      } else {
        var i :| 0 <= i < |rows| && rows[i].0 == x;
        assert more[i].0 == x;
      }
    }
  }

  /** A link from a ground of one of the first k claims to that claim. */
  ghost predicate NewLink(job: Job, l: Link, k: nat)
    requires k <= |job.claims|
  {
    exists i: nat :: i < k && l.to == ClaimAt(job.base, i) && l.relation == job.Relation(i) && job.Ground(i, l.from)
  }

  ghost predicate LinksGrown(job: Job, links: set<Link>, k: nat)
    requires k <= |job.claims|
  {
    forall l :: l in links <==> l in job.db.links || NewLink(job, l, k)
  }

  predicate Submitted(job: Job, key: string, k: nat)
    requires k <= |job.claims|
  {
    exists j: nat :: j < k && job.claims[j].key == key
  }

  ghost predicate NamesGrown(job: Job, created: map<string, Id>, k: nat)
    requires k <= |job.claims|
  {
    && (forall key :: key in created <==> Submitted(job, key, k))
    && (forall j: nat :: j < k ==> job.claims[j].key in created && created[job.claims[j].key] == ClaimAt(job.base, j))
  }

  /** Everything after k claims: exactly their rows were added, and nothing else changed. */
  ghost predicate RecordedRows(job: Job, db: Db, k: nat)
    requires job.investigation in job.db.cases && k <= |job.claims|
  {
    && db.cases == job.db.cases && db.analyses == job.db.analyses
    && Extends(job.db.claims, ClaimRows(job, k), db.claims) && LinksGrown(job, db.links, k)
    && StoreRecorded(job, db.store, k)
  }

  ghost predicate StoreRecorded(job: Job, s: Store, k: nat)
    requires job.investigation in job.db.cases && k <= |job.claims|
  {
    var s0, p := job.db.store, job.Inquiry().project;
    && (k == 0 ==> s == s0)
    && (k > 0 ==>
          && p in s0.nextSeq && s.nextSeq == s0.nextSeq[p := s0.nextSeq[p] + k]
          && Extends(s0.events, EventRows(job, k), s.events))
    && Extends(s0.memories, MemoryRows(job, k), s.memories)
    && SourcesRecorded(job.base, s0.sources, s.sources, k)
    && s.nextId == job.base + 3 * k
    && s.scopes == s0.scopes && s.sessions == s0.sessions && s.edges == s0.edges && s.receipts == s0.receipts
  }

  // ---------------------------------------------------------------------
  // Grounds
  // ---------------------------------------------------------------------

  lemma {:induction false} ResolveExact(db: Db, investigation: Id, r: (Id, string))
    requires ClaimsDistinct(db.claims)
    ensures Resolve(db, investigation, r).Some? <==> exists c :: Names(db, investigation, r, c)
    ensures Resolve(db, investigation, r).Some? ==> Names(db, investigation, r, Resolve(db, investigation, r).value)
  {
  }

  lemma {:induction false} ResolveAllExact(db: Db, investigation: Id, references: seq<(Id, string)>)
    requires ClaimsDistinct(db.claims)
    ensures var found := ResolveAll(db, investigation, references);
      && (found.Some? <==> forall r :: r in references ==> exists c :: Names(db, investigation, r, c))
      && (found.Some? ==>
            |found.value| == |references| && forall x :: 0 <= x < |references| ==> Names(db, investigation, references[x], found.value[x]))
  {
    if references == [] {
      return;
    }
    var first, rest := references[0], references[1..];
    ResolveExact(db, investigation, first);
    ResolveAllExact(db, investigation, rest);
    assert references == [first] + rest;
    var found := ResolveAll(db, investigation, references);
    if found.Some? {
      forall x | 0 <= x < |references| ensures Names(db, investigation, references[x], found.value[x]) {
        if x > 0 {
          assert references[x] == rest[x - 1] && found.value[x] == ResolveAll(db, investigation, rest).value[x - 1];
        }
      }
      forall r | r in references ensures exists c :: Names(db, investigation, r, c) {
        var x :| 0 <= x < |references| && references[x] == r;
        assert Names(db, investigation, references[x], found.value[x]);
      }
    } else if Resolve(db, investigation, first).None? {
      assert first in references;
    } else {
      var r :| r in rest && !exists c :: Names(db, investigation, r, c);
      assert r in references;
    }
  }

  /** What a reference names in the middle of the recording. */
  lemma {:induction false} NamesNow(job: Job, db: Db, k: nat, r: (Id, string), c: Id)
    requires job.Valid() && k <= |job.claims| && Extends(job.db.claims, ClaimRows(job, k), db.claims)
    ensures Names(db, job.investigation, r, c) <==>
      job.NamesRecorded(r, c) || (r.0 == job.analysis && exists j: nat :: j < k && job.claims[j].key == r.1 && c == ClaimAt(job.base, j))
  {
    var rows := ClaimRows(job, k);
    if c in db.claims && c !in job.db.claims {
      var j :| 0 <= j < |rows| && rows[j].0 == c;
      assert db.claims[rows[j].0] == rows[j].1;
    }
    if exists j: nat :: j < k && job.claims[j].key == r.1 && c == ClaimAt(job.base, j) {
      var j: nat :| j < k && job.claims[j].key == r.1 && c == ClaimAt(job.base, j);
      assert db.claims[rows[j].0] == rows[j].1;
    }
  }

  /** The state in which claim k is checked. */
  ghost predicate AtClaim(job: Job, db: Db, created: map<string, Id>, k: nat) {
    && job.Valid() && k <= |job.claims| && RecordedRows(job, db, k) && NamesGrown(job, created, k)
    && Consistent(db)
  }

  lemma {:induction false} ReferencesExist(job: Job, db: Db, created: map<string, Id>, k: nat, references: seq<(Id, string)>)
    requires AtClaim(job, db, created, k)
    ensures ResolveAll(db, job.investigation, references).Some? <==>
      forall r :: r in references ==>
        (exists c :: job.NamesRecorded(r, c)) || (r.0 == job.analysis && exists j :: 0 <= j < k && job.claims[j].key == r.1)
  {
    ResolveAllExact(db, job.investigation, references);
    forall r | r in references
      ensures (exists c :: Names(db, job.investigation, r, c)) <==>
        (exists c :: job.NamesRecorded(r, c)) || (r.0 == job.analysis && exists j :: 0 <= j < k && job.claims[j].key == r.1)
    {
      ReferenceExists(job, db, created, k, r);
    }
  }

  lemma {:induction false} ReferenceExists(job: Job, db: Db, created: map<string, Id>, k: nat, r: (Id, string))
    requires AtClaim(job, db, created, k)
    ensures (exists c :: Names(db, job.investigation, r, c)) <==>
      (exists c :: job.NamesRecorded(r, c)) || (r.0 == job.analysis && exists j :: 0 <= j < k && job.claims[j].key == r.1)
  {
    if c :| Names(db, job.investigation, r, c) {
      NamesNow(job, db, k, r, c);
    }
    if c :| job.NamesRecorded(r, c) {
      NamesNow(job, db, k, r, c);
    }
    if r.0 == job.analysis && exists j :: 0 <= j < k && job.claims[j].key == r.1 {
      var j :| 0 <= j < k && job.claims[j].key == r.1;
      NamesNow(job, db, k, r, ClaimAt(job.base, j));
    }
  }

  lemma {:induction false} KeysCreated(job: Job, created: map<string, Id>, k: nat, refs: seq<string>)
    requires k <= |job.claims| && NamesGrown(job, created, k)
    ensures (forall key :: key in refs ==> key in created) <==>
      forall key :: key in refs ==> exists j :: 0 <= j < k && job.claims[j].key == key
  {
  }

  lemma {:induction false} GroundsSome(db: Db, investigation: Id, created: map<string, Id>, c: ClaimInput)
    ensures Grounds(db, investigation, created, c).Some? <==>
      ResolveAll(db, investigation, c.externalRefs).Some? && forall key :: key in c.refs ==> key in created
  {
    if forall key :: key in c.refs ==> key in created {
      assert forall i :: 0 <= i < |c.refs| ==> c.refs[i] in c.refs;
    } else {
      var key :| key in c.refs && key !in created;
      var i :| 0 <= i < |c.refs| && c.refs[i] == key;
    }
  }

  /** The grounds the loop looks up exist exactly when claim k's do, ... */
  lemma {:induction false} GroundsFound(job: Job, db: Db, created: map<string, Id>, k: nat)
    requires AtClaim(job, db, created, k) && k < |job.claims|
    ensures Grounds(db, job.investigation, created, job.claims[k]).Some? <==> job.GroundsExist(k)
  {
    var c := job.claims[k];
    ReferencesExist(job, db, created, k, c.externalRefs);
    KeysCreated(job, created, k, c.refs);
    GroundsSome(db, job.investigation, created, c);
  }

  lemma {:induction false} CreatedIs(job: Job, created: map<string, Id>, k: nat, key: string, g: Id)
    requires job.Valid() && k <= |job.claims| && NamesGrown(job, created, k) && key in created
    ensures g == created[key] <==> exists j :: 0 <= j < k && job.claims[j].key == key && g == ClaimAt(job.base, j)
  {
    var j: nat :| j < k && job.claims[j].key == key;
    assert created[job.claims[j].key] == ClaimAt(job.base, j);
  }

  lemma {:induction false} GroundsParts(job: Job, db: Db, created: map<string, Id>, k: nat, grounds: seq<Id>) returns (own: seq<Id>, found: seq<Id>)
    requires AtClaim(job, db, created, k) && k < |job.claims|
    requires Grounds(db, job.investigation, created, job.claims[k]) == Some(grounds)
    ensures grounds == own + found && |own| == |job.claims[k].refs| && |found| == |job.claims[k].externalRefs|
    ensures forall i :: 0 <= i < |own| ==> job.claims[k].refs[i] in created && own[i] == created[job.claims[k].refs[i]]
    ensures forall x :: 0 <= x < |found| ==> Names(db, job.investigation, job.claims[k].externalRefs[x], found[x])
  {
    var c := job.claims[k];
    own := seq(|c.refs|, i requires 0 <= i < |c.refs| && c.refs[i] in created => created[c.refs[i]]);
    found := ResolveAll(db, job.investigation, c.externalRefs).value;
    ResolveAllExact(db, job.investigation, c.externalRefs);
  }

  /** ... and are then exactly they. */
  lemma {:induction false} GroundsAre(job: Job, db: Db, created: map<string, Id>, k: nat, grounds: seq<Id>, g: Id)
    requires AtClaim(job, db, created, k) && k < |job.claims|
    requires Grounds(db, job.investigation, created, job.claims[k]) == Some(grounds)
    ensures g in grounds <==> job.Ground(k, g)
  {
    var own, found := GroundsParts(job, db, created, k, grounds);
    OwnGround(job, created, k, own, g);
    FoundGround(job, db, created, k, found, g);
  }

  lemma {:induction false} OwnGround(job: Job, created: map<string, Id>, k: nat, own: seq<Id>, g: Id)
    requires job.Valid() && k < |job.claims| && NamesGrown(job, created, k)
    requires |own| == |job.claims[k].refs|
    requires forall i :: 0 <= i < |own| ==> job.claims[k].refs[i] in created && own[i] == created[job.claims[k].refs[i]]
    ensures g in own <==> exists j :: 0 <= j < k && job.claims[j].key in job.claims[k].refs && g == ClaimAt(job.base, j)
  {
    var c := job.claims[k];
    if g in own {
      var i :| 0 <= i < |own| && own[i] == g;
      CreatedIs(job, created, k, c.refs[i], g);
    }
    if exists j :: 0 <= j < k && job.claims[j].key in c.refs && g == ClaimAt(job.base, j) {
      var j :| 0 <= j < k && job.claims[j].key in c.refs && g == ClaimAt(job.base, j);
      var i :| 0 <= i < |c.refs| && c.refs[i] == job.claims[j].key;
      CreatedIs(job, created, k, c.refs[i], g);
      assert own[i] == g;
    }
  }

  lemma {:induction false} FoundGround(job: Job, db: Db, created: map<string, Id>, k: nat, found: seq<Id>, g: Id)
    requires AtClaim(job, db, created, k) && k < |job.claims| && |found| == |job.claims[k].externalRefs|
    requires forall x :: 0 <= x < |found| ==> Names(db, job.investigation, job.claims[k].externalRefs[x], found[x])
    ensures g in found <==>
      || (exists r :: r in job.claims[k].externalRefs && job.NamesRecorded(r, g))
      || (exists j :: 0 <= j < k && (job.analysis, job.claims[j].key) in job.claims[k].externalRefs && g == ClaimAt(job.base, j))
  {
    var refs := job.claims[k].externalRefs;
    if g in found {
      var x :| 0 <= x < |found| && found[x] == g;
      FoundNames(job, db, k, refs[x], g);
      return;
    }
    if r :| r in refs && job.NamesRecorded(r, g) {
      FoundOne(job, db, created, k, found, r, g);
    }
    if j :| 0 <= j < k && (job.analysis, job.claims[j].key) in refs && g == ClaimAt(job.base, j) {
      FoundOne(job, db, created, k, found, (job.analysis, job.claims[j].key), g);
    }
  }

  lemma {:induction false} FoundNames(job: Job, db: Db, k: nat, r: (Id, string), g: Id)
    requires job.Valid() && k < |job.claims| && RecordedRows(job, db, k) && r in job.claims[k].externalRefs && Names(db, job.investigation, r, g)
    ensures
      || (exists r :: r in job.claims[k].externalRefs && job.NamesRecorded(r, g))
      || (exists j :: 0 <= j < k && (job.analysis, job.claims[j].key) in job.claims[k].externalRefs && g == ClaimAt(job.base, j))
  {
    NamesNow(job, db, k, r, g);
    if !job.NamesRecorded(r, g) {
      var j: nat :| j < k && job.claims[j].key == r.1 && g == ClaimAt(job.base, j);
      assert r == (job.analysis, job.claims[j].key);
    }
  }

  /** A reference names one claim only. */
  lemma {:induction false} FoundOne(job: Job, db: Db, created: map<string, Id>, k: nat, found: seq<Id>, r: (Id, string), g: Id)
    requires AtClaim(job, db, created, k) && k < |job.claims| && |found| == |job.claims[k].externalRefs|
    requires forall x :: 0 <= x < |found| ==> Names(db, job.investigation, job.claims[k].externalRefs[x], found[x])
    requires r in job.claims[k].externalRefs
    requires job.NamesRecorded(r, g) || (r.0 == job.analysis && exists j :: 0 <= j < k && job.claims[j].key == r.1 && g == ClaimAt(job.base, j))
    ensures g in found
  {
    NamesNow(job, db, k, r, g);
    var x :| 0 <= x < |found| && job.claims[k].externalRefs[x] == r;
    assert SameClaim(db.claims[found[x]], db.claims[g]);
    assert found[x] == g;
  }

  /** They are distinct exactly when no ground is given twice. */
  lemma {:induction false} GroundsDistinct(job: Job, db: Db, created: map<string, Id>, k: nat, grounds: seq<Id>)
    requires AtClaim(job, db, created, k) && k < |job.claims|
    requires Grounds(db, job.investigation, created, job.claims[k]) == Some(grounds)
    ensures Distinct(grounds) <==> job.GroundsOnce(k)
  {
    var own, found := GroundsParts(job, db, created, k, grounds);
    DistinctParts(own, found);
    OwnOnce(job, created, k, own);
    FoundOnce(db, job.investigation, job.claims[k].externalRefs, found);
    PartsApart(job, db, created, k, own, found);
  }

  lemma {:induction false} OwnOnce(job: Job, created: map<string, Id>, k: nat, own: seq<Id>)
    requires job.Valid() && k < |job.claims| && NamesGrown(job, created, k) && |own| == |job.claims[k].refs|
    requires forall i :: 0 <= i < |own| ==> job.claims[k].refs[i] in created && own[i] == created[job.claims[k].refs[i]]
    ensures Distinct(own) <==> forall x, y :: 0 <= x < y < |own| ==> job.claims[k].refs[x] != job.claims[k].refs[y]
  {
    var refs := job.claims[k].refs;
    forall x, y | 0 <= x < y < |own| ensures own[x] == own[y] <==> refs[x] == refs[y] {
      SameCreated(job, created, k, refs[x], refs[y]);
    }
  }

  lemma {:induction false} FoundOnce(db: Db, investigation: Id, references: seq<(Id, string)>, found: seq<Id>)
    requires ClaimsDistinct(db.claims) && |found| == |references|
    requires forall x :: 0 <= x < |found| ==> Names(db, investigation, references[x], found[x])
    ensures Distinct(found) <==> forall x, y :: 0 <= x < y < |references| ==> references[x] != references[y]
  {
    forall x, y | 0 <= x < y < |found| ensures found[x] == found[y] <==> references[x] == references[y] {
      SameNamed(db, investigation, references[x], references[y], found[x], found[y]);
    }
  }

  lemma {:induction false} PartsApart(job: Job, db: Db, created: map<string, Id>, k: nat, own: seq<Id>, found: seq<Id>)
    requires AtClaim(job, db, created, k) && k < |job.claims|
    requires |own| == |job.claims[k].refs| && |found| == |job.claims[k].externalRefs|
    requires forall i :: 0 <= i < |own| ==> job.claims[k].refs[i] in created && own[i] == created[job.claims[k].refs[i]]
    requires forall x :: 0 <= x < |found| ==> Names(db, job.investigation, job.claims[k].externalRefs[x], found[x])
    ensures (forall g :: g in own ==> g !in found) <==>
      forall key :: key in job.claims[k].refs ==> (job.analysis, key) !in job.claims[k].externalRefs
  {
    var c := job.claims[k];
    forall i | 0 <= i < |own| ensures own[i] in found <==> (job.analysis, c.refs[i]) in c.externalRefs {
      OneApart(job, db, created, k, c.refs[i], found);
    }
  }

  lemma {:induction false} OneApart(job: Job, db: Db, created: map<string, Id>, k: nat, key: string, found: seq<Id>)
    requires AtClaim(job, db, created, k) && k < |job.claims| && key in created && |found| == |job.claims[k].externalRefs|
    requires forall x :: 0 <= x < |found| ==> Names(db, job.investigation, job.claims[k].externalRefs[x], found[x])
    ensures created[key] in found <==> (job.analysis, key) in job.claims[k].externalRefs
  {
    var references := job.claims[k].externalRefs;
    CreatedNamed(job, db, created, k, key);
    forall x | 0 <= x < |found| ensures found[x] == created[key] <==> references[x] == (job.analysis, key) {
      SameNamed(db, job.investigation, references[x], (job.analysis, key), found[x], created[key]);
    }
  }

  lemma {:induction false} SameCreated(job: Job, created: map<string, Id>, k: nat, a: string, b: string)
    requires job.Valid() && k <= |job.claims| && NamesGrown(job, created, k) && a in created && b in created
    ensures created[a] == created[b] <==> a == b
  {
    var i: nat :| i < k && job.claims[i].key == a;
    var j: nat :| j < k && job.claims[j].key == b;
    assert created[job.claims[i].key] == ClaimAt(job.base, i) && created[job.claims[j].key] == ClaimAt(job.base, j);
  }

  lemma {:induction false} SameNamed(db: Db, investigation: Id, r: (Id, string), q: (Id, string), c: Id, d: Id)
    requires ClaimsDistinct(db.claims) && Names(db, investigation, r, c) && Names(db, investigation, q, d)
    ensures c == d <==> r == q
  {
    if r == q {
      assert SameClaim(db.claims[c], db.claims[d]);
    }
  }

  lemma {:induction false} CreatedNamed(job: Job, db: Db, created: map<string, Id>, k: nat, key: string)
    requires AtClaim(job, db, created, k) && key in created
    ensures Names(db, job.investigation, (job.analysis, key), created[key])
  {
    var j: nat :| j < k && job.claims[j].key == key;
    assert created[job.claims[j].key] == ClaimAt(job.base, j);
    NamesNow(job, db, k, (job.analysis, key), ClaimAt(job.base, j));
  }

  lemma {:induction false} DistinctParts(own: seq<Id>, found: seq<Id>)
    ensures Distinct(own + found) <==> Distinct(own) && Distinct(found) && forall g :: g in own ==> g !in found
  {
    var both, n := own + found, |own|;
    assert forall i :: 0 <= i < n ==> both[i] == own[i];
    assert forall i :: 0 <= i < |found| ==> both[n + i] == found[i];
    if Distinct(both) {
      forall x, y | 0 <= x < y < |found| ensures found[x] != found[y] {
        assert both[n + x] != both[n + y];
      }
      forall x, y | 0 <= x < n && 0 <= y < |found| ensures own[x] != found[y] {
        assert both[x] != both[n + y];
      }
    } else {
      var x, y :| 0 <= x < y < |both| && both[x] == both[y];
      if n <= x {
        assert found[x - n] == found[y - n];
      } else if n <= y {
        assert own[x] == found[y - n] && own[x] in own;
      } else {
        assert own[x] == own[y];
      }
    }
  }

  // ---------------------------------------------------------------------
  // One claim
  // ---------------------------------------------------------------------

  lemma {:induction false} ValidClaimIs(c: ClaimInput)
    ensures ValidClaim(c) <==>
      && !Blank(c.content)
      && (c.expectedOutcome.Some? ==> c.role == Decision && !Blank(c.expectedOutcome.value))
      && (c.hasEffect ==> c.role == Outcome)
      && (c.status == Proposed || (c.status == Active && c.role != Inference))
      && c.wellTyped
  {
    StripEmpty(c.content);
    if c.expectedOutcome.Some? {
      StripEmpty(c.expectedOutcome.value);
    }
  }

  lemma {:induction false} WritableNow(job: Job, db: Db, k: nat)
    requires job.Valid() && k <= |job.claims| && RecordedRows(job, db, k)
    ensures Writable(db, job.investigation, job.session) <==>
      && job.Inquiry().project in job.db.store.nextSeq
      && (job.Inquiry().scope.Some? ==> job.Inquiry().scope.value in job.db.store.scopes)
      && (job.session.Some? ==> job.session.value in job.db.store.sessions)
  {
  }

  /** Claim k passes the loop's checks exactly when it is acceptable. */
  lemma {:induction false} AcceptedNow(job: Job, db: Db, created: map<string, Id>, k: nat)
    requires AtClaim(job, db, created, k) && k < |job.claims|
    ensures AcceptedGrounds(db, job.investigation, job.session, created, job.claims[k]).Some? <==> job.Acceptable(k)
  {
    var c := job.claims[k];
    ValidClaimIs(c);
    GroundsFound(job, db, created, k);
    var grounds := Grounds(db, job.investigation, created, c);
    if grounds.Some? {
      GroundsDistinct(job, db, created, k, grounds.value);
      var own, found := GroundsParts(job, db, created, k, grounds.value);
    }
    WritableNow(job, db, k);
  }

  // ---------------------------------------------------------------------
  // The rows of one more claim
  // ---------------------------------------------------------------------

  /** One more claim's event, memory and source link, and three more identifiers. */
  ghost predicate OneMore(job: Job, s: Store, k: nat, t: Store)
    requires k < |job.claims| && job.investigation in job.db.cases
  {
    var p, c := job.Inquiry().project, job.claims[k];
    && p in s.nextSeq && t.nextSeq == s.nextSeq[p := s.nextSeq[p] + 1]
    && t.events == s.events[s.nextId := Event(p, s.nextSeq[p], Context(job.Inquiry().scope, job.session), Strip(c.content))]
    && t.memories == s.memories[s.nextId + 1 := Memory(p, c.status, job.Inquiry().scope, Strip(c.content))]
    && t.sources == s.sources[(s.nextId + 1, s.nextId) := "investigation claim"]
    && t.nextId == s.nextId + 3
    && t.scopes == s.scopes && t.sessions == s.sessions && t.edges == s.edges && t.receipts == s.receipts
  }

  /** All that inserting claim k does. */
  ghost predicate Inserted(job: Job, db: Db, k: nat, grounds: seq<Id>, t: Db)
    requires k < |job.claims| && job.investigation in job.db.cases
  {
    && OneMore(job, db.store, k, t.store)
    && t.claims == db.claims[db.store.nextId + 2 :=
         Claim(job.investigation, job.analysis, job.claims[k].key, job.claims[k].role, db.store.nextId, Some(db.store.nextId + 1))]
    && t.links == db.links + LinksTo(grounds, db.store.nextId + 2, job.Relation(k))
    && t.cases == db.cases && t.analyses == db.analyses
  }

  lemma {:induction false} ClaimInserted(job: Job, db: Db, k: nat, grounds: seq<Id>, t: Db)
    requires k < |job.claims| && job.investigation in job.db.cases && db.cases == job.db.cases
    requires Writable(db, job.investigation, job.session)
    requires t == WithClaim(db, job.investigation, job.analysis, job.session, job.claims[k], grounds)
    ensures Inserted(job, db, k, grounds, t)
  {
  }

  lemma {:induction false} StoreNext(job: Job, s: Store, k: nat, t: Store)
    requires job.Valid() && k < |job.claims| && StoreRecorded(job, s, k) && Issued(s) && OneMore(job, s, k, t)
    ensures StoreRecorded(job, t, k + 1)
  {
    var p, c := job.Inquiry().project, job.claims[k];
    EventsNext(job, s, k, t, Event(p, s.nextSeq[p], Context(job.Inquiry().scope, job.session), Strip(c.content)));
    MemoriesNext(job, s, k, t);
    SourcesNext(job.base, job.db.store.sources, s.sources, k, t.sources);
    CursorNext(job, s, k, t);
  }

  lemma {:induction false} CursorNext(job: Job, s: Store, k: nat, t: Store)
    requires job.Valid() && k < |job.claims| && StoreRecorded(job, s, k) && job.Inquiry().project in s.nextSeq
    requires t.nextSeq == s.nextSeq[job.Inquiry().project := s.nextSeq[job.Inquiry().project] + 1]
    ensures job.Inquiry().project in job.db.store.nextSeq
    ensures t.nextSeq == job.db.store.nextSeq[job.Inquiry().project := job.db.store.nextSeq[job.Inquiry().project] + (k + 1)]
  {
  }

  lemma {:induction false} MemoriesNext(job: Job, s: Store, k: nat, t: Store)
    requires job.Valid() && k < |job.claims| && StoreRecorded(job, s, k) && Issued(s)
    requires t.memories == s.memories[s.nextId + 1 := Memory(job.Inquiry().project, job.claims[k].status, job.Inquiry().scope, Strip(job.claims[k].content))]
    ensures Extends(job.db.store.memories, MemoryRows(job, k + 1), t.memories)
  {
    var row := Memory(job.Inquiry().project, job.claims[k].status, job.Inquiry().scope, Strip(job.claims[k].content));
    ExtendsOne(job.db.store.memories, MemoryRows(job, k), s.memories, MemoryAt(job.base, k), row, MemoryRows(job, k + 1));
  }

  lemma {:induction false} SourcesNext(base: Id, before: map<(Id, Id), string>, sources: map<(Id, Id), string>, k: nat, after: map<(Id, Id), string>)
    requires SourcesRecorded(base, before, sources, k)
    requires after == sources[(MemoryAt(base, k), EventAt(base, k)) := "investigation claim"]
    ensures SourcesRecorded(base, before, after, k + 1)
  {
    var link := (MemoryAt(base, k), EventAt(base, k));
    forall x ensures NewSource(base, x, k + 1) <==> NewSource(base, x, k) || x == link {
      NewSourceNext(base, x, k);
    }
  }

  lemma {:induction false} NewSourceNext(base: Id, x: (Id, Id), k: nat)
    ensures NewSource(base, x, k + 1) <==> NewSource(base, x, k) || x == (MemoryAt(base, k), EventAt(base, k))
  {
  }

  lemma {:induction false} EventsNext(job: Job, s: Store, k: nat, t: Store, event: Event)
    requires job.Valid() && k < |job.claims| && StoreRecorded(job, s, k) && Issued(s) && job.Inquiry().project in s.nextSeq
    requires event == Event(job.Inquiry().project, s.nextSeq[job.Inquiry().project], Context(job.Inquiry().scope, job.session), Strip(job.claims[k].content))
    requires t.events == s.events[s.nextId := event]
    ensures job.Inquiry().project in job.db.store.nextSeq && Extends(job.db.store.events, EventRows(job, k + 1), t.events)
  {
    ExtendsOne(job.db.store.events, EventRows(job, k), s.events, EventAt(job.base, k), event, EventRows(job, k + 1));
  }

  lemma {:induction false} SubmittedNext(job: Job, key: string, k: nat)
    requires k < |job.claims|
    ensures Submitted(job, key, k + 1) <==> Submitted(job, key, k) || key == job.claims[k].key
  {
  }

  lemma {:induction false} NamesNext(job: Job, created: map<string, Id>, k: nat, names: map<string, Id>)
    requires job.Valid() && k < |job.claims| && NamesGrown(job, created, k)
    requires names == created[job.claims[k].key := ClaimAt(job.base, k)]
    ensures NamesGrown(job, names, k + 1)
  {
    forall key ensures key in names <==> Submitted(job, key, k + 1) {
      SubmittedNext(job, key, k);
    }
  }

  lemma {:induction false} LinksNext(job: Job, links: set<Link>, k: nat, grounds: seq<Id>, after: set<Link>)
    requires k < |job.claims| && LinksGrown(job, links, k)
    requires forall g :: g in grounds <==> job.Ground(k, g)
    requires after == links + LinksTo(grounds, ClaimAt(job.base, k), job.Relation(k))
    ensures LinksGrown(job, after, k + 1)
  {
    forall l ensures l in after <==> l in job.db.links || NewLink(job, l, k + 1) {
      if NewLink(job, l, k) {
        var i: nat :| i < k && l.to == ClaimAt(job.base, i) && l.relation == job.Relation(i) && job.Ground(i, l.from);
      }
    }
  }

  lemma {:induction false} ClaimsNext(job: Job, before: map<Id, Claim>, k: nat, claims: map<Id, Claim>)
    requires k < |job.claims| && Extends(job.db.claims, ClaimRows(job, k), before) && ClaimAt(job.base, k) !in before
    requires claims == before[ClaimAt(job.base, k) :=
      Claim(job.investigation, job.analysis, job.claims[k].key, job.claims[k].role, EventAt(job.base, k), Some(MemoryAt(job.base, k)))]
    ensures Extends(job.db.claims, ClaimRows(job, k + 1), claims)
  {
    var row := Claim(job.investigation, job.analysis, job.claims[k].key, job.claims[k].role, EventAt(job.base, k), Some(MemoryAt(job.base, k)));
    ExtendsOne(job.db.claims, ClaimRows(job, k), before, ClaimAt(job.base, k), row, ClaimRows(job, k + 1));
  }

  lemma {:induction false} LinksRecorded(job: Job, db: Db, created: map<string, Id>, k: nat, grounds: seq<Id>)
    requires AtClaim(job, db, created, k) && k < |job.claims|
    requires Grounds(db, job.investigation, created, job.claims[k]) == Some(grounds)
    ensures LinksGrown(job, db.links + LinksTo(grounds, ClaimAt(job.base, k), job.Relation(k)), k + 1)
  {
    forall g ensures g in grounds <==> job.Ground(k, g) {
      GroundsAre(job, db, created, k, grounds, g);
    }
    LinksNext(job, db.links, k, grounds, db.links + LinksTo(grounds, ClaimAt(job.base, k), job.Relation(k)));
  }

  /** Adding claim k adds exactly its rows. */
  lemma {:induction false} TablesRecorded(job: Job, db: Db, k: nat, grounds: seq<Id>, t: Db)
    requires job.Valid() && k < |job.claims| && RecordedRows(job, db, k) && Issued(db.store) && ClaimAt(job.base, k) !in db.claims
    requires Inserted(job, db, k, grounds, t)
    ensures Extends(job.db.claims, ClaimRows(job, k + 1), t.claims) && StoreRecorded(job, t.store, k + 1)
  {
    ClaimsNext(job, db.claims, k, t.claims);
    StoreNext(job, db.store, k, t.store);
  }

  lemma {:induction false} OneRecorded(job: Job, db: Db, created: map<string, Id>, k: nat, grounds: seq<Id>, t: Db)
    requires AtClaim(job, db, created, k) && k < |job.claims|
    requires Grounds(db, job.investigation, created, job.claims[k]) == Some(grounds)
    requires Inserted(job, db, k, grounds, t)
    ensures RecordedRows(job, t, k + 1)
  {
    LinksRecorded(job, db, created, k, grounds);
    TablesRecorded(job, db, k, grounds, t);
  }

  // ---------------------------------------------------------------------
  // All claims
  // ---------------------------------------------------------------------

  ghost function AddRest(job: Job, db: Db, created: map<string, Id>, k: nat): Option<Db>
    requires k <= |job.claims|
  {
    AddClaims(db, job.investigation, job.analysis, job.session, created, job.claims[k..])
  }

  lemma {:induction false} AddRestNext(job: Job, db: Db, created: map<string, Id>, k: nat, next: Db, names: map<string, Id>)
    requires k < |job.claims|
    requires AddClaim(db, job.investigation, job.analysis, job.session, created, job.claims[k]) == Some((next, names))
    ensures AddRest(job, db, created, k) == AddRest(job, next, names, k + 1)
  {
    assert job.claims[k..][0] == job.claims[k] && job.claims[k..][1..] == job.claims[k + 1..];
  }

  lemma {:induction false} ClaimAdded(job: Job, db: Db, created: map<string, Id>, k: nat, next: Db, names: map<string, Id>)
    requires AtClaim(job, db, created, k) && k < |job.claims|
    requires AddClaim(db, job.investigation, job.analysis, job.session, created, job.claims[k]) == Some((next, names))
    ensures AtClaim(job, next, names, k + 1)
  {
    var grounds := AcceptedGrounds(db, job.investigation, job.session, created, job.claims[k]).value;
    ClaimInserted(job, db, k, grounds, next);
    OneRecorded(job, db, created, k, grounds, next);
    NamesNext(job, created, k, names);
    KeyIsNew(job, db, k);
    WithClaimConsistent(db, job.investigation, job.analysis, job.session, job.claims[k], grounds, next);
  }

  lemma {:induction false} KeyIsNew(job: Job, db: Db, k: nat)
    requires job.Valid() && k < |job.claims| && Extends(job.db.claims, ClaimRows(job, k), db.claims)
    ensures forall c :: c in db.claims && db.claims[c].analysis == job.analysis ==> db.claims[c].key != job.claims[k].key
  {
    var rows := ClaimRows(job, k);
    forall c | c in db.claims && db.claims[c].analysis == job.analysis ensures db.claims[c].key != job.claims[k].key {
      assert c !in job.db.claims;
      var j :| 0 <= j < |rows| && rows[j].0 == c;
      assert db.claims[rows[j].0] == rows[j].1;
    }
  }

  /** The loop gets through exactly when every claim left is acceptable, and then has added
      exactly the rows of all claims. */
  /** The same state, by the names of its parts. */
  datatype Part = RowsPart | NamesPart | TablesPart

  ghost predicate Obtains(job: Job, db: Db, created: map<string, Id>, k: nat, part: Part) {
    match part
    case RowsPart => job.Valid() && k <= |job.claims| && RecordedRows(job, db, k)
    case NamesPart => k <= |job.claims| && NamesGrown(job, created, k)
    case TablesPart => Consistent(db)
  }

  ghost predicate Reached(job: Job, db: Db, created: map<string, Id>, k: nat) {
    forall part :: Obtains(job, db, created, k, part)
  }

  lemma {:induction false} ReachedIs(job: Job, db: Db, created: map<string, Id>, k: nat)
    ensures Reached(job, db, created, k) <==> AtClaim(job, db, created, k)
  {
    if Reached(job, db, created, k) {
      assert Obtains(job, db, created, k, RowsPart) && Obtains(job, db, created, k, NamesPart) && Obtains(job, db, created, k, TablesPart);
    }
  }

  lemma {:induction false} NextClaim(job: Job, db: Db, created: map<string, Id>, k: nat) returns (next: Db, names: map<string, Id>)
    requires Reached(job, db, created, k) && job.investigation in job.db.cases && k < |job.claims|
    ensures !job.Acceptable(k) ==> AddRest(job, db, created, k).None?
    ensures job.Acceptable(k) ==> Reached(job, next, names, k + 1) && AddRest(job, db, created, k) == AddRest(job, next, names, k + 1)
  {
    ReachedIs(job, db, created, k);
    AcceptedNow(job, db, created, k);
    var added := AddClaim(db, job.investigation, job.analysis, job.session, created, job.claims[k]);
    if added.None? {
      assert job.claims[k..][0] == job.claims[k];
      return db, created;
    }
    next, names := added.value.0, added.value.1;
    AddRestNext(job, db, created, k, next, names);
    ClaimAdded(job, db, created, k, next, names);
    ReachedIs(job, next, names, k + 1);
  }

  ghost predicate AllAcceptable(job: Job, k: nat)
    requires job.investigation in job.db.cases
  {
    forall i :: k <= i < |job.claims| ==> job.Acceptable(i)
  }

  lemma {:induction false} AcceptableNext(job: Job, k: nat)
    requires job.investigation in job.db.cases && k < |job.claims|
    ensures AllAcceptable(job, k) <==> job.Acceptable(k) && AllAcceptable(job, k + 1)
  {
  }

  lemma {:induction false} AddRestExact(job: Job, db: Db, created: map<string, Id>, k: nat, done: Option<Db>) returns (names: map<string, Id>)
    requires Reached(job, db, created, k) && job.investigation in job.db.cases && k <= |job.claims|
    requires done == AddRest(job, db, created, k)
    ensures done.Some? <==> AllAcceptable(job, k)
    ensures done.Some? ==> Reached(job, done.value, names, |job.claims|)
    decreases |job.claims| - k
  {
    if k == |job.claims| {
      return created;
    }
    AcceptableNext(job, k);
    var next, more := NextClaim(job, db, created, k);
    if !job.Acceptable(k) {
      return created;
    }
    names := AddRestExact(job, next, more, k + 1, done);
  }

  // ---------------------------------------------------------------------
  // The whole call
  // ---------------------------------------------------------------------

  predicate Given(text: Option<string>) {
    text.Some? && !Blank(text.value)
  }

  predicate SourceComplete(source: Source) {
    && !Blank(source.sourceType) && !Blank(source.stableId) && !Blank(source.accessReason) && !Blank(source.method_)
    && (Given(source.version) || Given(source.fingerprint))
  }

  predicate KeysUsable(claims: seq<ClaimInput>) {
    && |claims| > 0
    && (forall i :: 0 <= i < |claims| ==> !Blank(claims[i].key))
    && (forall i, j :: 0 <= i < j < |claims| ==> claims[i].key != claims[j].key)
  }

  /** The trimmed type and identifier with the trimmed version, or with the marked
      fingerprint where no version is given. */
  predicate IdentityIs(source: Source, identity: (string, string, string)) {
    && identity.0 == Strip(source.sourceType) && identity.1 == Strip(source.stableId)
    && (Given(source.version) ==> identity.2 == Strip(source.version.value))
    && (!Given(source.version) && Given(source.fingerprint) ==> identity.2 == "fingerprint:" + Strip(source.fingerprint.value))
  }

  /** Recording into this database: the analysis takes the next identifier, the claims'
      rows the ones after it. */
  function JobFor(db: Db, investigation: Id, session: Option<Id>, identity: (string, string, string), claims: seq<ClaimInput>): Job {
    var analysis := db.store.nextId;
    Job(db.(analyses := db.analyses[analysis := Analysis(investigation, identity)], store := db.store.(nextId := analysis + 1)),
        investigation, analysis, session, claims, analysis + 1)
  }

  /** A first analysis of this source: recorded with all its claims if every one of them is
      acceptable, refused without a trace otherwise. */
  ghost predicate AnswersNew(db: Db, job: Job, t: Db, r: Result<Recorded, Failure>)
    requires job.investigation in job.db.cases
  {
    && (r.Ok? <==> AllAcceptable(job, 0))
    && (r.Err? ==> r == Err(BadClaims) && t == db)
    && (r.Ok? ==> r.value == Recorded(db.store.nextId, false) && RecordedRows(job, t, |job.claims|))
  }

  /** An analysis of this source is recorded for the investigation. */
  ghost predicate Analysed(db: Db, investigation: Id, identity: (string, string, string)) {
    exists a :: a in db.analyses && db.analyses[a] == Analysis(investigation, identity)
  }

  lemma {:induction false} PresentIs(text: Option<string>)
    ensures Present(text) <==> Given(text)
  {
    if text.Some? {
      StripEmpty(text.value);
    }
  }

  lemma {:induction false} SourceIs(source: Source)
    ensures ValidSource(source) <==> SourceComplete(source)
    ensures IdentityIs(source, Identity(source))
  {
    StripEmpty(source.sourceType);
    StripEmpty(source.stableId);
    StripEmpty(source.accessReason);
    StripEmpty(source.method_);
    PresentIs(source.version);
    PresentIs(source.fingerprint);
  }

  lemma {:induction false} KeysAre(claims: seq<ClaimInput>)
    ensures ValidKeys(claims) <==> KeysUsable(claims)
  {
    forall i | 0 <= i < |claims| ensures Strip(claims[i].key) == "" <==> Blank(claims[i].key) {
      StripEmpty(claims[i].key);
    }
  }

  lemma {:induction false} JobBegins(db: Db, investigation: Id, session: Option<Id>, identity: (string, string, string), claims: seq<ClaimInput>, job: Job)
    requires Consistent(db) && investigation in db.cases && KeysUsable(claims)
    requires forall a :: !AnalysedAs(db, investigation, identity, a)
    requires job == JobFor(db, investigation, session, identity, claims)
    ensures Reached(job, job.db, map[], 0)
  {
    WithAnalysisConsistent(db, investigation, identity, job.db);
    ReachedIs(job, job.db, map[], 0);
  }

  lemma {:induction false} ReachedRows(job: Job, t: Db, names: map<string, Id>)
    requires Reached(job, t, names, |job.claims|) && job.investigation in job.db.cases
    ensures RecordedRows(job, t, |job.claims|)
  {
    ReachedIs(job, t, names, |job.claims|);
  }

  lemma {:induction false} NewExact(db: Db, investigation: Id, session: Option<Id>, identity: (string, string, string), claims: seq<ClaimInput>,
    job: Job, t: Db, r: Result<Recorded, Failure>)
    requires Consistent(db) && investigation in db.cases && KeysUsable(claims)
    requires forall a :: !AnalysedAs(db, investigation, identity, a)
    requires job == JobFor(db, investigation, session, identity, claims)
    requires RecordNew(db, investigation, session, identity, claims) == (t, r)
    ensures AnswersNew(db, job, t, r)
  {
    JobBegins(db, investigation, session, identity, claims, job);
    var done := AddRest(job, job.db, map[], 0);
    assert claims[0..] == claims;
    var names := AddRestExact(job, job.db, map[], 0, done);
    if done.None? {
      return;
    }
    ReachedRows(job, t, names);
  }

  /** What answers without recording anything, and in which order. */
  lemma {:induction false} RecordingAnswers(db: Db, investigation: Id, session: Option<Id>, source: Source, claims: seq<ClaimInput>,
    t: Db, r: Result<Recorded, Failure>)
    requires RecordAnalysis(db, investigation, session, source, claims) == (t, r)
    ensures r.Err? || r.value.idempotent ==> t == db
    ensures r == Err(UnknownInvestigation) <==> investigation !in db.cases
    ensures r == Err(Completed) <==> investigation in db.cases && !db.cases[investigation].open
    ensures r == Err(BadSource) <==> investigation in db.cases && db.cases[investigation].open && !SourceComplete(source)
    ensures investigation in db.cases && db.cases[investigation].open && SourceComplete(source) && !KeysUsable(claims) ==> r == Err(BadClaims)
  {
    SourceIs(source);
    KeysAre(claims);
  }

  /** A recorded source is answered with its analysis, whatever the claims now say. */
  lemma {:induction false} RecordingReplays(db: Db, investigation: Id, session: Option<Id>, source: Source, claims: seq<ClaimInput>,
    identity: (string, string, string), t: Db, r: Result<Recorded, Failure>)
    requires IdentityIs(source, identity) && RecordAnalysis(db, investigation, session, source, claims) == (t, r)
    requires investigation in db.cases && db.cases[investigation].open && SourceComplete(source) && KeysUsable(claims)
    ensures (r.Ok? && r.value.idempotent) <==> Analysed(db, investigation, identity)
    ensures r.Ok? && r.value.idempotent ==>
      t == db && r.value.analysis in db.analyses && db.analyses[r.value.analysis] == Analysis(investigation, identity)
  {
    SourceIs(source);
    KeysAre(claims);
    assert identity == Identity(source);
    if Analysed(db, investigation, identity) {
      var a :| a in db.analyses && db.analyses[a] == Analysis(investigation, identity);
      assert AnalysedAs(db, investigation, identity, a);
    }
  }

  /** Every row a first analysis writes, and exactly when it writes them. */
  lemma {:induction false} RecordingExact(db: Db, investigation: Id, session: Option<Id>, source: Source, claims: seq<ClaimInput>,
    identity: (string, string, string), t: Db, r: Result<Recorded, Failure>)
    requires Consistent(db) && IdentityIs(source, identity)
    requires investigation in db.cases && db.cases[investigation].open && SourceComplete(source) && KeysUsable(claims)
    requires !Analysed(db, investigation, identity)
    requires RecordAnalysis(db, investigation, session, source, claims) == (t, r)
    ensures AnswersNew(db, JobFor(db, investigation, session, identity, claims), t, r)
  {
    SourceIs(source);
    KeysAre(claims);
    assert forall a :: !AnalysedAs(db, investigation, identity, a);
    NewExact(db, investigation, session, identity, claims, JobFor(db, investigation, session, identity, claims), t, r);
  }
}
