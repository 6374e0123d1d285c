/** Audit log, checkpoint compaction and export (`MaintenanceRepository`). */
module Maintenance {
  import opened Wrappers
  import opened AuditChain
  import V = BundleVerifier

  type Id = string

  /** The columns of a memory row that maintenance reads; `snapshot` is the
      canonical text its purge entry stores. */
  datatype Memory = Memory(projectId: Id, status: string, updatedAt: int, snapshot: string)

  /** A row of the policy table. Maintenance itself reads the two limits. */
  datatype Policy = Policy(
    contextChars: int, contextItems: int, auditKeepEntries: nat, terminalMemoryDays: nat,
    softUsage: real, hardUsage: real, elapsed: int, eventCount: int, maxAge: int, cooldown: int, hysteresis: real,
    interval: int, messageTtl: int)

  /** The values a caller of `set_policy` gives. */
  datatype Change = Change(
    contextChars: Option<int>, contextItems: Option<int>, auditKeepEntries: Option<int>, terminalMemoryDays: Option<int>,
    softUsage: Option<real>, hardUsage: Option<real>, elapsed: Option<int>, eventCount: Option<int>, maxAge: Option<int>,
    cooldown: Option<int>, hysteresis: Option<real>, interval: Option<int>, messageTtl: Option<int>)

  datatype Plan = Plan(terminalMemories: nat, auditEntries: nat, auditEntriesToCheckpoint: nat)

  datatype Outcome = Planned(plan: Plan) | Applied(plan: Plan, purged: nat, checkpointed: nat)

  datatype MaintainError = ProjectNotFound | PinnedMemory

  /** The tables one maintenance transaction rewrites. */
  datatype Tables = Tables(memories: map<Id, Memory>, log: seq<Row>, nextSeq: int, checkpoints: seq<Checkpoint>)

  const TERMINAL: set<string> := {"superseded", "rejected", "expired"}
  const SECONDS_PER_DAY: int := 86400

  // ---------------------------------------------------------------------
  // Rows and checkpoints of one project
  // ---------------------------------------------------------------------

  /** `SELECT ... WHERE project_id=? ORDER BY seq` on rows kept in seq order. */
  function Of(rows: seq<Row>, p: Id): seq<Row> {
    if rows == [] then []
    else if Last(rows).projectId == Some(p) then Of(rows[..|rows| - 1], p) + [Last(rows)]
    else Of(rows[..|rows| - 1], p)
  }

  function Last<T>(s: seq<T>): T
    requires s != []
  {
    s[|s| - 1]
  }

  function CheckpointsOf(cps: seq<Checkpoint>, p: Id): seq<Checkpoint> {
    if cps == [] then []
    else if Last(cps).projectId == p then CheckpointsOf(cps[..|cps| - 1], p) + [Last(cps)]
    else CheckpointsOf(cps[..|cps| - 1], p)
  }

  /** `SELECT digest ... ORDER BY through_seq DESC LIMIT 1`. */
  function LatestCheckpoint(cps: seq<Checkpoint>, p: Id): Option<Checkpoint> {
    if cps == [] then None
    else
      var rest, last := LatestCheckpoint(cps[..|cps| - 1], p), Last(cps);
      if last.projectId == p && (rest.None? || rest.value.throughSeq <= last.throughSeq) then Some(last) else rest
  }

  /** `DELETE FROM audit_log WHERE project_id=? AND seq<=?`. */
  function Delete(rows: seq<Row>, p: Id, through: int): seq<Row> {
    if rows == [] then []
    else if Last(rows).projectId == Some(p) && Last(rows).seqNo <= through then Delete(rows[..|rows| - 1], p, through)
    else Delete(rows[..|rows| - 1], p, through) + [Last(rows)]
  }

  ghost function Flatten(blocks: seq<seq<Row>>): seq<Row> {
    if blocks == [] then [] else Flatten(blocks[..|blocks| - 1]) + Last(blocks)
  }

  function SumCounts(cps: seq<Checkpoint>): int {
    if cps == [] then 0 else SumCounts(cps[..|cps| - 1]) + Last(cps).entryCount
  }

  predicate Increasing(rows: seq<Row>) {
    forall i, j :: 0 <= i < j < |rows| ==> rows[i].seqNo < rows[j].seqNo
  }

  // ---------------------------------------------------------------------
  // The invariant
  // ---------------------------------------------------------------------

  /** Checkpoint i records block i and is chained to the blocks before it. */
  ghost predicate Chained(hash: Hash, p: Id, cps: seq<Checkpoint>, blocks: seq<seq<Row>>) {
    && |cps| == |blocks|
    && NonEmptyBlocks(blocks)
    && forall i :: 0 <= i < |cps| ==> Records(hash, p, cps[i], blocks, i)
  }

  ghost predicate Records(hash: Hash, p: Id, cp: Checkpoint, blocks: seq<seq<Row>>, i: nat)
    requires i < |blocks| && blocks[i] != []
  {
    && cp.projectId == p
    && cp.fromSeq == blocks[i][0].seqNo
    && cp.throughSeq == Last(blocks[i]).seqNo
    && cp.entryCount == |blocks[i]|
    && cp.previousDigest == HeadDigest(hash, blocks[..i])
    && Some(cp.digest) == HeadDigest(hash, blocks[..i + 1])
  }

  /** Compacted blocks followed by the live rows are all rows ever appended. */
  ghost predicate ProjectSound(hash: Hash, p: Id, log: seq<Row>, cps: seq<Checkpoint>, appended: seq<Row>, blocks: seq<seq<Row>>) {
    && Chained(hash, p, CheckpointsOf(cps, p), blocks)
    && Flatten(blocks) + Of(log, p) == Of(appended, p)
    && Increasing(Of(appended, p))
  }

  ghost function BlocksOf(blocks: map<Id, seq<seq<Row>>>, p: Id): seq<seq<Row>> {
    if p in blocks then blocks[p] else []
  }

  ghost predicate Sound(hash: Hash, log: seq<Row>, nextSeq: int, cps: seq<Checkpoint>, appended: seq<Row>,
                        blocks: map<Id, seq<seq<Row>>>)
  {
    && (forall r :: r in appended ==> r.seqNo < nextSeq)
    && forall p :: ProjectSound(hash, p, log, cps, appended, BlocksOf(blocks, p))
  }

  // ---------------------------------------------------------------------
  // Appending a row
  // ---------------------------------------------------------------------

  lemma {:induction false} OfAppend(rows: seq<Row>, r: Row, p: Id)
    ensures Of(rows + [r], p) == if r.projectId == Some(p) then Of(rows, p) + [r] else Of(rows, p)
  {
    assert (rows + [r])[..|rows|] == rows;
  }

  lemma {:induction false} OfMembers(rows: seq<Row>, p: Id)
    ensures forall r :: r in Of(rows, p) ==> r in rows
  {
    if rows != [] {
      OfMembers(rows[..|rows| - 1], p);
    }
  }

  lemma {:induction false} AppendProject(hash: Hash, p: Id, log: seq<Row>, cps: seq<Checkpoint>, appended: seq<Row>,
                                         blocks: seq<seq<Row>>, r: Row)
    requires ProjectSound(hash, p, log, cps, appended, blocks)
    requires forall x :: x in appended ==> x.seqNo < r.seqNo
    ensures ProjectSound(hash, p, log + [r], cps, appended + [r], blocks)
  {
    OfAppend(log, r, p);
    OfAppend(appended, r, p);
    if r.projectId == Some(p) {
      OfMembers(appended, p);
      IncreasingSnoc(Of(appended, p), r);
      Regroup(Flatten(blocks), Of(log, p), r);
    }
  }

  lemma {:induction false} IncreasingSnoc(rows: seq<Row>, r: Row)
    requires Increasing(rows) && forall x :: x in rows ==> x.seqNo < r.seqNo
    ensures Increasing(rows + [r])
  {
    forall i, j | 0 <= i < j < |rows + [r]| ensures (rows + [r])[i].seqNo < (rows + [r])[j].seqNo {
      assert rows[i] in rows;
    }
  }

  lemma {:induction false} Regroup(a: seq<Row>, b: seq<Row>, r: Row)
    ensures a + (b + [r]) == (a + b) + [r]
  {
  }

  lemma {:induction false} AppendSound(hash: Hash, log: seq<Row>, nextSeq: int, cps: seq<Checkpoint>, appended: seq<Row>,
                    blocks: map<Id, seq<seq<Row>>>, r: Row)
    requires Sound(hash, log, nextSeq, cps, appended, blocks)
    requires r.seqNo == nextSeq
    ensures Sound(hash, log + [r], nextSeq + 1, cps, appended + [r], blocks)
  {
    forall p ensures ProjectSound(hash, p, log + [r], cps, appended + [r], BlocksOf(blocks, p)) {
      AppendProject(hash, p, log, cps, appended, BlocksOf(blocks, p), r);
    }
  }

  // ---------------------------------------------------------------------
  // Compacting a prefix
  // ---------------------------------------------------------------------

  lemma {:induction false} DeleteElsewhere(rows: seq<Row>, p: Id, q: Id, through: int)
    requires p != q
    ensures Of(Delete(rows, p, through), q) == Of(rows, q)
  {
    if rows != [] {
      var front, last := rows[..|rows| - 1], Last(rows);
      DeleteElsewhere(front, p, q, through);
      OfAppend(Delete(front, p, through), last, q);
    }
  }

  function After(rows: seq<Row>, through: int): seq<Row> {
    if rows == [] then []
    else if Last(rows).seqNo <= through then After(rows[..|rows| - 1], through)
    else After(rows[..|rows| - 1], through) + [Last(rows)]
  }

  lemma {:induction false} DeleteIsAfter(rows: seq<Row>, p: Id, through: int)
    ensures Of(Delete(rows, p, through), p) == After(Of(rows, p), through)
  {
    if rows != [] {
      var front, last := rows[..|rows| - 1], Last(rows);
      DeleteIsAfter(front, p, through);
      OfAppend(Delete(front, p, through), last, p);
      if last.projectId == Some(p) {
        assert Of(rows, p)[..|Of(rows, p)| - 1] == Of(front, p);
      } else {
        assert Of(rows, p) == Of(front, p);
      }
    }
  }

  /** On rows in seq order, deleting through row k - 1 drops exactly the first k rows. */
  lemma {:induction false} AfterDropsPrefix(rows: seq<Row>, k: nat)
    requires Increasing(rows)
    requires 0 < k <= |rows|
    ensures After(rows, rows[k - 1].seqNo) == rows[k..]
  {
    var front := rows[..|rows| - 1];
    if k == |rows| {
      AllDropped(front, rows[k - 1].seqNo);
    } else {
      AfterDropsPrefix(front, k);
      assert rows[k..] == front[k..] + [Last(rows)];
    }
  }

  lemma {:induction false} AllDropped(rows: seq<Row>, through: int)
    requires forall i :: 0 <= i < |rows| ==> rows[i].seqNo <= through
    ensures After(rows, through) == []
  {
    if rows != [] {
      AllDropped(rows[..|rows| - 1], through);
    }
  }

  lemma {:induction false} FlattenIndex(blocks: seq<seq<Row>>, i: nat)
    requires i < |blocks|
    ensures Flatten(blocks[..i + 1]) == Flatten(blocks[..i]) + blocks[i]
    ensures Flatten(blocks[..i + 1]) <= Flatten(blocks)
    decreases |blocks|
  {
    var front := blocks[..|blocks| - 1];
    if i == |blocks| - 1 {
      assert blocks[..i + 1] == blocks;
    } else {
      FlattenIndex(front, i);
      assert front[..i] == blocks[..i] && front[..i + 1] == blocks[..i + 1];
    }
  }

  lemma {:induction false} SliceIncreasing(before: seq<Row>, block: seq<Row>, all: seq<Row>)
    requires before + block <= all && Increasing(all)
    ensures Increasing(block)
    ensures before != [] && block != [] ==> Last(before).seqNo < block[0].seqNo
    ensures block != [] ==> Last(block).seqNo <= Last(all).seqNo
  {
    forall i | 0 <= i < |block| ensures block[i] == all[|before| + i] {
      assert block[i] == (before + block)[|before| + i];
    }
    if before != [] {
      assert Last(before) == (before + block)[|before| - 1] == all[|before| - 1];
    }
  }

  /** Consecutive blocks do not overlap and each is in seq order. */
  lemma {:induction false} BlocksOrdered(blocks: seq<seq<Row>>, i: nat)
    requires NonEmptyBlocks(blocks) && Increasing(Flatten(blocks))
    requires i < |blocks|
    ensures Increasing(blocks[i])
    ensures i > 0 ==> Last(blocks[i - 1]).seqNo < blocks[i][0].seqNo
    ensures Last(blocks[i]).seqNo <= Last(Flatten(blocks)).seqNo
  {
    FlattenIndex(blocks, i);
    SliceIncreasing(Flatten(blocks[..i]), blocks[i], Flatten(blocks));
    if i > 0 {
      FlattenIndex(blocks, i - 1);
      assert Last(Flatten(blocks[..i - 1]) + blocks[i - 1]) == Last(blocks[i - 1]);
    }
  }

  /** `ORDER BY through_seq DESC LIMIT 1` finds the newest block's checkpoint. */
  lemma {:induction false} LatestIsLast(hash: Hash, cps: seq<Checkpoint>, p: Id, blocks: seq<seq<Row>>)
    requires Chained(hash, p, CheckpointsOf(cps, p), blocks)
    requires Increasing(Flatten(blocks))
    ensures LatestCheckpoint(cps, p) == if blocks == [] then None else Some(Last(CheckpointsOf(cps, p)))
  {
    if cps != [] {
      var front, last, mine := cps[..|cps| - 1], Last(cps), CheckpointsOf(cps, p);
      if last.projectId != p {
        assert mine == CheckpointsOf(front, p);
        LatestIsLast(hash, front, p, blocks);
      } else {
        var blocks' := blocks[..|blocks| - 1];
        ChainPrefix(hash, p, mine, blocks);
        assert mine[..|mine| - 1] == CheckpointsOf(front, p);
        FrontIncreasing(blocks);
        LatestIsLast(hash, front, p, blocks');
        NewestEndsLast(hash, p, mine, blocks);
      }
    }
  }

  lemma {:induction false} FrontIncreasing(blocks: seq<seq<Row>>)
    requires blocks != [] && Increasing(Flatten(blocks))
    ensures Increasing(Flatten(blocks[..|blocks| - 1]))
  {
    var front := Flatten(blocks[..|blocks| - 1]);
    assert forall i :: 0 <= i < |front| ==> front[i] == Flatten(blocks)[i];
  }

  lemma {:induction false} NewestEndsLast(hash: Hash, p: Id, cps: seq<Checkpoint>, blocks: seq<seq<Row>>)
    requires Chained(hash, p, cps, blocks) && Increasing(Flatten(blocks))
    requires blocks != []
    ensures |cps| > 1 ==> cps[|cps| - 2].throughSeq <= Last(cps).throughSeq
  {
    if |cps| > 1 {
      RecordsAt(hash, p, cps, blocks, |cps| - 1);
      RecordsAt(hash, p, cps, blocks, |cps| - 2);
      BlocksOrdered(blocks, |cps| - 1);
    }
  }

  lemma {:induction false} RecordsAt(hash: Hash, p: Id, cps: seq<Checkpoint>, blocks: seq<seq<Row>>, i: nat)
    requires Chained(hash, p, cps, blocks) && i < |blocks|
    ensures Records(hash, p, cps[i], blocks, i)
    ensures cps[i].fromSeq == blocks[i][0].seqNo && cps[i].throughSeq == Last(blocks[i]).seqNo
  {
  }

  lemma {:induction false} ChainPrefix(hash: Hash, p: Id, cps: seq<Checkpoint>, blocks: seq<seq<Row>>)
    requires Chained(hash, p, cps, blocks) && blocks != []
    ensures Chained(hash, p, cps[..|cps| - 1], blocks[..|blocks| - 1])
  {
    var cps', blocks' := cps[..|cps| - 1], blocks[..|blocks| - 1];
    forall i | 0 <= i < |blocks'| ensures Records(hash, p, cps'[i], blocks', i) {
      assert Records(hash, p, cps[i], blocks, i);
      assert blocks'[..i] == blocks[..i] && blocks'[..i + 1] == blocks[..i + 1];
    }
  }

  lemma {:induction false} ChainExtend(hash: Hash, p: Id, cps: seq<Checkpoint>, blocks: seq<seq<Row>>, cp: Checkpoint, block: seq<Row>)
    requires Chained(hash, p, cps, blocks)
    requires block != []
    requires cp == Checkpoint(cp.id, p, block[0].seqNo, Last(block).seqNo, |block|, HeadDigest(hash, blocks),
                              hash(Payload(HeadDigest(hash, blocks), block)), cp.createdAt)
    ensures Chained(hash, p, cps + [cp], blocks + [block])
  {
    var blocks' := blocks + [block];
    forall i | 0 <= i < |blocks'| ensures Records(hash, p, (cps + [cp])[i], blocks', i) {
      if i < |blocks| {
        assert Records(hash, p, cps[i], blocks, i);
        assert blocks'[..i] == blocks[..i] && blocks'[..i + 1] == blocks[..i + 1];
      } else {
        assert blocks'[..i] == blocks && blocks'[..i + 1] == blocks';
        assert blocks'[..|blocks'| - 1] == blocks;
      }
    }
  }

  /** The checkpoint that compacts the first k live rows of p. */
  predicate Compacts(hash: Hash, p: Id, log: seq<Row>, cps: seq<Checkpoint>, k: nat, cp: Checkpoint)
    requires 0 < k <= |Of(log, p)|
  {
    var latest := LatestCheckpoint(cps, p);
    var previous := if latest.Some? then Some(latest.value.digest) else None;
    BuildCheckpoint(hash, p, Of(log, p)[..k], previous, cp.id, cp.createdAt) == Ok(cp)
  }

  lemma {:induction false} PreviousDigestIsHead(hash: Hash, p: Id, cps: seq<Checkpoint>, blocks: seq<seq<Row>>)
    requires Chained(hash, p, CheckpointsOf(cps, p), blocks)
    requires Increasing(Flatten(blocks))
    ensures HeadDigest(hash, blocks)
      == var latest := LatestCheckpoint(cps, p); if latest.Some? then Some(latest.value.digest) else None
  {
    LatestIsLast(hash, cps, p, blocks);
    if blocks != [] {
      RecordsAt(hash, p, CheckpointsOf(cps, p), blocks, |blocks| - 1);
      assert blocks[..|blocks|] == blocks;
    }
  }

  /** Moving a prefix of the live rows into a new block changes nothing in total. */
  lemma {:induction false} MoveBlock(blocks: seq<seq<Row>>, live: seq<Row>, k: nat)
    requires k <= |live|
    ensures Flatten(blocks + [live[..k]]) + live[k..] == Flatten(blocks) + live
  {
    assert (blocks + [live[..k]])[..|blocks|] == blocks;
    assert live == live[..k] + live[k..];
  }

  lemma {:induction false} CompactProject(hash: Hash, p: Id, log: seq<Row>, cps: seq<Checkpoint>, appended: seq<Row>,
                                          blocks: seq<seq<Row>>, k: nat, cp: Checkpoint)
    requires ProjectSound(hash, p, log, cps, appended, blocks)
    requires 0 < k <= |Of(log, p)|
    requires Compacts(hash, p, log, cps, k, cp)
    ensures var log' := Delete(log, p, Of(log, p)[k - 1].seqNo);
      && ProjectSound(hash, p, log', cps + [cp], appended, blocks + [Of(log, p)[..k]])
      && Of(log', p) == Of(log, p)[k..]
  {
    var live := Of(log, p);
    FlattenThenLive(blocks, live, Of(appended, p));
    DeleteIsAfter(log, p, live[k - 1].seqNo);
    AfterDropsPrefix(live, k);
    PreviousDigestIsHead(hash, p, cps, blocks);
    ChainExtend(hash, p, CheckpointsOf(cps, p), blocks, cp, live[..k]);
    MoveBlock(blocks, live, k);
  }

  /** What compaction does to the tables keeps the invariant. */
  lemma {:induction false} CompactSound(hash: Hash, p: Id, log: seq<Row>, nextSeq: int, cps: seq<Checkpoint>,
                                        appended: seq<Row>, blocks: map<Id, seq<seq<Row>>>, k: nat, cp: Checkpoint)
    requires Sound(hash, log, nextSeq, cps, appended, blocks)
    requires 0 < k <= |Of(log, p)|
    requires Compacts(hash, p, log, cps, k, cp)
    ensures var log' := Delete(log, p, Of(log, p)[k - 1].seqNo);
      && Sound(hash, log', nextSeq, cps + [cp], appended, blocks[p := BlocksOf(blocks, p) + [Of(log, p)[..k]]])
      && Of(log', p) == Of(log, p)[k..]
  {
    var through := Of(log, p)[k - 1].seqNo;
    var log', blocks' := Delete(log, p, through), blocks[p := BlocksOf(blocks, p) + [Of(log, p)[..k]]];
    CompactProject(hash, p, log, cps, appended, BlocksOf(blocks, p), k, cp);
    forall q ensures ProjectSound(hash, q, log', cps + [cp], appended, BlocksOf(blocks', q)) {
      if q != p {
        assert ProjectSound(hash, q, log, cps, appended, BlocksOf(blocks, q));
        DeleteElsewhere(log, p, q, through);
      }
    }
  }

  lemma {:induction false} FlattenThenLive(blocks: seq<seq<Row>>, live: seq<Row>, all: seq<Row>)
    requires Flatten(blocks) + live == all
    requires Increasing(all)
    ensures Increasing(live) && Increasing(Flatten(blocks))
  {
    var n := |Flatten(blocks)|;
    assert forall i :: 0 <= i < |live| ==> live[i] == all[n + i];
    assert forall i :: 0 <= i < n ==> Flatten(blocks)[i] == all[i];
  }

  // ---------------------------------------------------------------------
  // What the invariant gives: conservation and an accepted export
  // ---------------------------------------------------------------------

  lemma {:induction false} CountsAreLengths(hash: Hash, p: Id, cps: seq<Checkpoint>, blocks: seq<seq<Row>>)
    requires Chained(hash, p, cps, blocks)
    ensures SumCounts(cps) == |Flatten(blocks)|
  {
    if cps != [] {
      ChainPrefix(hash, p, cps, blocks);
      CountsAreLengths(hash, p, cps[..|cps| - 1], blocks[..|blocks| - 1]);
      RecordsAt(hash, p, cps, blocks, |blocks| - 1);
    }
  }

  /** No audit entry is lost or counted twice by compaction. */
  lemma {:induction false} EntriesConserved(hash: Hash, log: seq<Row>, nextSeq: int, cps: seq<Checkpoint>, appended: seq<Row>,
                         blocks: map<Id, seq<seq<Row>>>, p: Id)
    requires Sound(hash, log, nextSeq, cps, appended, blocks)
    ensures SumCounts(CheckpointsOf(cps, p)) + |Of(log, p)| == |Of(appended, p)|
  {
    assert ProjectSound(hash, p, log, cps, appended, BlocksOf(blocks, p));
    CountsAreLengths(hash, p, CheckpointsOf(cps, p), BlocksOf(blocks, p));
  }

  function OptionText(o: Option<string>): V.Value {
    match o case None => V.Null case Some(s) => V.Str(s)
  }

  function CheckpointValue(cp: Checkpoint): V.Value {
    V.Obj(map["id" := V.Str(cp.id), "project_id" := V.Str(cp.projectId), "from_seq" := V.Int(cp.fromSeq),
              "through_seq" := V.Int(cp.throughSeq), "entry_count" := V.Int(cp.entryCount),
              "previous_digest" := OptionText(cp.previousDigest), "digest" := V.Str(cp.digest),
              "created_at" := V.Str(cp.createdAt)])
  }

  function EntryValue(row: Row): V.Value {
    V.Obj(map["seq" := V.Int(row.seqNo), "project_id" := OptionText(row.projectId),
              "entity_type" := V.Str(row.entityType), "entity_id" := V.Str(row.entityId),
              "action" := V.Str(row.action), "snapshot_json" := V.Str(row.snapshotJson),
              "created_at" := V.Str(row.createdAt)])
  }

  function CheckpointValues(cps: seq<Checkpoint>): (values: seq<V.Value>)
    ensures |values| == |cps| && forall k :: 0 <= k < |cps| ==> values[k] == CheckpointValue(cps[k])
  {
    seq(|cps|, i requires 0 <= i < |cps| => CheckpointValue(cps[i]))
  }

  function EntryValues(rows: seq<Row>): (values: seq<V.Value>)
    ensures |values| == |rows| && forall k :: 0 <= k < |rows| ==> values[k] == EntryValue(rows[k])
  {
    seq(|rows|, i requires 0 <= i < |rows| => EntryValue(rows[i]))
  }

  /** `serialize_audit_chain`. */
  function Serialize(p: Id, cps: seq<Checkpoint>, entries: seq<Row>): V.Fields {
    map["format" := V.Str(V.FORMAT), "version" := V.Int(V.VERSION), "project_id" := V.Str(p),
        "checkpoints" := V.Arr(CheckpointValues(cps)),
        "audit_entries" := V.Arr(EntryValues(entries)),
        "head_digest" := if cps == [] then V.Null else V.Str(Last(cps).digest)]
  }

  lemma {:induction false} SerializedFields(p: Id, cps: seq<Checkpoint>, rows: seq<Row>, bundle: V.Fields)
    requires bundle == Serialize(p, cps, rows)
    ensures V.Get(bundle, "format") == V.Str(V.FORMAT) && V.Get(bundle, "version") == V.Int(V.VERSION)
    ensures V.Get(bundle, "project_id") == V.Str(p)
    ensures V.Get(bundle, "checkpoints") == V.Arr(CheckpointValues(cps)) && V.Get(bundle, "audit_entries") == V.Arr(EntryValues(rows))
    ensures V.Get(bundle, "head_digest") == if cps == [] then V.Null else V.Str(Last(cps).digest)
  {
  }

  ghost predicate GoodEntriesAll(p: Id, rows: seq<Row>, end: V.Value) {
    forall i :: 0 <= i < |rows| ==> V.GoodEntry(EntryValues(rows), i, V.Str(p), end)
  }

  ghost predicate GoodCheckpointsAll(p: Id, cps: seq<Checkpoint>) {
    forall i :: 0 <= i < |cps| ==> V.GoodCheckpoint(CheckpointValues(cps), i, V.Str(p))
  }

  lemma {:induction false} ChainEnd(hash: Hash, p: Id, cps: seq<Checkpoint>, blocks: seq<seq<Row>>)
    requires Chained(hash, p, cps, blocks)
    ensures V.ThroughBefore(CheckpointValues(cps), |cps|) == if cps == [] then V.Null else V.Int(Last(cps).throughSeq)
    ensures V.DigestBefore(CheckpointValues(cps), |cps|) == if cps == [] then V.Null else V.Str(Last(cps).digest)
    ensures cps != [] ==> HeadDigest(hash, blocks) == Some(Last(cps).digest) && Last(cps).throughSeq == Last(Last(blocks)).seqNo
  {
    if cps != [] {
      HeadOfExport(hash, p, cps, blocks, CheckpointValues(cps));
      RecordsAt(hash, p, cps, blocks, |cps| - 1);
      assert blocks[..|cps|] == blocks;
    }
  }

  /** What the verifier asks of an export whose head is as expected. */
  lemma {:induction false} SerializedChain(hash: Hash, p: Id, cps: seq<Checkpoint>, blocks: seq<seq<Row>>, rows: seq<Row>,
                                           expected: Option<string>)
    requires p != "" && Chained(hash, p, cps, blocks) && (expected.None? || expected == HeadDigest(hash, blocks))
    ensures V.WellFormedChain(Serialize(p, cps, rows), expected) <==>
      GoodCheckpointsAll(p, cps) && GoodEntriesAll(p, rows, V.ThroughBefore(CheckpointValues(cps), |cps|))
  {
    var bundle := Serialize(p, cps, rows);
    SerializedFields(p, cps, rows, bundle);
    ChainEnd(hash, p, cps, blocks);
    EmptyHead(hash, p, cps, blocks);
    ChainForm(p, cps, rows, bundle, expected);
  }

  lemma {:induction false} EmptyHead(hash: Hash, p: Id, cps: seq<Checkpoint>, blocks: seq<seq<Row>>)
    requires Chained(hash, p, cps, blocks)
    ensures cps == [] ==> HeadDigest(hash, blocks) == None
  {
  }

  lemma {:induction false} ChainForm(p: Id, cps: seq<Checkpoint>, rows: seq<Row>, bundle: V.Fields, expected: Option<string>)
    requires p != "" && V.Get(bundle, "format") == V.Str(V.FORMAT) && V.Get(bundle, "version") == V.Int(V.VERSION)
    requires V.Get(bundle, "project_id") == V.Str(p)
    requires V.Get(bundle, "checkpoints") == V.Arr(CheckpointValues(cps)) && V.Get(bundle, "audit_entries") == V.Arr(EntryValues(rows))
    requires V.Get(bundle, "head_digest") == V.DigestBefore(CheckpointValues(cps), |cps|)
    requires expected.Some? ==> V.DigestBefore(CheckpointValues(cps), |cps|) == V.Str(expected.value)
    ensures V.WellFormedChain(bundle, expected) <==>
      GoodCheckpointsAll(p, cps) && GoodEntriesAll(p, rows, V.ThroughBefore(CheckpointValues(cps), |cps|))
  {
  }

  lemma {:induction false} OfProject(rows: seq<Row>, p: Id)
    ensures forall r :: r in Of(rows, p) ==> r.projectId == Some(p)
  {
    if rows != [] {
      OfProject(rows[..|rows| - 1], p);
    }
  }

  lemma {:induction false} BlockRange(rows: seq<Row>)
    requires rows != [] && Increasing(rows)
    ensures |rows| <= Last(rows).seqNo - rows[0].seqNo + 1
    decreases |rows|
  {
    if |rows| > 1 {
      BlockRange(rows[..|rows| - 1]);
    }
  }

  lemma {:induction false} GoodCheckpoints(hash: Hash, p: Id, cps: seq<Checkpoint>, blocks: seq<seq<Row>>, values: seq<V.Value>, i: nat)
    requires WritesDigests(hash)
    requires Chained(hash, p, cps, blocks) && Increasing(Flatten(blocks))
    requires |values| == |cps| && forall k :: 0 <= k < |cps| ==> values[k] == CheckpointValue(cps[k])
    requires i < |cps|
    ensures V.GoodCheckpoint(values, i, V.Str(p))
  {
    RecordsAt(hash, p, cps, blocks, i);
    BlocksOrdered(blocks, i);
    BlockRange(blocks[i]);
    if i > 0 {
      RecordsAt(hash, p, cps, blocks, i - 1);
      assert values[i - 1] == CheckpointValue(cps[i - 1]);
    }
  }

  lemma {:induction false} GoodEntries(p: Id, rows: seq<Row>, values: seq<V.Value>, end: V.Value, i: nat)
    requires Increasing(rows) && forall r :: r in rows ==> r.projectId == Some(p)
    requires |values| == |rows| && forall k :: 0 <= k < |rows| ==> values[k] == EntryValue(rows[k])
    requires end.Null? || (end.Int? && (rows == [] || end.n < rows[0].seqNo))
    requires i < |rows|
    ensures V.GoodEntry(values, i, V.Str(p), end)
  {
    assert rows[i] in rows;
    if i > 0 {
      assert values[i - 1] == EntryValue(rows[i - 1]);
    }
  }

  lemma {:induction false} AllCheckpointsGood(hash: Hash, p: Id, cps: seq<Checkpoint>, blocks: seq<seq<Row>>)
    requires WritesDigests(hash) && Chained(hash, p, cps, blocks) && Increasing(Flatten(blocks))
    ensures GoodCheckpointsAll(p, cps)
  {
    forall i | 0 <= i < |cps| ensures V.GoodCheckpoint(CheckpointValues(cps), i, V.Str(p)) {
      GoodCheckpoints(hash, p, cps, blocks, CheckpointValues(cps), i);
    }
  }

  lemma {:induction false} AllEntriesGood(p: Id, rows: seq<Row>, end: V.Value)
    requires Increasing(rows) && forall r :: r in rows ==> r.projectId == Some(p)
    requires end.Null? || (end.Int? && (rows == [] || end.n < rows[0].seqNo))
    ensures GoodEntriesAll(p, rows, end)
  {
    forall i | 0 <= i < |rows| ensures V.GoodEntry(EntryValues(rows), i, V.Str(p), end) {
      GoodEntries(p, rows, EntryValues(rows), end, i);
    }
  }

  /** Every reachable export passes the offline verifier, anchored at its own head or not. */
  lemma {:induction false} ExportAccepted(hash: Hash, log: seq<Row>, nextSeq: int, cps: seq<Checkpoint>, appended: seq<Row>,
                       blocks: map<Id, seq<seq<Row>>>, p: Id, expected: Option<string>)
    requires WritesDigests(hash)
    requires Sound(hash, log, nextSeq, cps, appended, blocks)
    requires p != ""
    requires expected.None? || expected == HeadDigest(hash, BlocksOf(blocks, p))
    ensures V.WellFormedChain(Serialize(p, CheckpointsOf(cps, p), Of(log, p)), expected)
  {
    assert ProjectSound(hash, p, log, cps, appended, BlocksOf(blocks, p));
    OfProject(log, p);
    ChainAccepted(hash, p, CheckpointsOf(cps, p), BlocksOf(blocks, p), Of(log, p), Of(appended, p), expected);
  }

  lemma {:induction false} ChainAccepted(hash: Hash, p: Id, cps: seq<Checkpoint>, blocks: seq<seq<Row>>, live: seq<Row>, all: seq<Row>,
                      expected: Option<string>)
    requires WritesDigests(hash) && p != ""
    requires Chained(hash, p, cps, blocks)
    requires Flatten(blocks) + live == all && Increasing(all)
    requires forall r :: r in live ==> r.projectId == Some(p)
    requires expected.None? || expected == HeadDigest(hash, blocks)
    ensures V.WellFormedChain(Serialize(p, cps, live), expected)
  {
    FlattenThenLive(blocks, live, all);
    AllCheckpointsGood(hash, p, cps, blocks);
    ChainEnd(hash, p, cps, blocks);
    if cps != [] && live != [] {
      EndBeforeLive(blocks, live, all);
    }
    AllEntriesGood(p, live, V.ThroughBefore(CheckpointValues(cps), |cps|));
    SerializedChain(hash, p, cps, blocks, live, expected);
  }

  lemma {:induction false} HeadOfExport(hash: Hash, p: Id, cps: seq<Checkpoint>, blocks: seq<seq<Row>>, values: seq<V.Value>)
    requires Chained(hash, p, cps, blocks) && cps != []
    requires |values| == |cps| && forall k :: 0 <= k < |cps| ==> values[k] == CheckpointValue(cps[k])
    ensures V.DigestBefore(values, |values|) == OptionText(HeadDigest(hash, blocks)) == V.Str(Last(cps).digest)
    ensures V.ThroughBefore(values, |values|) == V.Int(Last(Last(blocks)).seqNo)
  {
    var n := |cps| - 1;
    RecordsAt(hash, p, cps, blocks, n);
    assert values[n] == CheckpointValue(cps[n]);
    assert blocks[..n + 1] == blocks;
  }

  lemma {:induction false} EndBeforeLive(blocks: seq<seq<Row>>, live: seq<Row>, all: seq<Row>)
    requires NonEmptyBlocks(blocks) && blocks != [] && live != []
    requires Flatten(blocks) + live == all && Increasing(all)
    ensures Last(Last(blocks)).seqNo < live[0].seqNo
  {
    var n := |Flatten(blocks)|;
    assert all[n - 1] == Last(Last(blocks)) && all[n] == live[0];
  }

  // ---------------------------------------------------------------------
  // An imported chain
  // ---------------------------------------------------------------------

  /** An import keeps checkpoints as they are, but the audit table numbers the rows anew. */
  function Renumbered(rows: seq<Row>, next: int): (renumbered: seq<Row>)
    ensures |renumbered| == |rows| && Increasing(renumbered)
    ensures forall i :: 0 <= i < |rows| ==> renumbered[i] == rows[i].(seqNo := next + i)
  {
    seq(|rows|, i requires 0 <= i < |rows| => rows[i].(seqNo := next + i))
  }

  /** The chain and the live rows of one project, as an export lists them; `history` is what
      the checkpoints digest. */
  ghost predicate Exported(hash: Hash, p: Id, cps: seq<Checkpoint>, history: seq<seq<Row>>, live: seq<Row>) {
    && Chained(hash, p, cps, history)
    && Increasing(Flatten(history) + live)
    && forall r :: r in Flatten(history) + live ==> r.projectId == Some(p)
  }

  /** The numbers the table is about to give lie above what the checkpoints cover. */
  predicate Above(cps: seq<Checkpoint>, next: int) {
    cps == [] || Last(cps).throughSeq < next
  }

  /** An imported project's audit export passes the offline verifier if and only if it has no
      checkpoint, no live row, or rows numbered above its last checkpoint. */
  lemma {:induction false} ImportedChainIff(hash: Hash, p: Id, cps: seq<Checkpoint>, history: seq<seq<Row>>, live: seq<Row>, next: int)
    requires WritesDigests(hash) && p != "" && Exported(hash, p, cps, history, live)
    ensures V.WellFormedChain(Serialize(p, cps, Renumbered(live, next)), None) <==> live == [] || Above(cps, next)
  {
    if live == [] || Above(cps, next) {
      ImportedAccepted(hash, p, cps, history, live, next);
    } else {
      ImportedRejected(hash, p, cps, history, live, next);
    }
  }

  lemma {:induction false} ImportedAccepted(hash: Hash, p: Id, cps: seq<Checkpoint>, history: seq<seq<Row>>, live: seq<Row>, next: int)
    requires WritesDigests(hash) && p != "" && Exported(hash, p, cps, history, live) && (live == [] || Above(cps, next))
    ensures V.WellFormedChain(Serialize(p, cps, Renumbered(live, next)), None)
  {
    var rows, end := Renumbered(live, next), V.ThroughBefore(CheckpointValues(cps), |cps|);
    FlattenThenLive(history, live, Flatten(history) + live);
    AllCheckpointsGood(hash, p, cps, history);
    ChainEnd(hash, p, cps, history);
    RenumberedOwn(p, live, next);
    AllEntriesGood(p, rows, end);
    SerializedChain(hash, p, cps, history, rows, None);
  }

  lemma {:induction false} RenumberedOwn(p: Id, rows: seq<Row>, next: int)
    requires forall i :: 0 <= i < |rows| ==> rows[i].projectId == Some(p)
    ensures forall r :: r in Renumbered(rows, next) ==> r.projectId == Some(p)
  {
  }

  lemma {:induction false} ImportedRejected(hash: Hash, p: Id, cps: seq<Checkpoint>, history: seq<seq<Row>>, live: seq<Row>, next: int)
    requires p != "" && Exported(hash, p, cps, history, live) && live != [] && !Above(cps, next)
    ensures !V.WellFormedChain(Serialize(p, cps, Renumbered(live, next)), None)
  {
    var rows, end := Renumbered(live, next), V.ThroughBefore(CheckpointValues(cps), |cps|);
    ChainEnd(hash, p, cps, history);
    assert EntryValues(rows)[0] == EntryValue(rows[0]);
    assert !V.GoodEntry(EntryValues(rows), 0, V.Str(p), end);
    SerializedChain(hash, p, cps, history, rows, None);
  }

  /** So a compacted project with live rows never verifies after an import into an empty
      database, whose first audit row has the number 1. */
  lemma {:induction false} EmptyDatabaseBreaksChain(hash: Hash, p: Id, cps: seq<Checkpoint>, history: seq<seq<Row>>, live: seq<Row>)
    requires WritesDigests(hash) && p != "" && Exported(hash, p, cps, history, live) && cps != [] && live != []
    requires forall r :: r in Flatten(history) ==> r.seqNo >= 1
    ensures !V.WellFormedChain(Serialize(p, cps, Renumbered(live, 1)), None)
  {
    var n := |cps| - 1;
    RecordsAt(hash, p, cps, history, n);
    FlattenIndex(history, n);
    assert history[..n + 1] == history;
    var block := history[n];
    assert Flatten(history)[|Flatten(history)| - 1] == Last(block);
    ImportedChainIff(hash, p, cps, history, live, 1);
  }

  /** Rows of project p appended to a table. */
  lemma {:induction false} AppendedOwn(rows: seq<Row>, more: seq<Row>, p: Id, q: Id)
    requires forall r :: r in more ==> r.projectId == Some(p)
    ensures q != p ==> Of(rows + more, q) == Of(rows, q)
    ensures Of(rows + more, p) == Of(rows, p) + more
  {
    OfConcat(rows, more, q);
    OfConcat(rows, more, p);
    OfOwn(more, p, q);
    OfOwn(more, p, p);
  }

  lemma {:induction false} AppendedCheckpoints(cps: seq<Checkpoint>, more: seq<Checkpoint>, p: Id, q: Id)
    requires forall i :: 0 <= i < |more| ==> more[i].projectId == p
    ensures q != p ==> CheckpointsOf(cps + more, q) == CheckpointsOf(cps, q)
    ensures CheckpointsOf(cps + more, p) == CheckpointsOf(cps, p) + more
  {
    CheckpointsConcat(cps, more, q);
    CheckpointsConcat(cps, more, p);
    CheckpointsOwn(more, p, q);
    CheckpointsOwn(more, p, p);
  }

  /** What a project sees of its tables is all its soundness depends on. */
  lemma {:induction false} SameView(hash: Hash, q: Id, log: seq<Row>, cps: seq<Checkpoint>, appended: seq<Row>, blocks: seq<seq<Row>>,
                                    newLog: seq<Row>, newCps: seq<Checkpoint>, all: seq<Row>)
    requires ProjectSound(hash, q, log, cps, appended, blocks)
    requires Of(newLog, q) == Of(log, q) && CheckpointsOf(newCps, q) == CheckpointsOf(cps, q) && Of(all, q) == Of(appended, q)
    ensures ProjectSound(hash, q, newLog, newCps, all, blocks)
  {
  }

  lemma {:induction false} ImportedElsewhere(hash: Hash, log: seq<Row>, cps: seq<Checkpoint>, appended: seq<Row>, blocks: seq<seq<Row>>,
                                             p: Id, moved: seq<Checkpoint>, history: seq<Row>, rows: seq<Row>, q: Id)
    requires ProjectSound(hash, q, log, cps, appended, blocks) && q != p
    requires forall i :: 0 <= i < |moved| ==> moved[i].projectId == p
    requires (forall r :: r in history ==> r.projectId == Some(p)) && forall r :: r in rows ==> r.projectId == Some(p)
    ensures ProjectSound(hash, q, log + rows, cps + moved, appended + history + rows, blocks)
  {
    AppendedOwn(log, rows, p, q);
    AppendedOwn(appended, history, p, q);
    AppendedOwn(appended + history, rows, p, q);
    AppendedCheckpoints(cps, moved, p, q);
    SameView(hash, q, log, cps, appended, blocks, log + rows, cps + moved, appended + history + rows);
  }

  lemma {:induction false} OfEmpty(rows: seq<Row>, more: seq<Row>, p: Id)
    requires Of(rows, p) == [] && forall r :: r in more ==> r.projectId == Some(p)
    ensures Of(rows + more, p) == more
  {
    AppendedOwn(rows, more, p, p);
    assert [] + more == more;
  }

  lemma {:induction false} CheckpointsEmpty(cps: seq<Checkpoint>, more: seq<Checkpoint>, p: Id)
    requires CheckpointsOf(cps, p) == [] && forall i :: 0 <= i < |more| ==> more[i].projectId == p
    ensures CheckpointsOf(cps + more, p) == more
  {
    AppendedCheckpoints(cps, more, p, p);
    assert [] + more == more;
  }

  lemma {:induction false} ImportedHere(hash: Hash, log: seq<Row>, cps: seq<Checkpoint>, appended: seq<Row>, p: Id,
                                        moved: seq<Checkpoint>, history: seq<seq<Row>>, rows: seq<Row>)
    requires Of(log, p) == [] && Of(appended, p) == [] && CheckpointsOf(cps, p) == []
    requires Chained(hash, p, moved, history) && Increasing(Flatten(history) + rows)
    requires (forall r :: r in Flatten(history) ==> r.projectId == Some(p)) && forall r :: r in rows ==> r.projectId == Some(p)
    ensures ProjectSound(hash, p, log + rows, cps + moved, appended + Flatten(history) + rows, history)
  {
    ChainOwn(hash, p, moved, history);
    OfEmpty(log, rows, p);
    OfEmpty(appended, Flatten(history), p);
    AppendedOwn(appended + Flatten(history), rows, p, p);
    CheckpointsEmpty(cps, moved, p);
  }

  lemma {:induction false} ImportedReady(hash: Hash, p: Id, moved: seq<Checkpoint>, history: seq<seq<Row>>, live: seq<Row>, next: int)
    requires Exported(hash, p, moved, history, live) && Above(moved, next)
    ensures Increasing(Flatten(history) + Renumbered(live, next))
    ensures forall r :: r in Flatten(history) ==> r.projectId == Some(p) && r.seqNo < next
    ensures forall r :: r in Renumbered(live, next) ==> r.projectId == Some(p)
    ensures forall i :: 0 <= i < |moved| ==> moved[i].projectId == p
  {
    RenumberedOwn(p, live, next);
    HistoryBelow(hash, p, moved, history, live, next);
    HistoryThenRows(Flatten(history), Renumbered(live, next));
    ChainOwn(hash, p, moved, history);
  }

  lemma {:induction false} ImportedBelow(appended: seq<Row>, history: seq<Row>, live: seq<Row>, next: int, all: seq<Row>)
    requires all == appended + history + Renumbered(live, next)
    requires (forall r :: r in appended ==> r.seqNo < next) && forall r :: r in history ==> r.seqNo < next
    ensures forall r :: r in all ==> r.seqNo < next + |live|
  {
  }

  /** Where the numbers do lie above, the tables are sound again, the checkpoints' history
      taken over: everything above holds of the imported project, too. */
  lemma {:induction false} ImportedSound(hash: Hash, log: seq<Row>, nextSeq: int, cps: seq<Checkpoint>, appended: seq<Row>,
                                         blocks: map<Id, seq<seq<Row>>>, p: Id, moved: seq<Checkpoint>, history: seq<seq<Row>>,
                                         live: seq<Row>, newLog: seq<Row>, newCps: seq<Checkpoint>, all: seq<Row>,
                                         newBlocks: map<Id, seq<seq<Row>>>)
    requires Sound(hash, log, nextSeq, cps, appended, blocks) && Exported(hash, p, moved, history, live) && Above(moved, nextSeq)
    requires Of(log, p) == [] && Of(appended, p) == [] && CheckpointsOf(cps, p) == [] && newBlocks == blocks[p := history]
    requires newLog == log + Renumbered(live, nextSeq) && newCps == cps + moved
    requires all == appended + Flatten(history) + Renumbered(live, nextSeq)
    ensures Sound(hash, newLog, nextSeq + |live|, newCps, all, newBlocks)
  {
    var rows := Renumbered(live, nextSeq);
    ImportedReady(hash, p, moved, history, live, nextSeq);
    ImportedBelow(appended, Flatten(history), live, nextSeq, all);
    ImportedHere(hash, log, cps, appended, p, moved, history, rows);
    forall q ensures ProjectSound(hash, q, newLog, newCps, all, BlocksOf(newBlocks, q)) {
      if q != p {
        assert ProjectSound(hash, q, log, cps, appended, BlocksOf(blocks, q));
        ImportedElsewhere(hash, log, cps, appended, BlocksOf(blocks, q), p, moved, Flatten(history), rows, q);
      }
    }
  }

  lemma {:induction false} ChainOwn(hash: Hash, p: Id, cps: seq<Checkpoint>, blocks: seq<seq<Row>>)
    requires Chained(hash, p, cps, blocks)
    ensures forall i :: 0 <= i < |cps| ==> cps[i].projectId == p
  {
    forall i | 0 <= i < |cps| ensures cps[i].projectId == p {
      RecordsAt(hash, p, cps, blocks, i);
    }
  }

  lemma {:induction false} HistoryThenRows(before: seq<Row>, rows: seq<Row>)
    requires Increasing(before) && Increasing(rows)
    requires before != [] && rows != [] ==> Last(before).seqNo < rows[0].seqNo
    ensures Increasing(before + rows)
  {
    var all := before + rows;
    forall i, j | 0 <= i < j < |all| ensures all[i].seqNo < all[j].seqNo {
      if i < |before| <= j {
        assert all[i].seqNo <= Last(before).seqNo && rows[0].seqNo <= all[j].seqNo;
      }
    }
  }

  lemma {:induction false} HistoryBelow(hash: Hash, p: Id, cps: seq<Checkpoint>, history: seq<seq<Row>>, live: seq<Row>, next: int)
    requires Exported(hash, p, cps, history, live) && Above(cps, next)
    ensures Increasing(Flatten(history)) && forall r :: r in Flatten(history) ==> r.seqNo < next
  {
    FlattenThenLive(history, live, Flatten(history) + live);
    if cps != [] {
      var n := |cps| - 1;
      RecordsAt(hash, p, cps, history, n);
      FlattenIndex(history, n);
      assert history[..n + 1] == history;
      assert Last(Flatten(history)) == Last(history[n]);
    }
  }

  lemma {:induction false} OfConcat(a: seq<Row>, b: seq<Row>, p: Id)
    ensures Of(a + b, p) == Of(a, p) + Of(b, p)
  {
    if b == [] {
      assert a + b == a;
    } else {
      var front := b[..|b| - 1];
      assert a + b == (a + front) + [Last(b)];
      OfConcat(a, front, p);
      OfAppend(a + front, Last(b), p);
    }
  }

  lemma {:induction false} OfOwn(rows: seq<Row>, p: Id, q: Id)
    requires forall r :: r in rows ==> r.projectId == Some(p)
    ensures Of(rows, q) == if q == p then rows else []
  {
    if rows != [] {
      assert Last(rows) in rows;
      OfOwn(rows[..|rows| - 1], p, q);
    }
  }

  lemma {:induction false} CheckpointsConcat(a: seq<Checkpoint>, b: seq<Checkpoint>, p: Id)
    ensures CheckpointsOf(a + b, p) == CheckpointsOf(a, p) + CheckpointsOf(b, p)
  {
    if b == [] {
      assert a + b == a;
    } else {
      assert (a + b)[..|a + b| - 1] == a + b[..|b| - 1];
      CheckpointsConcat(a, b[..|b| - 1], p);
    }
  }

  lemma {:induction false} CheckpointsOwn(cps: seq<Checkpoint>, p: Id, q: Id)
    requires forall i :: 0 <= i < |cps| ==> cps[i].projectId == p
    ensures CheckpointsOf(cps, q) == if q == p then cps else []
  {
    if cps != [] {
      CheckpointsOwn(cps[..|cps| - 1], p, q);
    }
  }

  // ---------------------------------------------------------------------
  // The repository
  // ---------------------------------------------------------------------

  /** The memories a run at `now` would purge. */
  function Due(memories: map<Id, Memory>, p: Id, days: nat, now: int): set<Id> {
    set id | id in memories && memories[id].projectId == p && memories[id].status in TERMINAL
          && memories[id].updatedAt < now - days * SECONDS_PER_DAY
  }

  lemma {:induction false} AppendOwn(hash: Hash, log: seq<Row>, nextSeq: int, cps: seq<Checkpoint>, appended: seq<Row>,
                                     blocks: map<Id, seq<seq<Row>>>, r: Row, p: Id)
    requires Sound(hash, log, nextSeq, cps, appended, blocks)
    requires r.seqNo == nextSeq && r.projectId == Some(p)
    ensures Sound(hash, log + [r], nextSeq + 1, cps, appended + [r], blocks)
    ensures |Of(log + [r], p)| == |Of(log, p)| + 1
    ensures |Of(appended + [r], p)| == |Of(appended, p)| + 1
  {
    AppendSound(hash, log, nextSeq, cps, appended, blocks, r);
    OfAppend(log, r, p);
    OfAppend(appended, r, p);
  }

  /** The defaults of the policy table. */
  const DEFAULT_POLICY := Policy(12000, 20, 10000, 180, 0.60, 0.75, 1800, 25, 3600, 300, 0.05, 0, 0)

  predicate InRange(value: Option<int>, low: int, high: int) {
    value.Some? ==> low <= value.value <= high
  }

  predicate InUnit(value: Option<real>, high: real) {
    value.Some? ==> 0.0 <= value.value <= high
  }

  /** Each given value lies in its range; an interval of 0 turns scheduling off. */
  predicate ChangeInRange(c: Change) {
    && InRange(c.contextChars, 1000, 20000) && InRange(c.contextItems, 1, 50)
    && InRange(c.auditKeepEntries, 100, 100000) && InRange(c.terminalMemoryDays, 1, 3650)
    && InUnit(c.softUsage, 1.0) && InUnit(c.hardUsage, 1.0) && InUnit(c.hysteresis, 0.5)
    && InRange(c.elapsed, 60, 86400) && InRange(c.eventCount, 1, 10000) && InRange(c.maxAge, 60, 604800)
    && InRange(c.cooldown, 0, 86400) && InRange(c.messageTtl, 0, 2592000)
    && (c.interval == Some(0) || InRange(c.interval, 300, 2592000))
  }

  function Given<T>(value: Option<T>, current: T): T {
    if value.Some? then value.value else current
  }

  /** The row with the given values in place of the current ones. */
  function Changed(p: Policy, c: Change): Policy
    requires ChangeInRange(c)
  {
    Policy(Given(c.contextChars, p.contextChars), Given(c.contextItems, p.contextItems),
      Given(c.auditKeepEntries, p.auditKeepEntries), Given(c.terminalMemoryDays, p.terminalMemoryDays),
      Given(c.softUsage, p.softUsage), Given(c.hardUsage, p.hardUsage), Given(c.elapsed, p.elapsed),
      Given(c.eventCount, p.eventCount), Given(c.maxAge, p.maxAge), Given(c.cooldown, p.cooldown),
      Given(c.hysteresis, p.hysteresis), Given(c.interval, p.interval), Given(c.messageTtl, p.messageTtl))
  }

  function Excess(total: nat, keep: nat): nat {
    if total > keep then total - keep else 0
  }

  /** The audit row that records the purge of a memory, with what the memory held. */
  predicate PurgeRow(memories: map<Id, Memory>, r: Row, p: Id, id: Id, createdAt: string) {
    id in memories && r == Row(r.seqNo, Some(p), "memory", id, "purged_terminal", memories[id].snapshot, createdAt)
  }

  /** The log grew by exactly one purge row for each of these memories. */
  ghost predicate Recorded(memories: map<Id, Memory>, p: Id, done: set<Id>, createdAt: string, log: seq<Row>, grown: seq<Row>) {
    && log <= grown && |grown| == |log| + |done|
    && (forall id :: id in done ==> exists i :: |log| <= i < |grown| && PurgeRow(memories, grown[i], p, id, createdAt))
    && (forall i :: |log| <= i < |grown| ==> grown[i].projectId == Some(p))
  }

  lemma {:induction false} RecordedNext(memories: map<Id, Memory>, p: Id, done: set<Id>, createdAt: string, log: seq<Row>, grown: seq<Row>,
                                        id: Id, r: Row)
    requires id !in done && Recorded(memories, p, done, createdAt, log, grown) && PurgeRow(memories, r, p, id, createdAt)
    ensures Recorded(memories, p, done + {id}, createdAt, log, grown + [r])
  {
    var more := grown + [r];
    forall x | x in done + {id} ensures exists i :: |log| <= i < |more| && PurgeRow(memories, more[i], p, x, createdAt) {
      if x in done {
        var i :| |log| <= i < |grown| && PurgeRow(memories, grown[i], p, x, createdAt);
        assert more[i] == grown[i];
      } else {
        assert more[|grown|] == r;
      }
    }
  }

  /** Other projects see nothing of a purge. */
  lemma {:induction false} RecordedElsewhere(memories: map<Id, Memory>, p: Id, done: set<Id>, createdAt: string, log: seq<Row>, grown: seq<Row>, q: Id)
    requires Recorded(memories, p, done, createdAt, log, grown) && q != p
    ensures Of(grown, q) == Of(log, q)
  {
    var more := grown[|log|..];
    assert grown == log + more;
    AppendedOwn(log, more, p, q);
  }

  lemma {:induction false} OfInOrder(front: seq<Row>, last: Row, p: Id)
    requires Increasing(front + [last]) && Increasing(Of(front, p))
    ensures Increasing(Of(front + [last], p))
  {
    OfAppend(front, last, p);
    OfMembers(front, p);
    forall r | r in front ensures r.seqNo < last.seqNo {
      var i :| 0 <= i < |front| && front[i] == r;
      assert (front + [last])[i].seqNo < (front + [last])[|front|].seqNo;
    }
    if last.projectId == Some(p) {
      IncreasingSnoc(Of(front, p), last);
    }
  }

  /** `SELECT ... WHERE project_id=?` finds exactly the project's rows, ... */
  lemma {:induction false} OfExact(rows: seq<Row>, p: Id, r: Row)
    ensures multiset(Of(rows, p))[r] == if r.projectId == Some(p) then multiset(rows)[r] else 0
  {
    if rows != [] {
      var front, last := rows[..|rows| - 1], Last(rows);
      OfExact(front, p, r);
      assert rows == front + [last];
      assert multiset(rows)[r] == multiset(front)[r] + multiset([last])[r];
    }
  }

  /** ... in their order. */
  lemma {:induction false} OfOrdered(rows: seq<Row>, p: Id)
    requires Increasing(rows)
    ensures Increasing(Of(rows, p))
  {
    if rows != [] {
      var front, last := rows[..|rows| - 1], Last(rows);
      assert forall i :: 0 <= i < |front| ==> front[i] == rows[i];
      OfOrdered(front, p);
      assert rows == front + [last];
      OfInOrder(front, last, p);
    }
  }

  lemma {:induction false} CheckpointsExact(cps: seq<Checkpoint>, p: Id)
    ensures forall c :: multiset(CheckpointsOf(cps, p))[c] == if c.projectId == p then multiset(cps)[c] else 0
  {
    if cps != [] {
      CheckpointsExact(cps[..|cps| - 1], p);
      assert cps == cps[..|cps| - 1] + [Last(cps)];
    }
  }

  /** The memories a run purges, spelt out. */
  ghost predicate Purges(m: Memory, p: Id, days: int, now: int) {
    && m.projectId == p
    && (m.status == "superseded" || m.status == "rejected" || m.status == "expired")
    && m.updatedAt < now - days * 86400
  }

  /** The log of an applied run before compaction: one purge row for each memory purged. */
  ghost predicate PurgesLogged(memories: map<Id, Memory>, p: Id, days: int, now: int, createdAt: string, log: seq<Row>, grown: seq<Row>) {
    && log <= grown
    && (forall id :: id in memories && Purges(memories[id], p, days, now) ==>
          exists i :: |log| <= i < |grown| && PurgeRow(memories, grown[i], p, id, createdAt))
    && |grown| == |log| + |set id | id in memories && Purges(memories[id], p, days, now)|
  }

  lemma {:induction false} RecordedPurges(memories: map<Id, Memory>, p: Id, days: nat, now: int, due: set<Id>, createdAt: string,
                                          log: seq<Row>, grown: seq<Row>)
    requires due == Due(memories, p, days, now) && Recorded(memories, p, due, createdAt, log, grown)
    ensures PurgesLogged(memories, p, days, now, createdAt, log, grown)
  {
    assert due == set id | id in memories && Purges(memories[id], p, days, now);
    forall id | id in memories && Purges(memories[id], p, days, now)
      ensures exists i :: |log| <= i < |grown| && PurgeRow(memories, grown[i], p, id, createdAt)
    {
      assert id in due;
    }
  }

  /** An applied run, row by row: the terminal memories of the project that are old enough
      are gone and no others, each is recorded in the log, the oldest rows of the log were
      compacted away, and other projects keep their rows. */
  ghost predicate Maintained(before: Tables, after: Tables, p: Id, days: int, now: int, createdAt: string, compacted: nat) {
    && (forall id :: id in after.memories <==> id in before.memories && !Purges(before.memories[id], p, days, now))
    && (forall id :: id in after.memories ==> after.memories[id] == before.memories[id])
    && (exists grown ::
          && PurgesLogged(before.memories, p, days, now, createdAt, before.log, grown)
          && compacted <= |Of(grown, p)| && Of(after.log, p) == Of(grown, p)[compacted..])
    && forall q :: q != p ==>
         Of(after.log, q) == Of(before.log, q) && CheckpointsOf(after.checkpoints, q) == CheckpointsOf(before.checkpoints, q)
  }

  lemma {:induction false} MaintainedBy(before: Tables, after: Tables, p: Id, days: nat, now: int, due: set<Id>, createdAt: string,
                                        compacted: nat, grown: seq<Row>)
    requires due == Due(before.memories, p, days, now) && after.memories == before.memories - due
    requires Recorded(before.memories, p, due, createdAt, before.log, grown)
    requires compacted <= |Of(grown, p)| && Of(after.log, p) == Of(grown, p)[compacted..]
    requires forall q :: q != p ==>
      Of(after.log, q) == Of(grown, q) && CheckpointsOf(after.checkpoints, q) == CheckpointsOf(before.checkpoints, q)
    ensures Maintained(before, after, p, days, now, createdAt, compacted)
  {
    RecordedPurges(before.memories, p, days, now, due, createdAt, before.log, grown);
    forall q | q != p ensures Of(after.log, q) == Of(before.log, q) {
      RecordedElsewhere(before.memories, p, due, createdAt, before.log, grown, q);
    }
  }

  lemma {:induction false} PinnedDue(memories: map<Id, Memory>, p: Id, days: nat, now: int, pinned: set<Id>)
    ensures Due(memories, p, days, now) * pinned != {} <==>
      exists id :: id in memories && id in pinned && Purges(memories[id], p, days, now)
  {
    if id :| id in memories && id in pinned && Purges(memories[id], p, days, now) {
      assert id in Due(memories, p, days, now) * pinned;
    }
    if Due(memories, p, days, now) * pinned != {} {
      var id :| id in Due(memories, p, days, now) * pinned;
      assert Purges(memories[id], p, days, now);
    }
  }

  /** What holds of the working rows of a purge. */
  datatype Fact = RowsLeft | ChainSound | PurgesRecorded | RowsCounted

  class MaintenanceRepository {
    const hash: Hash
    var policies: map<Id, Policy>
    var memories: map<Id, Memory>
    /** Memories cited by an investigation claim or a wiki revision. Those rows are
        append-only, so deleting a cited memory aborts the transaction. */
    var pinned: set<Id>
    var auditLog: seq<Row>
    var nextSeq: int
    var checkpoints: seq<Checkpoint>
    /** Every audit row ever committed, and the blocks compacted per project. */
    ghost var appended: seq<Row>
    ghost var blocks: map<Id, seq<seq<Row>>>

    ghost predicate Valid()
      reads this
    {
      Sound(hash, auditLog, nextSeq, checkpoints, appended, blocks)
    }

    constructor (hash: Hash)
      ensures Valid() && this.hash == hash
      ensures auditLog == [] && checkpoints == [] && appended == [] && memories == map[] && policies == map[]
    {
      this.hash := hash;
      policies, memories, pinned := map[], map[], {};
      auditLog, nextSeq, checkpoints := [], 1, [];
      appended, blocks := [], map[];
    }

    function View(): Tables
      reads this
    {
      Tables(memories, auditLog, nextSeq, checkpoints)
    }

    /** What `maintain` reports before it changes anything: how many memories it would purge,
        and how many of the project's audit rows would then exceed the limit. */
    function PlanFor(p: Id, now: int): (plan: Plan)
      requires p in policies
      reads this
      ensures plan.terminalMemories == |set id | id in memories && Purges(memories[id], p, policies[p].terminalMemoryDays, now)|
      ensures plan.auditEntries == |Of(auditLog, p)|
      ensures plan.auditEntriesToCheckpoint ==
        if plan.auditEntries + plan.terminalMemories > policies[p].auditKeepEntries
        then plan.auditEntries + plan.terminalMemories - policies[p].auditKeepEntries
        else 0
    {
      assert Due(memories, p, policies[p].terminalMemoryDays, now)
        == set id | id in memories && Purges(memories[id], p, policies[p].terminalMemoryDays, now);
      var due, total := |Due(memories, p, policies[p].terminalMemoryDays, now)|, |Of(auditLog, p)|;
      Plan(due, total, Excess(total + due, policies[p].auditKeepEntries))
    }

    /** `_audit`: one row, numbered after every row there has ever been. */
    method Audit(projectId: Option<Id>, entityType: string, entityId: string, action: string, snapshot: string, now: string)
      requires Valid()
      modifies this`auditLog, this`nextSeq, this`appended
      ensures Valid()
      ensures var r := Row(old(nextSeq), projectId, entityType, entityId, action, snapshot, now);
        auditLog == old(auditLog) + [r] && appended == old(appended) + [r] && nextSeq == old(nextSeq) + 1
    {
      var r := Row(nextSeq, projectId, entityType, entityId, action, snapshot, now);
      AppendSound(hash, auditLog, nextSeq, checkpoints, appended, blocks, r);
      auditLog, appended, nextSeq := auditLog + [r], appended + [r], nextSeq + 1;
    }

    /** Creating a project fires the trigger that gives it the default policy. */
    method CreateProject(p: Id, snapshot: string, now: string) returns (known: bool)
      requires Valid()
      modifies this`policies, this`auditLog, this`nextSeq, this`appended
      ensures Valid() && known == (p in old(policies))
      ensures known ==> policies == old(policies) && auditLog == old(auditLog) && nextSeq == old(nextSeq) && appended == old(appended)
      ensures !known ==>
        && policies == old(policies)[p := DEFAULT_POLICY]
        && auditLog == old(auditLog) + [Row(old(nextSeq), Some(p), "project", p, "created", snapshot, now)]
    {
      known := p in policies;
      if !known {
        policies := policies[p := DEFAULT_POLICY];
        Audit(Some(p), "project", p, "created", snapshot, now);
      }
    }

    /** `set_policy`: an unknown project, a value outside its range, or a soft usage that would
        not lie below the hard one, changes nothing. */
    method SetPolicy(p: Id, change: Change, snapshot: string, now: string) returns (ok: bool)
      requires Valid()
      modifies this`policies, this`auditLog, this`nextSeq, this`appended
      ensures Valid()
      ensures ok <==>
        p in old(policies) && ChangeInRange(change)
        && Given(change.softUsage, old(policies)[p].softUsage) < Given(change.hardUsage, old(policies)[p].hardUsage)
      ensures !ok ==> policies == old(policies) && auditLog == old(auditLog) && nextSeq == old(nextSeq) && appended == old(appended)
      ensures ok ==>
        && policies == old(policies)[p := Changed(old(policies)[p], change)]
        && policies[p].softUsage < policies[p].hardUsage
        && auditLog == old(auditLog) + [Row(old(nextSeq), Some(p), "policy", p, "updated", snapshot, now)]
    {
      if p !in policies || !ChangeInRange(change) {
        return false;
      }
      var current := Changed(policies[p], change);
      if current.softUsage >= current.hardUsage {
        return false;
      }
      policies := policies[p := current];
      Audit(Some(p), "policy", p, "updated", snapshot, now);
      ok := true;
    }

    /** The tables have nothing of project p. */
    ghost predicate Unknown(p: Id)
      reads this
    {
      Of(auditLog, p) == [] && Of(appended, p) == [] && CheckpointsOf(checkpoints, p) == []
    }

    /** The audit records of an import, each under the table's next number. */
    method InsertEntries(live: seq<Row>)
      modifies this`auditLog, this`nextSeq
      ensures auditLog == old(auditLog) + Renumbered(live, old(nextSeq)) && nextSeq == old(nextSeq) + |live|
    {
      ghost var rows := Renumbered(live, nextSeq);
      var i := 0;
      while i < |live|
        invariant 0 <= i <= |live| && nextSeq == old(nextSeq) + i
        invariant auditLog == old(auditLog) + rows[..i]
      {
        assert rows[..i + 1] == rows[..i] + [rows[i]];
        auditLog := auditLog + [live[i].(seqNo := nextSeq)];
        nextSeq := nextSeq + 1;
        i := i + 1;
      }
      assert rows[..|live|] == rows;
    }

    /** What an import inserts of a chain: its checkpoints, and its rows under new numbers.
        `history` is what the checkpoints digest, if they are those of an export. */
    method ImportAudit(p: Id, moved: seq<Checkpoint>, live: seq<Row>, ghost history: seq<seq<Row>>)
      requires Valid()
      modifies this`auditLog, this`nextSeq, this`checkpoints, this`appended, this`blocks
      ensures auditLog == old(auditLog) + Renumbered(live, old(nextSeq)) && nextSeq == old(nextSeq) + |live|
      ensures checkpoints == old(checkpoints) + moved
      ensures old(Unknown(p)) && Exported(hash, p, moved, history, live) && Above(moved, old(nextSeq)) ==> Valid()
    {
      if Unknown(p) && Exported(hash, p, moved, history, live) && Above(moved, nextSeq) {
        ImportedSound(hash, auditLog, nextSeq, checkpoints, appended, blocks, p, moved, history, live,
          auditLog + Renumbered(live, nextSeq), checkpoints + moved, appended + Flatten(history) + Renumbered(live, nextSeq),
          blocks[p := history]);
      }
      appended := appended + Flatten(history) + Renumbered(live, nextSeq);
      blocks := blocks[p := history];
      checkpoints := checkpoints + moved;
      InsertEntries(live);
    }

    /** Whatever writes a memory row audits it in the same transaction. */
    method WriteMemory(id: Id, row: Memory, action: string, now: string)
      requires Valid()
      modifies this`memories, this`auditLog, this`nextSeq, this`appended
      ensures Valid() && memories == old(memories)[id := row]
      ensures auditLog == old(auditLog) + [Row(old(nextSeq), Some(row.projectId), "memory", id, action, row.snapshot, now)]
    {
      memories := memories[id := row];
      Audit(Some(row.projectId), "memory", id, action, row.snapshot, now);
    }

    /** A claim or a wiki revision cites a memory, for ever. */
    method Cite(id: Id)
      requires Valid() && id in memories
      modifies this`pinned
      ensures Valid() && pinned == old(pinned) + {id}
    {
      pinned := pinned + {id};
    }

    /** The purge loop of one transaction, on the transaction's working rows.
        `None` when deleting a cited memory aborts it. */
    method Purge(p: Id, due: set<Id>, createdAt: string)
      returns (work: Option<(map<Id, Memory>, seq<Row>, int)>, ghost appended': seq<Row>)
      requires Valid()
      requires due <= memories.Keys
      ensures work.None? <==> due * pinned != {}
      ensures work.Some? ==>
        && work.value.0 == memories - due
        && Sound(hash, work.value.1, work.value.2, checkpoints, appended', blocks)
        && appended <= appended'
        && Recorded(memories, p, due, createdAt, auditLog, work.value.1)
        && |Of(work.value.1, p)| == |Of(auditLog, p)| + |due|
        && |Of(appended', p)| == |Of(appended, p)| + |due|
    {
      var rows, left, log, next := due, memories, auditLog, nextSeq;
      appended' := appended;
      ghost var done: set<Id> := {};
      PurgedIs(p, {}, createdAt, memories, auditLog, nextSeq, appended);
      while rows != {}
        invariant rows == due - done && done <= due && done !! pinned
        invariant Purged(p, done, createdAt, left, log, next, appended')
        decreases rows
      {
        var id :| id in rows;
        log, next, appended' := AuditPurge(p, id, createdAt, done, left, log, next, appended');
        if id in pinned {
          work := None;
          return;
        }
        left, rows, done := left - {id}, rows - {id}, done + {id};
      }
      assert done == due;
      PurgedIs(p, due, createdAt, left, log, next, appended');
      work := Some((left, log, next));
    }

    /** The working rows after the memories of `done` were purged, fact by fact. */
    ghost predicate PurgeFact(fact: Fact, p: Id, done: set<Id>, createdAt: string, left: map<Id, Memory>, log: seq<Row>, next: int,
                              appended': seq<Row>)
      requires done <= memories.Keys
      reads this
    {
      match fact
      case RowsLeft => left == memories - done
      case ChainSound => Sound(hash, log, next, checkpoints, appended', blocks) && appended <= appended'
      case PurgesRecorded => Recorded(memories, p, done, createdAt, auditLog, log)
      case RowsCounted =>
        && |Of(log, p)| == |Of(auditLog, p)| + |done|
        && |Of(appended', p)| == |Of(appended, p)| + |done|
    }

    ghost predicate Purged(p: Id, done: set<Id>, createdAt: string, left: map<Id, Memory>, log: seq<Row>, next: int, appended': seq<Row>)
      requires done <= memories.Keys
      reads this
    {
      forall fact :: PurgeFact(fact, p, done, createdAt, left, log, next, appended')
    }

    lemma {:induction false} PurgedIs(p: Id, done: set<Id>, createdAt: string, left: map<Id, Memory>, log: seq<Row>, next: int, appended': seq<Row>)
      requires done <= memories.Keys
      ensures Purged(p, done, createdAt, left, log, next, appended') <==>
        && left == memories - done
        && Sound(hash, log, next, checkpoints, appended', blocks) && appended <= appended'
        && Recorded(memories, p, done, createdAt, auditLog, log)
        && |Of(log, p)| == |Of(auditLog, p)| + |done|
        && |Of(appended', p)| == |Of(appended, p)| + |done|
    {
      if Purged(p, done, createdAt, left, log, next, appended') {
        assert PurgeFact(RowsLeft, p, done, createdAt, left, log, next, appended');
        assert PurgeFact(ChainSound, p, done, createdAt, left, log, next, appended');
        assert PurgeFact(PurgesRecorded, p, done, createdAt, left, log, next, appended');
        assert PurgeFact(RowsCounted, p, done, createdAt, left, log, next, appended');
      }
    }

    method AuditPurge(p: Id, id: Id, createdAt: string, ghost done: set<Id>, left: map<Id, Memory>, log: seq<Row>, next: int,
                      ghost before: seq<Row>)
      returns (log': seq<Row>, next': int, ghost appended': seq<Row>)
      requires id in memories && id !in done && done <= memories.Keys
      requires Purged(p, done, createdAt, left, log, next, before)
      ensures Purged(p, done + {id}, createdAt, left - {id}, log', next', appended')
    {
      PurgedIs(p, done, createdAt, left, log, next, before);
      var r := Row(next, Some(p), "memory", id, "purged_terminal", memories[id].snapshot, createdAt);
      AppendOwn(hash, log, next, checkpoints, before, blocks, r, p);
      log', next', appended' := log + [r], next + 1, before + [r];
      assert left - {id} == memories - (done + {id});
      RecordedNext(memories, p, done, createdAt, auditLog, log, id, r);
      PurgedIs(p, done + {id}, createdAt, left - {id}, log', next', appended');
    }

    /** The compaction step of one transaction: checkpoints the oldest rows beyond
        the policy's limit and drops them from the working rows. */
    method Compact(p: Id, log: seq<Row>, ghost next: int, ghost appended': seq<Row>, checkpointId: Id, createdAt: string)
      returns (pruned: nat, log': seq<Row>, cps: seq<Checkpoint>, ghost blocks': map<Id, seq<seq<Row>>>)
      requires p in policies
      requires Sound(hash, log, next, checkpoints, appended', blocks)
      ensures pruned == Excess(|Of(log, p)|, policies[p].auditKeepEntries)
      ensures Sound(hash, log', next, cps, appended', blocks')
      ensures pruned <= |Of(log, p)| && Of(log', p) == Of(log, p)[pruned..]
      ensures forall q :: q != p ==> Of(log', q) == Of(log, q) && CheckpointsOf(cps, q) == CheckpointsOf(checkpoints, q)
      ensures checkpoints <= cps && |cps| == |checkpoints| + if pruned > 0 then 1 else 0
      ensures pruned > 0 ==> Last(cps).projectId == p && Last(cps).entryCount == pruned
    {
      var live := Of(log, p);
      pruned, log', cps, blocks' := Excess(|live|, policies[p].auditKeepEntries), log, checkpoints, blocks;
      if pruned > 0 {
        var rows := live[..pruned];
        var latest := LatestCheckpoint(checkpoints, p);
        var previous := if latest.Some? then Some(latest.value.digest) else None;
        var cp := BuildCheckpoint(hash, p, rows, previous, checkpointId, createdAt).value;
        CompactSound(hash, p, log, next, checkpoints, appended', blocks, pruned, cp);
        cps := checkpoints + [cp];
        forall q | q != p ensures Of(Delete(log, p, rows[pruned - 1].seqNo), q) == Of(log, q) && CheckpointsOf(cps, q) == CheckpointsOf(checkpoints, q) {
          DeleteElsewhere(log, p, q, rows[pruned - 1].seqNo);
          assert cps[..|cps| - 1] == checkpoints;
        }
        blocks' := blocks[p := BlocksOf(blocks, p) + [rows]];
        log' := Delete(log, p, rows[pruned - 1].seqNo);
      }
    }

    /** `maintain`: plans, then purges terminal memories and compacts the oldest
        rows in one transaction. It aborts, changing nothing, exactly when a memory
        due for purging is cited; otherwise it does what the plan said. */
    method Maintain(p: Id, apply: bool, now: int, checkpointId: Id, createdAt: string)
      returns (r: Result<Outcome, MaintainError>)
      requires Valid()
      modifies this`memories, this`auditLog, this`nextSeq, this`checkpoints, this`appended, this`blocks
      ensures Valid()
      ensures p !in policies ==> r == Err(ProjectNotFound)
      ensures p in policies && !apply ==> r == Ok(Planned(old(PlanFor(p, now))))
      ensures p in policies && apply ==>
        && (r.Err? <==> old(Due(memories, p, policies[p].terminalMemoryDays, now) * pinned) != {})
        && (r.Err? ==> r == Err(PinnedMemory))
      ensures !apply || r.Err? ==>
        && memories == old(memories) && auditLog == old(auditLog) && nextSeq == old(nextSeq)
        && checkpoints == old(checkpoints) && appended == old(appended) && blocks == old(blocks)
      ensures p in policies && apply && r.Ok? ==>
        var plan := old(PlanFor(p, now));
        && r.value == Applied(plan, plan.terminalMemories, plan.auditEntriesToCheckpoint)
        && memories == old(memories) - old(Due(memories, p, policies[p].terminalMemoryDays, now))
        && old(appended) <= appended
        && |Of(appended, p)| == |old(Of(appended, p))| + plan.terminalMemories
        && |Of(auditLog, p)| == plan.auditEntries + plan.terminalMemories - plan.auditEntriesToCheckpoint
        && |Of(auditLog, p)| <= policies[p].auditKeepEntries
        && |checkpoints| == |old(checkpoints)| + (if plan.auditEntriesToCheckpoint > 0 then 1 else 0)
        && old(checkpoints) <= checkpoints
      ensures p in policies && apply ==>
        (r.Err? <==> exists id :: id in old(memories) && id in pinned && Purges(old(memories)[id], p, policies[p].terminalMemoryDays, now))
      ensures p in policies && apply && r.Ok? ==>
        Maintained(old(View()), View(), p, policies[p].terminalMemoryDays, now, createdAt, r.value.plan.auditEntriesToCheckpoint)
    {
      if p !in policies {
        return Err(ProjectNotFound);
      }
      var plan := PlanFor(p, now);
      PinnedDue(memories, p, policies[p].terminalMemoryDays, now, pinned);
      if !apply {
        return Ok(Planned(plan));
      }
      r := Apply(p, plan, now, checkpointId, createdAt);
    }

    /** The transaction of an applied run. */
    method Apply(p: Id, plan: Plan, now: int, checkpointId: Id, createdAt: string) returns (r: Result<Outcome, MaintainError>)
      requires Valid()
      requires p in policies && plan == PlanFor(p, now)
      modifies this`memories, this`auditLog, this`nextSeq, this`checkpoints, this`appended, this`blocks
      ensures Valid()
      ensures r.Err? <==> old(Due(memories, p, policies[p].terminalMemoryDays, now) * pinned) != {}
      ensures r.Err? ==>
        && r == Err(PinnedMemory) && memories == old(memories) && auditLog == old(auditLog) && nextSeq == old(nextSeq)
        && checkpoints == old(checkpoints) && appended == old(appended) && blocks == old(blocks)
      ensures r.Ok? ==>
        && r.value == Applied(plan, plan.terminalMemories, plan.auditEntriesToCheckpoint)
        && memories == old(memories) - old(Due(memories, p, policies[p].terminalMemoryDays, now))
        && old(appended) <= appended
        && |Of(appended, p)| == |old(Of(appended, p))| + plan.terminalMemories
        && |Of(auditLog, p)| == plan.auditEntries + plan.terminalMemories - plan.auditEntriesToCheckpoint
        && |checkpoints| == |old(checkpoints)| + (if plan.auditEntriesToCheckpoint > 0 then 1 else 0)
        && old(checkpoints) <= checkpoints
        && Maintained(old(View()), View(), p, policies[p].terminalMemoryDays, now, createdAt, plan.auditEntriesToCheckpoint)
    {
      ghost var appended', blocks';
      var work;
      work, appended', blocks' := Prepare(p, plan, now, checkpointId, createdAt);
      if work.None? {
        return Err(PinnedMemory);
      }
      Commit(work.value, appended', blocks');
      r := Ok(Applied(plan, plan.terminalMemories, plan.auditEntriesToCheckpoint));
    }

    method Commit(t: Tables, ghost appended': seq<Row>, ghost blocks': map<Id, seq<seq<Row>>>)
      modifies this`memories, this`auditLog, this`nextSeq, this`checkpoints, this`appended, this`blocks
      ensures View() == t && appended == appended' && blocks == blocks'
    {
      memories, auditLog, nextSeq, checkpoints := t.memories, t.log, t.nextSeq, t.checkpoints;
      appended, blocks := appended', blocks';
    }

    /** The statements of an applied run, on working copies of the tables. */
    method Prepare(p: Id, plan: Plan, now: int, checkpointId: Id, createdAt: string)
      returns (work: Option<Tables>, ghost appended': seq<Row>, ghost blocks': map<Id, seq<seq<Row>>>)
      requires Valid()
      requires p in policies && plan == PlanFor(p, now)
      ensures work.None? <==> Due(memories, p, policies[p].terminalMemoryDays, now) * pinned != {}
      ensures work.Some? ==>
        var t := work.value;
        && Sound(hash, t.log, t.nextSeq, t.checkpoints, appended', blocks')
        && t.memories == memories - Due(memories, p, policies[p].terminalMemoryDays, now)
        && appended <= appended'
        && |Of(appended', p)| == |Of(appended, p)| + plan.terminalMemories
        && |Of(t.log, p)| == plan.auditEntries + plan.terminalMemories - plan.auditEntriesToCheckpoint
        && |t.checkpoints| == |checkpoints| + (if plan.auditEntriesToCheckpoint > 0 then 1 else 0)
        && checkpoints <= t.checkpoints
        && Maintained(View(), t, p, policies[p].terminalMemoryDays, now, createdAt, plan.auditEntriesToCheckpoint)
    {
      var days := policies[p].terminalMemoryDays;
      var due := Due(memories, p, days, now);
      var purge;
      purge, appended' := Purge(p, due, createdAt);
      if purge.None? {
        return None, appended, blocks;
      }
      var (left, log, next) := purge.value;
      var pruned, log', cps;
      pruned, log', cps, blocks' := Compact(p, log, next, appended', checkpointId, createdAt);
      var t := Tables(left, log', next, cps);
      assert Maintained(View(), t, p, days, now, createdAt, pruned) by {
        MaintainedBy(View(), t, p, days, now, due, createdAt, pruned, log);
      }
      work := Some(t);
    }

    /** `export_audit_chain`. */
    method Export(p: Id) returns (r: Result<V.Fields, MaintainError>)
      requires Valid() && WritesDigests(hash) && p != ""
      ensures if p in policies then r.Ok? else r == Err(ProjectNotFound)
      ensures r.Ok? ==>
        && r.value == Serialize(p, CheckpointsOf(checkpoints, p), Of(auditLog, p))
        && V.WellFormedChain(r.value, None)
        && V.WellFormedChain(r.value, HeadDigest(hash, BlocksOf(blocks, p)))
    {
      if p !in policies {
        return Err(ProjectNotFound);
      }
      r := Ok(Serialize(p, CheckpointsOf(checkpoints, p), Of(auditLog, p)));
      ExportAccepted(hash, auditLog, nextSeq, checkpoints, appended, blocks, p, None);
      ExportAccepted(hash, auditLog, nextSeq, checkpoints, appended, blocks, p, HeadDigest(hash, BlocksOf(blocks, p)));
    }
  }
}
