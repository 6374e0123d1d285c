/** Audit digest chains: how a block of audit rows is digested, and why a head
    digest pins down every compacted row (`build_audit_checkpoint`). */
module AuditChain {
  import opened Wrappers
  import J = CanonicalJson

  /** A row of `audit_log`, as `SELECT *` returns it. */
  datatype Row = Row(
    seqNo: int, projectId: Option<string>, entityType: string, entityId: string, action: string,
    snapshotJson: string, createdAt: string)

  /** A row of `audit_checkpoints`. */
  datatype Checkpoint = Checkpoint(
    id: string, projectId: string, fromSeq: int, throughSeq: int, entryCount: int,
    previousDigest: Option<string>, digest: string, createdAt: string)

  datatype BuildError = NoRows

  /** SHA-256 followed by `hexdigest`; nothing else about it is used here. */
  type Hash = string -> string

  predicate IsDigest(s: string) {
    |s| == 64 && forall i :: 0 <= i < |s| ==> ('0' <= s[i] <= '9' || 'a' <= s[i] <= 'f')
  }

  ghost predicate WritesDigests(hash: Hash) {
    forall x :: IsDigest(hash(x))
  }

  ghost predicate Collides(hash: Hash, x: string, y: string) {
    x != y && hash(x) == hash(y)
  }

  /** `dict(row)` as canonical JSON orders it. */
  function RowJson(row: Row): J.Json {
    J.Obj([
      J.Member("action", J.Str(row.action)),
      J.Member("created_at", J.Str(row.createdAt)),
      J.Member("entity_id", J.Str(row.entityId)),
      J.Member("entity_type", J.Str(row.entityType)),
      J.Member("project_id", match row.projectId case None => J.Null case Some(p) => J.Str(p)),
      J.Member("seq", J.Num(row.seqNo)),
      J.Member("snapshot_json", J.Str(row.snapshotJson))
    ])
  }

  function Line(row: Row): string {
    J.Canonical(RowJson(row))
  }

  function Lines(rows: seq<Row>): string {
    if rows == [] then ""
    else if |rows| == 1 then Line(rows[0])
    else Line(rows[0]) + ("\n" + Lines(rows[1..]))
  }

  /** The text a checkpoint digests. */
  function Payload(previous: Option<string>, rows: seq<Row>): string {
    (match previous case None => "" case Some(d) => d) + ("\n" + Lines(rows))
  }

  function BuildCheckpoint(hash: Hash, projectId: string, rows: seq<Row>, previous: Option<string>,
                           id: string, createdAt: string): Result<Checkpoint, BuildError>
  {
    if rows == [] then Err(NoRows)
    else Ok(Checkpoint(id, projectId, rows[0].seqNo, rows[|rows| - 1].seqNo, |rows|, previous,
                       hash(Payload(previous, rows)), createdAt))
  }

  // ---------------------------------------------------------------------
  // The payload decodes uniquely
  // ---------------------------------------------------------------------

  predicate OneLine(s: string) {
    forall i :: 0 <= i < |s| ==> s[i] != '\n'
  }

  lemma {:induction false} FirstNewline(p: string, q: string, s: string, t: string)
    requires OneLine(p) && OneLine(q)
    requires p + ("\n" + s) == q + ("\n" + t)
    ensures p == q && s == t
  {
    var x, y := p + ("\n" + s), q + ("\n" + t);
    NotLonger(p, q, s, t);
    NotLonger(q, p, t, s);
    assert p == x[..|p|] == y[..|q|] == q;
    J.Cancel(p, "\n" + s, "\n" + t);
    J.Cancel("\n", s, t);
  }

  lemma {:induction false} NotLonger(p: string, q: string, s: string, t: string)
    requires OneLine(q)
    requires p + ("\n" + s) == q + ("\n" + t)
    ensures |q| <= |p|
  {
    if |p| < |q| {
    }
    assert (p + ("\n" + s))[|p|] == '\n';
  }

  lemma {:induction false} LineIsOneLine(row: Row)
    ensures OneLine(Line(row))
  {
    J.CanonicalPrintable(RowJson(row));
  }

  lemma {:induction false} LineInjective(a: Row, b: Row)
    requires Line(a) == Line(b)
    ensures a == b
  {
    J.CanonicalInjective(RowJson(a), RowJson(b));
    var x, y := RowJson(a).members, RowJson(b).members;
    assert x[0] == y[0] && x[1] == y[1] && x[2] == y[2] && x[3] == y[3] && x[4] == y[4] && x[5] == y[5] && x[6] == y[6];
  }

  lemma {:induction false} LinesHaveNewline(rows: seq<Row>)
    requires |rows| > 1
    ensures !OneLine(Lines(rows))
  {
    assert Lines(rows)[|Line(rows[0])|] == '\n';
  }

  lemma {:induction false} LinesInjective(a: seq<Row>, b: seq<Row>)
    requires a != [] && b != []
    requires Lines(a) == Lines(b)
    ensures a == b
  {
    LineIsOneLine(a[0]);
    LineIsOneLine(b[0]);
    if |a| == 1 || |b| == 1 {
      if |a| > 1 { LinesHaveNewline(a); }
      if |b| > 1 { LinesHaveNewline(b); }
      LineInjective(a[0], b[0]);
    } else {
      FirstNewline(Line(a[0]), Line(b[0]), Lines(a[1..]), Lines(b[1..]));
      LineInjective(a[0], b[0]);
      LinesInjective(a[1..], b[1..]);
    }
    assert a == [a[0]] + a[1..] && b == [b[0]] + b[1..];
  }

  predicate DigestOrNone(d: Option<string>) {
    d.Some? ==> IsDigest(d.value)
  }

  /** The previous digest and the rows can be read back from the payload. */
  lemma {:induction false} PayloadInjective(p: Option<string>, q: Option<string>, a: seq<Row>, b: seq<Row>)
    requires DigestOrNone(p) && DigestOrNone(q)
    requires a != [] && b != []
    requires Payload(p, a) == Payload(q, b)
    ensures p == q && a == b
  {
    var x, y := match p case None => "" case Some(d) => d, match q case None => "" case Some(d) => d;
    FirstNewline(x, y, Lines(a), Lines(b));
    LinesInjective(a, b);
  }

  // ---------------------------------------------------------------------
  // A head digest determines the whole compacted history
  // ---------------------------------------------------------------------

  /** The digest of the newest checkpoint over `blocks`, oldest block first. */
  ghost function HeadDigest(hash: Hash, blocks: seq<seq<Row>>): Option<string> {
    if blocks == [] then None
    else Some(hash(TopPayload(hash, blocks)))
  }

  ghost function TopPayload(hash: Hash, blocks: seq<seq<Row>>): string
    requires blocks != []
    decreases blocks, 0
  {
    Payload(HeadDigest(hash, blocks[..|blocks| - 1]), blocks[|blocks| - 1])
  }

  ghost predicate NonEmptyBlocks(blocks: seq<seq<Row>>) {
    forall i :: 0 <= i < |blocks| ==> blocks[i] != []
  }

  /** The payloads that produced two of the digests in `a` and `b` collide. */
  ghost predicate HasCollision(hash: Hash, a: seq<seq<Row>>, b: seq<seq<Row>>) {
    exists i, j :: 0 < i <= |a| && 0 < j <= |b| && Collides(hash, TopPayload(hash, a[..i]), TopPayload(hash, b[..j]))
  }

  lemma {:induction false} CollisionInPrefix(hash: Hash, a: seq<seq<Row>>, b: seq<seq<Row>>, x: seq<Row>, y: seq<Row>)
    requires HasCollision(hash, a, b)
    ensures HasCollision(hash, a + [x], b + [y])
  {
    var i, j :| 0 < i <= |a| && 0 < j <= |b| && Collides(hash, TopPayload(hash, a[..i]), TopPayload(hash, b[..j]));
    assert (a + [x])[..i] == a[..i] && (b + [y])[..j] == b[..j];
  }

  lemma {:induction false} TopCollision(hash: Hash, a: seq<seq<Row>>, b: seq<seq<Row>>)
    requires a != [] && b != []
    requires Collides(hash, TopPayload(hash, a), TopPayload(hash, b))
    ensures HasCollision(hash, a, b)
  {
    assert a[..|a|] == a && b[..|b|] == b;
  }

  lemma {:induction false} HeadIsDigest(hash: Hash, blocks: seq<seq<Row>>)
    requires WritesDigests(hash)
    ensures DigestOrNone(HeadDigest(hash, blocks))
  {
  }

  /** Two runs that publish the same head digest compacted the same rows in the
      same blocks, unless two of their digested payloads are a collision. */
  lemma {:induction false} HeadDeterminesBlocks(hash: Hash, a: seq<seq<Row>>, b: seq<seq<Row>>)
    requires WritesDigests(hash)
    requires NonEmptyBlocks(a) && NonEmptyBlocks(b)
    requires HeadDigest(hash, a) == HeadDigest(hash, b)
    ensures a == b || HasCollision(hash, a, b)
  {
    if a == [] {
      return;
    }
    if Collides(hash, TopPayload(hash, a), TopPayload(hash, b)) {
      TopCollision(hash, a, b);
      return;
    }
    LastBlocks(hash, a, b);
    HeadDeterminesBlocks(hash, a[..|a| - 1], b[..|b| - 1]);
    SameLast(hash, a, b);
  }

  /** Blocks with the same last one differ, or collide, where those before it do. */
  lemma {:induction false} SameLast(hash: Hash, a: seq<seq<Row>>, b: seq<seq<Row>>)
    requires a != [] && b != [] && a[|a| - 1] == b[|b| - 1]
    requires a[..|a| - 1] == b[..|b| - 1] || HasCollision(hash, a[..|a| - 1], b[..|b| - 1])
    ensures a == b || HasCollision(hash, a, b)
  {
    var a', b' := a[..|a| - 1], b[..|b| - 1];
    assert a == a' + [a[|a| - 1]] && b == b' + [b[|b| - 1]];
    if a' == b' {
      return;
    }
    CollisionInPrefix(hash, a', b', a[|a| - 1], b[|b| - 1]);
  }

  /** Payloads that do not collide have the same last block on the same digest. */
  lemma {:induction false} LastBlocks(hash: Hash, a: seq<seq<Row>>, b: seq<seq<Row>>)
    requires WritesDigests(hash) && a != [] && b != [] && NonEmptyBlocks(a) && NonEmptyBlocks(b)
    requires HeadDigest(hash, a) == HeadDigest(hash, b) && !Collides(hash, TopPayload(hash, a), TopPayload(hash, b))
    ensures a[|a| - 1] == b[|b| - 1] && HeadDigest(hash, a[..|a| - 1]) == HeadDigest(hash, b[..|b| - 1])
    ensures NonEmptyBlocks(a[..|a| - 1]) && NonEmptyBlocks(b[..|b| - 1])
  {
    HeadIsDigest(hash, a[..|a| - 1]);
    HeadIsDigest(hash, b[..|b| - 1]);
    PayloadInjective(HeadDigest(hash, a[..|a| - 1]), HeadDigest(hash, b[..|b| - 1]), a[|a| - 1], b[|b| - 1]);
  }

  // ---------------------------------------------------------------------
  // The text itself
  // ---------------------------------------------------------------------

  function MemberAt(row: Row, i: nat): J.Member {
    if i == 0 then J.Member("action", J.Str(row.action))
    else if i == 1 then J.Member("created_at", J.Str(row.createdAt))
    else if i == 2 then J.Member("entity_id", J.Str(row.entityId))
    else if i == 3 then J.Member("entity_type", J.Str(row.entityType))
    else if i == 4 then J.Member("project_id", if row.projectId.Some? then J.Str(row.projectId.value) else J.Null)
    else if i == 5 then J.Member("seq", J.Num(row.seqNo))
    else J.Member("snapshot_json", J.Str(row.snapshotJson))
  }

  lemma {:induction false} MemberIs(row: Row, members: seq<J.Member>, i: nat)
    requires members == RowJson(row).members && i < 7
    ensures |members| == 7 && members[i] == MemberAt(row, i)
  {
  }

  /** A row is written as an object of its columns in the order of their names. */
  lemma {:induction false} LineExact(row: Row, members: seq<J.Member>)
    requires members == RowJson(row).members
    ensures |members| == 7 && forall i :: 0 <= i < 7 ==> members[i] == MemberAt(row, i)
    ensures Line(row) == "{" + J.Join(J.Pairs(members), ",") + "}"
  {
    J.CanonicalExact(RowJson(row));
    forall i | 0 <= i < 7 ensures |members| == 7 && members[i] == MemberAt(row, i) {
      MemberIs(row, members, i);
    }
    MemberIs(row, members, 0);
  }

  function LineTexts(rows: seq<Row>): (texts: seq<string>)
    ensures |texts| == |rows| && forall i :: 0 <= i < |rows| ==> texts[i] == Line(rows[i])
  {
    seq(|rows|, i requires 0 <= i < |rows| => Line(rows[i]))
  }

  lemma {:induction false} LinesExact(rows: seq<Row>)
    ensures Lines(rows) == J.Join(LineTexts(rows), "\n")
  {
    if |rows| > 1 {
      LinesExact(rows[1..]);
      assert LineTexts(rows)[1..] == LineTexts(rows[1..]);
      J.Assoc(Line(rows[0]), "\n", Lines(rows[1..]));
    }
  }

  /** A checkpoint over some rows: their range and count, and the digest of the previous digest,
      or nothing, followed by the rows' lines. */
  lemma {:induction false} CheckpointExact(hash: Hash, projectId: string, rows: seq<Row>, previous: Option<string>, id: string, createdAt: string)
    ensures rows == [] ==> BuildCheckpoint(hash, projectId, rows, previous, id, createdAt) == Err(NoRows)
    ensures rows != [] ==>
      var text := (if previous.Some? then previous.value else "") + ("\n" + J.Join(LineTexts(rows), "\n"));
      BuildCheckpoint(hash, projectId, rows, previous, id, createdAt)
        == Ok(Checkpoint(id, projectId, rows[0].seqNo, rows[|rows| - 1].seqNo, |rows|, previous, hash(text), createdAt))
  {
    LinesExact(rows);
  }
}
