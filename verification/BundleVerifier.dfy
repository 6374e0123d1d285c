/** The offline verifier for exported audit chains (`verify_audit_chain_bundle`),
    run on arbitrary decoded JSON. */
module BundleVerifier {
  import opened Wrappers

  /** What `json.loads` can put into a bundle. */
  datatype Value =
    | Null
    | Bool(b: bool)
    | Int(n: int)
    | Float(r: real)
    | Str(s: string)
    | Arr(items: seq<Value>)
    | Obj(fields: Fields)

  type Fields = map<string, Value>

  datatype Problem =
    | UnsupportedFormat
    | MissingProjectId
    | NotArrays
    | CheckpointNotObject(index: nat)
    | CheckpointProjectMismatch(index: nat)
    | PreviousDigestMismatch(index: nat)
    | InvalidDigest(index: nat)
    | RangeNotIntegers(index: nat)
    | InvalidRange(index: nat)
    | OverlapsPrevious(index: nat)
    | HeadMismatch
    | ExpectedHeadMismatch
    | EntryNotObject(index: nat)
    | EntryProjectMismatch(index: nat)
    | EntryInvalidSeq(index: nat)
    | EntryOutOfOrder(index: nat)

  /** A report, or the TypeError of comparing an integer with a non-number. */
  datatype Verdict = Raised | Report(ok: bool, errors: seq<Problem>)

  const FORMAT: string := "context-memory-audit-chain"
  const VERSION: int := 1

  /** `dict.get` without a default. */
  function Get(fields: Fields, key: string): Value {
    if key in fields then fields[key] else Null
  }

  predicate IsNumber(v: Value) {
    v.Bool? || v.Int? || v.Float?
  }

  function AsReal(v: Value): real
    requires IsNumber(v)
  {
    match v
    case Bool(b) => if b then 1.0 else 0.0
    case Int(n) => n as real
    case Float(r) => r
  }

  /** Python's `==`: numbers compare by value, `True` equals 1. */
  predicate PyEq(a: Value, b: Value) {
    if IsNumber(a) && IsNumber(b) then AsReal(a) == AsReal(b) else a == b
  }

  predicate IsHexDigest(v: Value) {
    v.Str? && |v.s| == 64 && forall i :: 0 <= i < |v.s| ==> ('0' <= v.s[i] <= '9' || 'a' <= v.s[i] <= 'f')
  }

  // ---------------------------------------------------------------------
  // What a well-formed chain is
  // ---------------------------------------------------------------------

  /** Digest of the checkpoint before position i; `None` before the first. */
  function DigestBefore(cps: seq<Value>, i: nat): Value
    requires i <= |cps|
  {
    if i == 0 then Null
    else if cps[i - 1].Obj? then Get(cps[i - 1].fields, "digest")
    else DigestBefore(cps, i - 1)
  }

  /** `through_seq` of the last checkpoint object before position i. */
  function ThroughBefore(cps: seq<Value>, i: nat): Value
    requires i <= |cps|
  {
    if i == 0 then Null
    else if cps[i - 1].Obj? then Get(cps[i - 1].fields, "through_seq")
    else ThroughBefore(cps, i - 1)
  }

  /** The last integer `seq` before entry i, or the end of the checkpoints. */
  function SeqBefore(entries: seq<Value>, i: nat, end: Value): Value
    requires i <= |entries|
  {
    if i == 0 then end
    else if entries[i - 1].Obj? && Get(entries[i - 1].fields, "seq").Int? then Get(entries[i - 1].fields, "seq")
    else SeqBefore(entries, i - 1, end)
  }

  predicate IntegerRange(cp: Fields) {
    Get(cp, "from_seq").Int? && Get(cp, "through_seq").Int? && Get(cp, "entry_count").Int?
  }

  predicate SoundRange(cp: Fields)
    requires IntegerRange(cp)
  {
    var from, through, count := Get(cp, "from_seq").n, Get(cp, "through_seq").n, Get(cp, "entry_count").n;
    from <= through && 1 <= count <= through - from + 1
  }

  /** Whether `value <= previous` is a comparison Python refuses. */
  predicate Incomparable(previous: Value) {
    !previous.Null? && !IsNumber(previous)
  }

  predicate NotAfter(value: int, previous: Value) {
    IsNumber(previous) && value as real <= AsReal(previous)
  }

  predicate CheckpointRaises(cps: seq<Value>, i: nat)
    requires i < |cps|
  {
    && cps[i].Obj? && IntegerRange(cps[i].fields) && SoundRange(cps[i].fields)
    && Incomparable(ThroughBefore(cps, i))
  }

  predicate EntryRaises(entries: seq<Value>, i: nat, end: Value)
    requires i < |entries|
  {
    && entries[i].Obj? && Get(entries[i].fields, "seq").Int?
    && Incomparable(SeqBefore(entries, i, end))
  }

  /** Checkpoint i belongs to the project and continues the chain. */
  predicate GoodCheckpoint(cps: seq<Value>, i: nat, projectId: Value)
    requires i < |cps|
  {
    && cps[i].Obj?
    && var cp := cps[i].fields;
    && PyEq(Get(cp, "project_id"), projectId)
    && PyEq(Get(cp, "previous_digest"), DigestBefore(cps, i))
    && IsHexDigest(Get(cp, "digest"))
    && IntegerRange(cp) && SoundRange(cp)
    && !Incomparable(ThroughBefore(cps, i)) && !NotAfter(Get(cp, "from_seq").n, ThroughBefore(cps, i))
  }

  predicate GoodEntry(entries: seq<Value>, i: nat, projectId: Value, end: Value)
    requires i < |entries|
  {
    && entries[i].Obj?
    && PyEq(Get(entries[i].fields, "project_id"), projectId)
    && Get(entries[i].fields, "seq").Int?
    && !Incomparable(SeqBefore(entries, i, end))
    && !NotAfter(Get(entries[i].fields, "seq").n, SeqBefore(entries, i, end))
  }

  /** The chain the verifier is meant to accept. */
  ghost predicate WellFormedChain(bundle: Fields, expectedHead: Option<string>) {
    && PyEq(Get(bundle, "format"), Str(FORMAT))
    && PyEq(Get(bundle, "version"), Int(VERSION))
    && Get(bundle, "project_id").Str? && Get(bundle, "project_id").s != ""
    && Get(bundle, "checkpoints").Arr? && Get(bundle, "audit_entries").Arr?
    && var cps, entries := Get(bundle, "checkpoints").items, Get(bundle, "audit_entries").items;
    && (forall i :: 0 <= i < |cps| ==> GoodCheckpoint(cps, i, Get(bundle, "project_id")))
    && PyEq(Get(bundle, "head_digest"), DigestBefore(cps, |cps|))
    && (expectedHead.Some? ==> DigestBefore(cps, |cps|) == Str(expectedHead.value))
    && forall i :: 0 <= i < |entries| ==>
         GoodEntry(entries, i, Get(bundle, "project_id"), ThroughBefore(cps, |cps|))
  }

  /** The bundles on which the verifier raises instead of reporting. */
  ghost predicate Raises(bundle: Fields) {
    && Get(bundle, "checkpoints").Arr? && Get(bundle, "audit_entries").Arr?
    && var cps, entries := Get(bundle, "checkpoints").items, Get(bundle, "audit_entries").items;
    || (exists i :: 0 <= i < |cps| && CheckpointRaises(cps, i))
    || (exists i :: 0 <= i < |entries| && EntryRaises(entries, i, ThroughBefore(cps, |cps|)))
  }

  lemma {:induction false} WellFormedNeverRaises(bundle: Fields, expectedHead: Option<string>)
    requires WellFormedChain(bundle, expectedHead)
    ensures !Raises(bundle)
  {
    var cps, entries := Get(bundle, "checkpoints").items, Get(bundle, "audit_entries").items;
    forall i | 0 <= i < |cps| ensures !CheckpointRaises(cps, i) {
      assert GoodCheckpoint(cps, i, Get(bundle, "project_id"));
    }
    forall i | 0 <= i < |entries| ensures !EntryRaises(entries, i, ThroughBefore(cps, |cps|)) {
      assert GoodEntry(entries, i, Get(bundle, "project_id"), ThroughBefore(cps, |cps|));
    }
  }

  // ---------------------------------------------------------------------
  // The verifier
  // ---------------------------------------------------------------------

  function If(condition: bool, p: Problem): seq<Problem> {
    if condition then [p] else []
  }

  /** The problems checkpoint i adds when its checks do not raise. */
  function CheckpointProblems(cps: seq<Value>, i: nat, projectId: Value): (ps: seq<Problem>)
    requires i < |cps|
    ensures !CheckpointRaises(cps, i) ==> (ps == [] <==> GoodCheckpoint(cps, i, projectId))
  {
    if !cps[i].Obj? then [CheckpointNotObject(i)]
    else
      var cp := cps[i].fields;
      If(!PyEq(Get(cp, "project_id"), projectId), CheckpointProjectMismatch(i))
      + If(!PyEq(Get(cp, "previous_digest"), DigestBefore(cps, i)), PreviousDigestMismatch(i))
      + If(!IsHexDigest(Get(cp, "digest")), InvalidDigest(i))
      + (if !IntegerRange(cp) then [RangeNotIntegers(i)]
         else if !SoundRange(cp) then [InvalidRange(i)]
         else If(NotAfter(Get(cp, "from_seq").n, ThroughBefore(cps, i)), OverlapsPrevious(i)))
  }

  function EntryProblems(entries: seq<Value>, i: nat, projectId: Value, end: Value): (ps: seq<Problem>)
    requires i < |entries|
    ensures !EntryRaises(entries, i, end) ==> (ps == [] <==> GoodEntry(entries, i, projectId, end))
  {
    if !entries[i].Obj? then [EntryNotObject(i)]
    else
      var entry := entries[i].fields;
      If(!PyEq(Get(entry, "project_id"), projectId), EntryProjectMismatch(i))
      + (if !Get(entry, "seq").Int? then [EntryInvalidSeq(i)]
         else If(NotAfter(Get(entry, "seq").n, SeqBefore(entries, i, end)), EntryOutOfOrder(i)))
  }

  function AllCheckpointProblems(cps: seq<Value>, n: nat, projectId: Value): (ps: seq<Problem>)
    requires n <= |cps|
    ensures (forall i :: 0 <= i < n ==> !CheckpointRaises(cps, i)) ==>
              (ps == [] <==> forall i :: 0 <= i < n ==> GoodCheckpoint(cps, i, projectId))
  {
    if n == 0 then [] else AllCheckpointProblems(cps, n - 1, projectId) + CheckpointProblems(cps, n - 1, projectId)
  }

  function AllEntryProblems(entries: seq<Value>, n: nat, projectId: Value, end: Value): (ps: seq<Problem>)
    requires n <= |entries|
    ensures (forall i :: 0 <= i < n ==> !EntryRaises(entries, i, end)) ==>
              (ps == [] <==> forall i :: 0 <= i < n ==> GoodEntry(entries, i, projectId, end))
  {
    if n == 0 then [] else AllEntryProblems(entries, n - 1, projectId, end) + EntryProblems(entries, n - 1, projectId, end)
  }

  /** The exact error list of a bundle the verifier does not raise on. */
  ghost function Problems(bundle: Fields, expectedHead: Option<string>): (ps: seq<Problem>)
    requires !Raises(bundle)
    ensures ps == [] <==> WellFormedChain(bundle, expectedHead)
  {
    var projectId := Get(bundle, "project_id");
    var head := HeaderProblems(bundle);
    if !Get(bundle, "checkpoints").Arr? || !Get(bundle, "audit_entries").Arr? then head + [NotArrays]
    else
      var cps, entries := Get(bundle, "checkpoints").items, Get(bundle, "audit_entries").items;
      head
      + AllCheckpointProblems(cps, |cps|, projectId)
      + HeadProblems(bundle, DigestBefore(cps, |cps|), expectedHead)
      + AllEntryProblems(entries, |entries|, projectId, ThroughBefore(cps, |cps|))
  }

  function HeaderProblems(bundle: Fields): seq<Problem> {
    var projectId := Get(bundle, "project_id");
    If(!PyEq(Get(bundle, "format"), Str(FORMAT)) || !PyEq(Get(bundle, "version"), Int(VERSION)), UnsupportedFormat)
    + If(!projectId.Str? || projectId.s == "", MissingProjectId)
  }

  function HeadProblems(bundle: Fields, head: Value, expectedHead: Option<string>): seq<Problem> {
    If(!PyEq(Get(bundle, "head_digest"), head), HeadMismatch)
    + If(expectedHead.Some? && head != Str(expectedHead.value), ExpectedHeadMismatch)
  }

  /** The checks on one checkpoint object; `None` when they raise. */
  method CheckOne(ghost cps: seq<Value>, i: nat, cp: Fields, projectId: Value, previousDigest: Value, previousThrough: Value)
    returns (found: Option<seq<Problem>>)
    requires i < |cps| && cps[i] == Obj(cp)
    requires previousDigest == DigestBefore(cps, i) && previousThrough == ThroughBefore(cps, i)
    ensures found.None? <==> CheckpointRaises(cps, i)
    ensures found.Some? ==> found.value == CheckpointProblems(cps, i, projectId)
  {
    var errors := If(!PyEq(Get(cp, "project_id"), projectId), CheckpointProjectMismatch(i));
    errors := errors + If(!PyEq(Get(cp, "previous_digest"), previousDigest), PreviousDigestMismatch(i));
    errors := errors + If(!IsHexDigest(Get(cp, "digest")), InvalidDigest(i));
    if !IntegerRange(cp) {
      errors := errors + [RangeNotIntegers(i)];
    } else if !SoundRange(cp) {
      errors := errors + [InvalidRange(i)];
    } else if Incomparable(previousThrough) {
      return None;
    } else {
      errors := errors + If(NotAfter(Get(cp, "from_seq").n, previousThrough), OverlapsPrevious(i));
    }
    found := Some(errors);
  }

  /** One round of the checkpoint loop: an object replaces the carried digest and end. */
  method CheckAt(cps: seq<Value>, i: nat, projectId: Value, digest: Value, through: Value)
    returns (found: Option<seq<Problem>>, nextDigest: Value, nextThrough: Value)
    requires i < |cps| && digest == DigestBefore(cps, i) && through == ThroughBefore(cps, i)
    ensures found.None? <==> CheckpointRaises(cps, i)
    ensures found.Some? ==> found.value == CheckpointProblems(cps, i, projectId)
    ensures nextDigest == DigestBefore(cps, i + 1) && nextThrough == ThroughBefore(cps, i + 1)
  {
    if !cps[i].Obj? {
      return Some([CheckpointNotObject(i)]), digest, through;
    }
    var cp := cps[i].fields;
    found := CheckOne(cps, i, cp, projectId, digest, through);
    nextDigest, nextThrough := Get(cp, "digest"), Get(cp, "through_seq");
  }

  /** The checkpoint loop; returns the carried digest and end with the errors. */
  method CheckCheckpoints(cps: seq<Value>, projectId: Value)
    returns (found: Option<seq<Problem>>, digest: Value, through: Value)
    ensures found.None? <==> exists i :: 0 <= i < |cps| && CheckpointRaises(cps, i)
    ensures found.Some? ==> found.value == AllCheckpointProblems(cps, |cps|, projectId)
    ensures found.Some? ==> digest == DigestBefore(cps, |cps|) && through == ThroughBefore(cps, |cps|)
  {
    var errors: seq<Problem> := [];
    digest, through := Null, Null;
    for i := 0 to |cps|
      invariant forall j :: 0 <= j < i ==> !CheckpointRaises(cps, j)
      invariant digest == DigestBefore(cps, i) && through == ThroughBefore(cps, i)
      invariant errors == AllCheckpointProblems(cps, i, projectId)
    {
      found, digest, through := CheckAt(cps, i, projectId, digest, through);
      if found.None? {
        return;
      }
      errors := errors + found.value;
    }
    found := Some(errors);
  }

  /** The checks on one entry; `None` when they raise. */
  method CheckEntry(ghost entries: seq<Value>, i: nat, entry: Fields, projectId: Value, previous: Value, ghost end: Value)
    returns (found: Option<seq<Problem>>)
    requires i < |entries| && entries[i] == Obj(entry)
    requires previous == SeqBefore(entries, i, end)
    ensures found.None? <==> EntryRaises(entries, i, end)
    ensures found.Some? ==> found.value == EntryProblems(entries, i, projectId, end)
  {
    var errors := If(!PyEq(Get(entry, "project_id"), projectId), EntryProjectMismatch(i));
    var seqNo := Get(entry, "seq");
    if !seqNo.Int? {
      errors := errors + [EntryInvalidSeq(i)];
    } else if Incomparable(previous) {
      return None;
    } else {
      errors := errors + If(NotAfter(seqNo.n, previous), EntryOutOfOrder(i));
    }
    found := Some(errors);
  }

  /** The loop over live entries, which starts from the end of the checkpoints. */
  method CheckEntries(entries: seq<Value>, projectId: Value, end: Value) returns (found: Option<seq<Problem>>)
    ensures found.None? <==> exists i :: 0 <= i < |entries| && EntryRaises(entries, i, end)
    ensures found.Some? ==> found.value == AllEntryProblems(entries, |entries|, projectId, end)
  {
    var errors: seq<Problem> := [];
    var previous := end;
    for i := 0 to |entries|
      invariant forall j :: 0 <= j < i ==> !EntryRaises(entries, j, end)
      invariant previous == SeqBefore(entries, i, end)
      invariant errors == AllEntryProblems(entries, i, projectId, end)
    {
      if !entries[i].Obj? {
        errors := errors + [EntryNotObject(i)];
      } else {
        var entry := entries[i].fields;
        var more := CheckEntry(entries, i, entry, projectId, previous, end);
        if more.None? {
          return None;
        }
        errors := errors + more.value;
        previous := if Get(entry, "seq").Int? then Get(entry, "seq") else previous;
      }
    }
    found := Some(errors);
  }

  /** `verify_audit_chain_bundle`: raises exactly on `Raises`, reports exactly
      `Problems` otherwise, and so accepts exactly the well-formed chains. */
  method VerifyBundle(bundle: Fields, expectedHead: Option<string>) returns (v: Verdict)
    ensures v.Raised? <==> Raises(bundle)
    ensures v.Report? ==> v.errors == Problems(bundle, expectedHead) && v.ok == (v.errors == [])
    ensures v.Report? && v.ok <==> WellFormedChain(bundle, expectedHead)
  {
    if WellFormedChain(bundle, expectedHead) {
      WellFormedNeverRaises(bundle, expectedHead);
    }
    var errors := HeaderProblems(bundle);
    var projectId := Get(bundle, "project_id");
    if !Get(bundle, "checkpoints").Arr? || !Get(bundle, "audit_entries").Arr? {
      errors := errors + [NotArrays];
      assert errors == Problems(bundle, expectedHead);
      return Report(false, errors);
    }
    var cps, entries := Get(bundle, "checkpoints").items, Get(bundle, "audit_entries").items;
    var fromCheckpoints, head, through := CheckCheckpoints(cps, projectId);
    if fromCheckpoints.None? {
      return Raised;
    }
    var fromEntries := CheckEntries(entries, projectId, through);
    if fromEntries.None? {
      return Raised;
    }
    errors := errors + fromCheckpoints.value + HeadProblems(bundle, head, expectedHead) + fromEntries.value;
    v := Report(errors == [], errors);
  }

  /** A text `through_seq` makes the verifier raise at the next checkpoint instead
      of reporting the bundle as invalid. */
  lemma {:induction false} TextThroughSeqRaises(next: Fields)
    requires IntegerRange(next) && SoundRange(next)
    ensures Raises(map["checkpoints" := Arr([Obj(map["through_seq" := Str("2")]), Obj(next)]), "audit_entries" := Arr([])])
  {
    var cps := [Obj(map["through_seq" := Str("2")]), Obj(next)];
    assert ThroughBefore(cps, 1) == Str("2");
    assert CheckpointRaises(cps, 1);
  }
}
