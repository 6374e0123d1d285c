/** What the offline verifier accepts, between neighbouring records. */
module BundleEffects {
  import opened Wrappers
  import opened BundleVerifier

  /** Booleans count as 0 and 1, numbers are equal by value, and everything else to itself. */
  lemma {:induction false} EqualityIs(a: Value, b: Value)
    ensures a.Int? && b.Int? ==> (PyEq(a, b) <==> a.n == b.n)
    ensures a.Int? && b.Bool? ==> (PyEq(a, b) <==> PyEq(b, a)) && (PyEq(a, b) <==> a.n == if b.b then 1 else 0)
    ensures a.Int? && b.Float? ==> (PyEq(a, b) <==> PyEq(b, a)) && (PyEq(a, b) <==> a.n as real == b.r)
    ensures a.Float? && b.Bool? ==> (PyEq(a, b) <==> PyEq(b, a)) && (PyEq(a, b) <==> a.r == if b.b then 1.0 else 0.0)
    ensures a.Float? && b.Float? ==> (PyEq(a, b) <==> a.r == b.r)
    ensures a.Null? || a.Str? || a.Arr? || a.Obj? ==> (PyEq(a, b) <==> a == b)
    ensures b.Null? || b.Str? || b.Arr? || b.Obj? ==> (PyEq(a, b) <==> a == b)
  {
  }

  function Field(v: Value, key: string): Value {
    if v.Obj? && key in v.fields then v.fields[key] else Null
  }

  predicate Whole(v: Value, key: string) {
    Field(v, key).Int?
  }

  /** A checkpoint on its own: of the project, with a digest of 64 hexadecimal digits, and as
      many entries as its range has room for. */
  predicate CheckpointSound(cp: Value, projectId: Value) {
    && cp.Obj? && PyEq(Field(cp, "project_id"), projectId) && Field(cp, "digest").Str? && |Field(cp, "digest").s| == 64
    && (forall i :: 0 <= i < 64 ==> Field(cp, "digest").s[i] in "0123456789abcdef")
    && Whole(cp, "from_seq") && Whole(cp, "through_seq") && Whole(cp, "entry_count")
    && 1 <= Field(cp, "entry_count").n <= Field(cp, "through_seq").n - Field(cp, "from_seq").n + 1
  }

  /** It continues the one before it. */
  predicate Follows(cp: Value, before: Value)
    requires Whole(cp, "from_seq") && Whole(before, "through_seq")
  {
    PyEq(Field(cp, "previous_digest"), Field(before, "digest")) && Field(before, "through_seq").n < Field(cp, "from_seq").n
  }

  /** The first n checkpoints are sound, the first of them has no predecessor, and each other
      one continues the one before it. */
  ghost predicate Linked(cps: seq<Value>, projectId: Value, n: nat)
    requires n <= |cps|
  {
    && (forall i :: 0 <= i < n ==> CheckpointSound(cps[i], projectId))
    && (n > 0 ==> Field(cps[0], "previous_digest") == Null)
    && (forall i :: 0 < i < n ==> Follows(cps[i], cps[i - 1]))
  }

  /** A chain, by its neighbouring records: each checkpoint continues the one before it, the
      first has no predecessor, and the entries rise from the end of the last one. */
  ghost predicate Chained(cps: seq<Value>, entries: seq<Value>, projectId: Value) {
    && Linked(cps, projectId, |cps|)
    && (forall i :: 0 <= i < |entries| ==> entries[i].Obj? && PyEq(Field(entries[i], "project_id"), projectId) && Whole(entries[i], "seq"))
    && (|cps| > 0 && |entries| > 0 ==> Field(cps[|cps| - 1], "through_seq").n < Field(entries[0], "seq").n)
    && forall i :: 0 < i < |entries| ==> Field(entries[i - 1], "seq").n < Field(entries[i], "seq").n
  }

  /** The digest a chain ends on. */
  function Head(cps: seq<Value>): Value {
    if cps == [] then Null else Field(cps[|cps| - 1], "digest")
  }

  ghost predicate Acceptable(bundle: Fields, expectedHead: Option<string>) {
    var b := Obj(bundle);
    && Field(b, "format") == Str("context-memory-audit-chain") && PyEq(Field(b, "version"), Int(1))
    && Field(b, "project_id").Str? && Field(b, "project_id").s != ""
    && Field(b, "checkpoints").Arr? && Field(b, "audit_entries").Arr?
    && Chained(Field(b, "checkpoints").items, Field(b, "audit_entries").items, Field(b, "project_id"))
    && PyEq(Field(b, "head_digest"), Head(Field(b, "checkpoints").items))
    && (expectedHead.Some? ==> Head(Field(b, "checkpoints").items) == Str(expectedHead.value))
  }

  lemma {:induction false} HexIs(s: string)
    requires |s| == 64
    ensures IsHexDigest(Str(s)) <==> forall i :: 0 <= i < 64 ==> s[i] in "0123456789abcdef"
  {
    forall i | 0 <= i < 64 ensures s[i] in "0123456789abcdef" <==> ('0' <= s[i] <= '9' || 'a' <= s[i] <= 'f') {
      HexDigit(s[i]);
    }
  }

  lemma {:induction false} HexDigit(c: char)
    ensures c in "0123456789abcdef" <==> ('0' <= c <= '9' || 'a' <= c <= 'f')
  {
    var digits := "0123456789abcdef";
    if '0' <= c <= '9' {
      assert digits[c as int - '0' as int] == c;
    } else if 'a' <= c <= 'f' {
      assert digits[10 + (c as int - 'a' as int)] == c;
    }
  }

  lemma {:induction false} CheckpointIs(cps: seq<Value>, i: nat, projectId: Value)
    requires i < |cps| && (i > 0 ==> CheckpointSound(cps[i - 1], projectId))
    ensures GoodCheckpoint(cps, i, projectId) <==> Extends(cps, projectId, i)
  {
    var digest := Field(cps[i], "digest");
    if digest.Str? && |digest.s| == 64 {
      HexIs(digest.s);
    }
  }

  /** The same, checkpoint by checkpoint. */
  ghost predicate LinkedTo(cps: seq<Value>, projectId: Value, n: nat)
    requires n <= |cps|
  {
    n == 0 || (LinkedTo(cps, projectId, n - 1) && Extends(cps, projectId, n - 1))
  }

  predicate Extends(cps: seq<Value>, projectId: Value, i: nat)
    requires i < |cps|
  {
    && CheckpointSound(cps[i], projectId)
    && if i == 0 then Field(cps[0], "previous_digest") == Null else Whole(cps[i - 1], "through_seq") && Follows(cps[i], cps[i - 1])
  }

  ghost predicate GoodTo(cps: seq<Value>, projectId: Value, n: nat)
    requires n <= |cps|
  {
    n == 0 || (GoodTo(cps, projectId, n - 1) && GoodCheckpoint(cps, n - 1, projectId))
  }

  lemma {:induction false} LinkedToIs(cps: seq<Value>, projectId: Value, n: nat)
    requires n <= |cps|
    ensures LinkedTo(cps, projectId, n) <==> Linked(cps, projectId, n)
  {
    if n > 0 {
      LinkedToIs(cps, projectId, n - 1);
    }
  }

  lemma {:induction false} GoodToIs(cps: seq<Value>, projectId: Value, n: nat)
    requires n <= |cps|
    ensures GoodTo(cps, projectId, n) <==> forall i :: 0 <= i < n ==> GoodCheckpoint(cps, i, projectId)
  {
    if n > 0 {
      GoodToIs(cps, projectId, n - 1);
    }
  }

  lemma {:induction false} CheckpointsAre(cps: seq<Value>, projectId: Value, n: nat)
    requires n <= |cps|
    ensures GoodTo(cps, projectId, n) <==> LinkedTo(cps, projectId, n)
  {
    if n == 0 {
      return;
    }
    CheckpointsAre(cps, projectId, n - 1);
    if LinkedTo(cps, projectId, n - 1) {
      CheckpointIs(cps, n - 1, projectId);
    }
  }

  lemma {:induction false} LastEntry(entries: seq<Value>, n: nat, end: Value)
    requires n <= |entries| && (n > 0 ==> Whole(entries[n - 1], "seq"))
    ensures SeqBefore(entries, n, end) == if n == 0 then end else Field(entries[n - 1], "seq")
  {
  }

  lemma {:induction false} EntryIs(entries: seq<Value>, i: nat, projectId: Value, end: Value)
    requires i < |entries| && (end.Null? || end.Int?) && (i > 0 ==> Whole(entries[i - 1], "seq"))
    ensures GoodEntry(entries, i, projectId, end) <==>
      && entries[i].Obj? && PyEq(Field(entries[i], "project_id"), projectId) && Whole(entries[i], "seq")
      && (i == 0 && end.Int? ==> end.n < Field(entries[0], "seq").n)
      && (i > 0 ==> Field(entries[i - 1], "seq").n < Field(entries[i], "seq").n)
  {
    LastEntry(entries, i, end);
  }

  lemma {:induction false} EntriesAre(entries: seq<Value>, n: nat, projectId: Value, end: Value)
    requires n <= |entries| && (end.Null? || end.Int?)
    ensures (forall i :: 0 <= i < n ==> GoodEntry(entries, i, projectId, end)) <==>
      && (forall i :: 0 <= i < n ==> entries[i].Obj? && PyEq(Field(entries[i], "project_id"), projectId) && Whole(entries[i], "seq"))
      && (n > 0 && end.Int? ==> end.n < Field(entries[0], "seq").n)
      && (forall i :: 0 < i < n ==> Field(entries[i - 1], "seq").n < Field(entries[i], "seq").n)
  {
    if n == 0 {
      return;
    }
    EntriesAre(entries, n - 1, projectId, end);
    if n == 1 || Whole(entries[n - 2], "seq") {
      EntryIs(entries, n - 1, projectId, end);
    }
  }

  /** The verifier accepts exactly these bundles. */
  lemma {:induction false} AcceptsExactly(bundle: Fields, expectedHead: Option<string>)
    ensures WellFormedChain(bundle, expectedHead) <==> Acceptable(bundle, expectedHead)
  {
    var b := Obj(bundle);
    if !Field(b, "checkpoints").Arr? || !Field(b, "audit_entries").Arr? {
      return;
    }
    var cps, entries, projectId := Field(b, "checkpoints").items, Field(b, "audit_entries").items, Field(b, "project_id");
    GoodToIs(cps, projectId, |cps|);
    CheckpointsAre(cps, projectId, |cps|);
    LinkedToIs(cps, projectId, |cps|);
    if Linked(cps, projectId, |cps|) {
      assert DigestBefore(cps, |cps|) == Head(cps);
      EntriesAre(entries, |entries|, projectId, ThroughBefore(cps, |cps|));
    }
  }
}
