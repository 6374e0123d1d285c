/** Concurrent consumers of the event stream. A poll is three statements outside
    one transaction (read the receipt, read the page, upsert the receipt), and the
    page read itself takes a snapshot and then selects rows, so every statement here
    is a step of its own and other writers run between them. */
module EventReceipts {
  import opened Wrappers
  import opened Text
  import opened EventStream

  /** Where a poll in flight has got to. */
  datatype Poll =
    | NeedSnapshot(key: Stream, limit: int, cursor: int)
    | NeedRows(key: Stream, limit: int, cursor: int, snapshot: int)
    | NeedUpsert(key: Stream, cursor: int, page: Page, skipped: seq<Event>)

  /** The tables, the polls in flight, and a record of what polls have returned:
      `returned` and `expired` hold (stream, sequence number) pairs. */
  datatype State = State(
    rows: map<Id, seq<Event>>,
    receipts: map<Stream, Receipt>,
    polls: map<nat, Poll>,
    returned: set<(Stream, nat)>,
    expired: set<(Stream, nat)>)

  datatype Action =
    | CreateProject(p: Id)
    | Append(p: Id, id: Id, kind: string, scopeId: Option<Id>, content: string, expiry: Expiry)
    | Begin(poll: nat, key: Stream, limit: int)
    | TakeSnapshot(poll: nat)
    | SelectRows(poll: nat, now: int)
    | Upsert(poll: nat)
    | Acknowledge(key: Stream, cursor: int)
    | Crash(poll: nat)

  const Initial := State(map[], map[], map[], {}, {})

  /** The rows a page read and left out because they were expired messages. */
  function Skipped(rows: seq<Event>, now: int): seq<Event> {
    if rows == [] then []
    else if Expired(rows[|rows| - 1], now) then Skipped(rows[..|rows| - 1], now) + [rows[|rows| - 1]]
    else Skipped(rows[..|rows| - 1], now)
  }

  function Marks(k: Stream, rows: seq<Event>): set<(Stream, nat)> {
    set e | e in rows :: (k, e.seqNo)
  }

  predicate ValidRead(k: Stream, limit: int) {
    1 <= limit <= 1000 && forall kind :: kind in k.kinds ==> !Blank(kind)
  }

  /** One atomic statement; a step that is not enabled changes nothing, and a poll
      that raises disappears. */
  function Step(s: State, a: Action): State {
    match a
    case CreateProject(p) =>
      if p in s.rows then s else s.(rows := s.rows[p := []])
    case Append(p, id, kind, scopeId, content, expiry) =>
      if p !in s.rows then s
      else s.(rows := s.rows[p := s.rows[p] + [Event(id, kind, scopeId, content, expiry, |s.rows[p]| + 1)]])
    case Begin(i, key, limit) =>
      if i in s.polls || key.consumerId == "" then s
      else s.(polls := s.polls[i := NeedSnapshot(key, limit, AcknowledgedOf(s.receipts, key))])
    case TakeSnapshot(i) =>
      if i !in s.polls || !s.polls[i].NeedSnapshot? then s
      else
        var poll := s.polls[i];
        if !ValidRead(poll.key, poll.limit) || poll.key.projectId !in s.rows then s.(polls := s.polls - {i})
        else s.(polls := s.polls[i := NeedRows(poll.key, poll.limit, poll.cursor, |s.rows[poll.key.projectId]|)])
    case SelectRows(i, now) =>
      if i !in s.polls || !s.polls[i].NeedRows? || s.polls[i].key.projectId !in s.rows || s.polls[i].limit <= 0 then s
      else if Raises(s.rows[s.polls[i].key.projectId], s.polls[i], now) then s.(polls := s.polls - {i})
      else s.(polls := s.polls[i := PageRead(s.rows[s.polls[i].key.projectId], s.polls[i], now)])
    case Upsert(i) =>
      if i !in s.polls || !s.polls[i].NeedUpsert? then s
      else
        var poll := s.polls[i];
        State(s.rows,
              UpsertReceipt(s.receipts, poll.key, poll.cursor, Max(poll.cursor, poll.page.nextCursor)),
              s.polls - {i},
              s.returned + Marks(poll.key, poll.page.events),
              s.expired + Marks(poll.key, poll.skipped))
    case Acknowledge(key, cursor) =>
      if cursor < 0 || AcknowledgeError(s.receipts, key, cursor).Some? then s
      else s.(receipts := s.receipts[key := s.receipts[key].(acknowledged := cursor)])
    case Crash(i) => s.(polls := s.polls - {i})
  }

  predicate Raises(rows: seq<Event>, poll: Poll, now: int)
    requires poll.NeedRows? && poll.limit > 0
  {
    ReadEvents(rows, FilterOf(poll.key), poll.cursor, poll.snapshot, poll.limit, now).Err?
  }

  function PageRead(rows: seq<Event>, poll: Poll, now: int): Poll
    requires poll.NeedRows? && poll.limit > 0
  {
    var page := ReadPage(rows, FilterOf(poll.key), poll.cursor, poll.snapshot, poll.limit, now);
    NeedUpsert(poll.key, poll.cursor, page,
               Skipped(Take(Query(rows, FilterOf(poll.key), poll.cursor, poll.snapshot), poll.limit), now))
  }

  function Run(actions: seq<Action>): State {
    if actions == [] then Initial else Step(Run(actions[..|actions| - 1]), actions[|actions| - 1])
  }

  // ---------------------------------------------------------------------
  // The invariant
  // ---------------------------------------------------------------------

  /** Event number n of stream k was returned by a completed poll, or was an expired
      message when a completed poll read it. */
  predicate Accounted(s: State, k: Stream, n: nat) {
    (k, n) in s.returned || (k, n) in s.expired
  }

  predicate Wants(s: State, k: Stream, n: nat) {
    && k.projectId in s.rows
    && 1 <= n <= |s.rows[k.projectId]|
    && Matches(FilterOf(k), s.rows[k.projectId][n - 1])
  }

  /** Reading event number n of the stream's project does not raise. */
  predicate Legible(s: State, k: Stream, n: nat)
    requires Wants(s, k, n)
  {
    ReadError(s.rows[k.projectId][n - 1]).None?
  }

  /** Every event the stream wants up to `cursor` could be read, and is accounted for. */
  ghost predicate CoveredTo(s: State, k: Stream, cursor: int) {
    forall n: nat :: n <= cursor && Wants(s, k, n) ==> Accounted(s, k, n) && Legible(s, k, n)
  }

  function Length(s: State, k: Stream): int {
    if k.projectId in s.rows then |s.rows[k.projectId]| else 0
  }

  ghost predicate ReceiptOk(s: State, k: Stream)
    requires k in s.receipts
  {
    var r := s.receipts[k];
    0 <= r.acknowledged <= r.delivered <= Length(s, k) && CoveredTo(s, k, r.delivered)
  }

  ghost predicate PollOk(s: State, poll: Poll) {
    && 0 <= poll.cursor <= Length(s, poll.key)
    && CoveredTo(s, poll.key, poll.cursor)
    && match poll
       case NeedSnapshot(_, _, _) => true
       case NeedRows(k, limit, cursor, snapshot) => 0 < limit && k.projectId in s.rows && cursor <= snapshot <= Length(s, k)
       case NeedUpsert(k, cursor, page, skipped) =>
         && cursor <= page.nextCursor <= Length(s, k)
         && forall n: nat :: cursor < n <= page.nextCursor && Wants(s, k, n) ==>
              Legible(s, k, n) && ((k, n) in Marks(k, page.events) || (k, n) in Marks(k, skipped))
  }

  ghost predicate Inv(s: State) {
    && (forall p :: p in s.rows ==> Dense(s.rows[p]))
    && (forall k :: k in s.receipts ==> ReceiptOk(s, k))
    && (forall i :: i in s.polls ==> PollOk(s, s.polls[i]))
  }

  // ---------------------------------------------------------------------
  // What a page read accounts for
  // ---------------------------------------------------------------------

  lemma {:induction false} VisibleOrSkipped(rows: seq<Event>, now: int, e: Event)
    requires e in rows
    ensures e in Visible(rows, now) || e in Skipped(rows, now)
  {
    if e != rows[|rows| - 1] {
      VisibleOrSkipped(rows[..|rows| - 1], now, e);
    }
  }

  /** Each wanted event of the page's range is shown by it or was left out as expired. */
  lemma {:induction false} PageHolds(rows: seq<Event>, f: Filter, cursor: int, snapshot: int, limit: nat, now: int, n: nat, page: Page)
    requires Dense(rows) && limit > 0 && cursor <= snapshot <= |rows|
    requires page == ReadPage(rows, f, cursor, snapshot, limit, now)
    requires cursor < n <= page.nextCursor && 1 <= n <= |rows| && Matches(f, rows[n - 1])
    ensures rows[n - 1] in Query(rows, f, cursor, page.nextCursor)
    ensures rows[n - 1] in page.events || rows[n - 1] in Skipped(Take(Query(rows, f, cursor, snapshot), limit), now)
  {
    PageCovers(rows, f, cursor, snapshot, limit, now);
    TakenIsRange(rows, f, cursor, snapshot, limit, now);
    QueryExact(rows, f, cursor, page.nextCursor);
    VisibleOrSkipped(Query(rows, f, cursor, page.nextCursor), now, rows[n - 1]);
  }

  lemma {:induction false} PageAccounts(s: State, poll: Poll, now: int, after: Poll)
    requires Inv(s) && PollOk(s, poll) && poll.NeedRows?
    requires after == PageRead(s.rows[poll.key.projectId], poll, now) && !Raises(s.rows[poll.key.projectId], poll, now)
    ensures PollOk(s, after)
  {
    var k, rows := poll.key, s.rows[poll.key.projectId];
    PageCovers(rows, FilterOf(k), poll.cursor, poll.snapshot, poll.limit, now);
    ReadCovers(rows, FilterOf(k), poll.cursor, poll.snapshot, poll.limit, now);
    forall n: nat | poll.cursor < n <= after.page.nextCursor && Wants(s, k, n)
      ensures Legible(s, k, n)
      ensures (k, n) in Marks(k, after.page.events) || (k, n) in Marks(k, after.skipped)
    {
      PageHolds(rows, FilterOf(k), poll.cursor, poll.snapshot, poll.limit, now, n, after.page);
      assert rows[n - 1].seqNo == n;
    }
  }

  // ---------------------------------------------------------------------
  // Every step keeps the invariant
  // ---------------------------------------------------------------------

  /** Growing the tables keeps what was covered covered: new events lie beyond
      every cursor, and marks are never removed. */
  predicate Extends(s: State, t: State) {
    && (forall p :: p in s.rows ==> p in t.rows && s.rows[p] <= t.rows[p])
    && (forall p :: p in t.rows && p !in s.rows ==> t.rows[p] == [])
    && s.returned <= t.returned && s.expired <= t.expired
  }

  lemma {:induction false} CoveredExtends(s: State, t: State, k: Stream, cursor: int)
    requires Extends(s, t)
    requires CoveredTo(s, k, cursor) && cursor <= Length(s, k)
    ensures CoveredTo(t, k, cursor)
  {
    forall n: nat | n <= cursor && Wants(t, k, n) ensures Accounted(t, k, n) && Legible(t, k, n) {
      assert Wants(s, k, n);
    }
  }

  lemma {:induction false} PollExtends(s: State, t: State, poll: Poll)
    requires Extends(s, t) && PollOk(s, poll)
    ensures PollOk(t, poll)
  {
    CoveredExtends(s, t, poll.key, poll.cursor);
    if poll.NeedUpsert? {
      forall n: nat | poll.cursor < n <= poll.page.nextCursor && Wants(t, poll.key, n)
        ensures Wants(s, poll.key, n) && Legible(t, poll.key, n)
      {
        assert Wants(s, poll.key, n);
      }
    }
  }

  lemma {:induction false} ReceiptExtends(s: State, t: State, k: Stream)
    requires Extends(s, t)
    requires k in s.receipts && k in t.receipts && s.receipts[k] == t.receipts[k]
    requires ReceiptOk(s, k)
    ensures ReceiptOk(t, k)
  {
    CoveredExtends(s, t, k, s.receipts[k].delivered);
  }

  lemma {:induction false} AllExtend(s: State, t: State)
    requires Inv(s) && Extends(s, t)
    requires forall p :: p in t.rows ==> Dense(t.rows[p])
    requires t.receipts == s.receipts && t.polls == s.polls
    ensures Inv(t)
  {
    forall k | k in t.receipts ensures ReceiptOk(t, k) {
      ReceiptExtends(s, t, k);
    }
    forall i | i in t.polls ensures PollOk(t, t.polls[i]) {
      PollExtends(s, t, t.polls[i]);
    }
  }

  /** Starting a poll: everything up to the acknowledged cursor was delivered. */
  lemma {:induction false} BeginKeeps(s: State, key: Stream, limit: int)
    requires Inv(s)
    ensures PollOk(s, NeedSnapshot(key, limit, AcknowledgedOf(s.receipts, key)))
  {
    if key in s.receipts {
      assert ReceiptOk(s, key);
    }
  }

  lemma {:induction false} UpsertKeeps(s: State, i: nat)
    requires Inv(s) && i in s.polls && s.polls[i].NeedUpsert?
    ensures Inv(Step(s, Upsert(i)))
  {
    var t, poll := Step(s, Upsert(i)), s.polls[i];
    var key := poll.key;
    assert PollOk(s, poll);
    assert Extends(s, t);
    forall k | k in t.receipts ensures ReceiptOk(t, k) {
      if k != key {
        ReceiptExtends(s, t, k);
      } else {
        CoveredExtends(s, t, key, poll.cursor);
        if key in s.receipts {
          assert ReceiptOk(s, key);
          CoveredExtends(s, t, key, s.receipts[key].delivered);
        }
        UpsertCovers(s, t, poll);
      }
    }
    forall j | j in t.polls ensures PollOk(t, t.polls[j]) {
      PollExtends(s, t, t.polls[j]);
    }
  }

  lemma {:induction false} UpsertCovers(s: State, t: State, poll: Poll)
    requires poll.NeedUpsert? && PollOk(s, poll)
    requires t.rows == s.rows
    requires CoveredTo(t, poll.key, poll.cursor)
    requires Marks(poll.key, poll.page.events) <= t.returned && Marks(poll.key, poll.skipped) <= t.expired
    ensures CoveredTo(t, poll.key, poll.page.nextCursor)
  {
    forall n: nat | n <= poll.page.nextCursor && Wants(t, poll.key, n)
      ensures Accounted(t, poll.key, n) && Legible(t, poll.key, n)
    {
      assert Wants(s, poll.key, n);
    }
  }

  lemma {:induction false} ReceiptsOnly(s: State, key: Stream, r: Receipt)
    requires Inv(s) && key in s.receipts
    requires 0 <= r.acknowledged <= r.delivered == s.receipts[key].delivered
    ensures Inv(s.(receipts := s.receipts[key := r]))
  {
    var t := s.(receipts := s.receipts[key := r]);
    assert Extends(s, t);
    forall k | k in t.receipts ensures ReceiptOk(t, k) {
      assert ReceiptOk(s, k);
      CoveredExtends(s, t, k, s.receipts[k].delivered);
    }
    forall i | i in t.polls ensures PollOk(t, t.polls[i]) {
      PollExtends(s, t, t.polls[i]);
    }
  }

  lemma {:induction false} PollsOnly(s: State, polls: map<nat, Poll>)
    requires Inv(s)
    requires forall i :: i in polls ==> PollOk(s, polls[i])
    ensures Inv(s.(polls := polls))
  {
    var t := s.(polls := polls);
    assert Extends(s, t);
    forall k | k in t.receipts ensures ReceiptOk(t, k) {
      ReceiptExtends(s, t, k);
    }
    forall i | i in t.polls ensures PollOk(t, t.polls[i]) {
      PollExtends(s, t, t.polls[i]);
    }
  }

  lemma {:induction false} PollStepKeepsInv(s: State, a: Action)
    requires Inv(s)
    requires a.Begin? || a.TakeSnapshot? || a.SelectRows? || a.Crash?
    ensures Inv(Step(s, a))
  {
    var t := Step(s, a);
    if t != s {
      if a.Begin? {
        BeginKeeps(s, a.key, a.limit);
      } else if a.SelectRows? && a.poll in t.polls {
        var poll := s.polls[a.poll];
        PageAccounts(s, poll, a.now, PageRead(s.rows[poll.key.projectId], poll, a.now));
      }
      PollsOnly(s, t.polls);
    }
  }

  lemma {:induction false} TableStepKeepsInv(s: State, a: Action)
    requires Inv(s)
    requires a.CreateProject? || a.Append?
    ensures Inv(Step(s, a))
  {
    AllExtend(s, Step(s, a));
  }

  lemma {:induction false} StepKeepsInv(s: State, a: Action)
    requires Inv(s)
    ensures Inv(Step(s, a))
  {
    match a {
      case CreateProject(_) => TableStepKeepsInv(s, a);
      case Append(_, _, _, _, _, _) => TableStepKeepsInv(s, a);
      case Upsert(i) =>
        if Step(s, a) != s {
          UpsertKeeps(s, i);
        }
      case Acknowledge(key, cursor) =>
        if Step(s, a) != s {
          ReceiptsOnly(s, key, Step(s, a).receipts[key]);
        }
      case _ => PollStepKeepsInv(s, a);
    }
  }

  lemma {:induction false} RunKeepsInv(actions: seq<Action>)
    ensures Inv(Run(actions))
  {
    if actions != [] {
      RunKeepsInv(actions[..|actions| - 1]);
      StepKeepsInv(Run(actions[..|actions| - 1]), actions[|actions| - 1]);
    }
  }

  // ---------------------------------------------------------------------
  // Main results
  // ---------------------------------------------------------------------

  /** In every reachable state each stream's cursors are ordered, and every event up
      to the delivered cursor that the stream wants was returned by a completed poll
      or was expired when one read it: nothing is lost. */
  lemma {:induction false} NothingLost(actions: seq<Action>, k: Stream, n: nat)
    ensures var s := Run(actions);
      && 0 <= AcknowledgedOf(s.receipts, k) <= DeliveredOf(s.receipts, k) <= Length(s, k)
      && (n <= DeliveredOf(s.receipts, k) && Wants(s, k, n) ==> Accounted(s, k, n))
  {
    var s := Run(actions);
    RunKeepsInv(actions);
    if k in s.receipts {
      assert ReceiptOk(s, k);
    }
  }

  /** In every reachable state no stream's cursors have reached a wanted event that cannot
      be read: no consumer ever gets past it. */
  lemma {:induction false} NeverPastUnreadable(actions: seq<Action>, k: Stream, n: nat)
    requires Wants(Run(actions), k, n) && !Legible(Run(actions), k, n)
    ensures AcknowledgedOf(Run(actions).receipts, k) <= DeliveredOf(Run(actions).receipts, k) < n
  {
    var s := Run(actions);
    RunKeepsInv(actions);
    if k in s.receipts {
      assert ReceiptOk(s, k);
    }
  }

  /** A stream whose first event is a message with a number as its `expires_at`. */
  function BadStart(p: Id): seq<Action> {
    [CreateProject(p), Append(p, BADEXPIRY.id, BADEXPIRY.kind, BADEXPIRY.scopeId, BADEXPIRY.content, BADEXPIRY.expiry)]
  }

  lemma {:induction false} StepRows(s: State, a: Action, p: Id)
    requires p in s.rows
    ensures p in Step(s, a).rows && s.rows[p] <= Step(s, a).rows[p]
  {
  }

  lemma {:induction false} RowsGrow(actions: seq<Action>, more: seq<Action>, p: Id)
    requires p in Run(actions).rows
    ensures p in Run(actions + more).rows && Run(actions).rows[p] <= Run(actions + more).rows[p]
  {
    if more == [] {
      assert actions + more == actions;
      return;
    }
    var front := more[..|more| - 1];
    RowsGrow(actions, front, p);
    RunExtends(actions, more);
    StepRows(Run(actions + front), more[|more| - 1], p);
  }

  /** Whatever happens afterwards, no consumer of messages is delivered anything. */
  lemma {:induction false} BadStartBlocks(k: Stream, more: seq<Action>)
    requires k.kinds == {} || "message" in k.kinds
    ensures DeliveredOf(Run(BadStart(k.projectId) + more).receipts, k) == 0
  {
    var start := BadStart(k.projectId);
    assert start[..1] == [CreateProject(k.projectId)] && start[..1][..0] == [];
    assert Run(start[..1]).rows == map[k.projectId := []];
    assert Run(start).rows[k.projectId] == [BADEXPIRY];
    RowsGrow(start, more, k.projectId);
    var rows := Run(start + more).rows[k.projectId];
    assert rows[0] == BADEXPIRY;
    assert Wants(Run(start + more), k, 1);
    NeverPastUnreadable(start + more, k, 1);
    NothingLost(start + more, k, 1);
  }

  // ---------------------------------------------------------------------
  // What the records of a run mean
  // ---------------------------------------------------------------------

  /** The row is a stored one that the stream wants. */
  predicate Stored(s: State, k: Stream, e: Event) {
    && k.projectId in s.rows && 1 <= e.seqNo <= |s.rows[k.projectId]| && s.rows[k.projectId][e.seqNo - 1] == e
    && Matches(FilterOf(k), e)
  }

  /** A message with a date on which it expires. */
  predicate CanExpire(e: Event) {
    e.kind == "message" && e.expiry.At?
  }

  /** Pages in flight hold stored events, and leave out messages that can expire only. */
  ghost predicate PagesOk(s: State) {
    forall i :: i in s.polls && s.polls[i].NeedUpsert? ==>
      && (forall e :: e in s.polls[i].page.events ==> Stored(s, s.polls[i].key, e))
      && (forall e :: e in s.polls[i].skipped ==> Stored(s, s.polls[i].key, e) && CanExpire(e))
  }

  ghost predicate MarksOk(s: State) {
    && (forall k, n :: (k, n) in s.returned ==> Wants(s, k, n))
    && (forall k, n :: (k, n) in s.expired ==> Wants(s, k, n) && CanExpire(s.rows[k.projectId][n - 1]))
  }

  lemma {:induction false} SkippedExpire(rows: seq<Event>, now: int)
    ensures forall e :: e in Skipped(rows, now) ==> e in rows && CanExpire(e) && e.expiry.time <= now
  {
    if rows != [] {
      SkippedExpire(rows[..|rows| - 1], now);
    }
  }

  lemma {:induction false} VisibleMembers(rows: seq<Event>, now: int)
    ensures forall e :: e in Visible(rows, now) ==> e in rows
  {
    if rows != [] {
      VisibleMembers(rows[..|rows| - 1], now);
    }
  }

  lemma {:induction false} TakenStored(s: State, k: Stream, lo: int, hi: int, limit: nat, taken: seq<Event>)
    requires k.projectId in s.rows && Dense(s.rows[k.projectId])
    requires taken == Take(Query(s.rows[k.projectId], FilterOf(k), lo, hi), limit)
    ensures forall e :: e in taken ==> Stored(s, k, e)
  {
    var rows := s.rows[k.projectId];
    QueryExact(rows, FilterOf(k), lo, hi);
    forall e | e in taken ensures Stored(s, k, e) {
      assert e in Query(rows, FilterOf(k), lo, hi);
      var i :| 0 <= i < |rows| && rows[i] == e;
    }
  }

  lemma {:induction false} PageStored(s: State, poll: Poll, now: int, after: Poll)
    requires poll.NeedRows? && poll.limit > 0 && poll.key.projectId in s.rows && Dense(s.rows[poll.key.projectId])
    requires after == PageRead(s.rows[poll.key.projectId], poll, now)
    ensures forall e :: e in after.page.events ==> Stored(s, poll.key, e)
    ensures forall e :: e in after.skipped ==> Stored(s, poll.key, e) && CanExpire(e) && e.expiry.time <= now
  {
    var rows := s.rows[poll.key.projectId];
    var taken := Take(Query(rows, FilterOf(poll.key), poll.cursor, poll.snapshot), poll.limit);
    TakenStored(s, poll.key, poll.cursor, poll.snapshot, poll.limit, taken);
    VisibleMembers(taken, now);
    SkippedExpire(taken, now);
    assert after.page.events == Visible(taken, now) && after.skipped == Skipped(taken, now);
  }

  lemma {:induction false} StoredExtends(s: State, t: State)
    requires Extends(s, t) && PagesOk(s) && MarksOk(s) && t.polls == s.polls && t.returned == s.returned && t.expired == s.expired
    ensures PagesOk(t) && MarksOk(t)
  {
    forall k, e | Stored(s, k, e) ensures Stored(t, k, e) {
    }
    forall k, n: nat | Wants(s, k, n) ensures Wants(t, k, n) && t.rows[k.projectId][n - 1] == s.rows[k.projectId][n - 1] {
    }
  }

  lemma {:induction false} UpsertMarks(s: State, i: nat)
    requires PagesOk(s) && MarksOk(s) && i in s.polls && s.polls[i].NeedUpsert?
    ensures PagesOk(Step(s, Upsert(i))) && MarksOk(Step(s, Upsert(i)))
  {
    var t, poll := Step(s, Upsert(i)), s.polls[i];
    forall k, n | (k, n) in t.returned ensures Wants(t, k, n) {
      if (k, n) !in s.returned {
        var e :| e in poll.page.events && (k, n) == (poll.key, e.seqNo);
        assert Stored(s, poll.key, e);
      } else {
        assert Wants(s, k, n);
      }
    }
    forall k, n | (k, n) in t.expired ensures Wants(t, k, n) && CanExpire(t.rows[k.projectId][n - 1]) {
      if (k, n) !in s.expired {
        var e :| e in poll.skipped && (k, n) == (poll.key, e.seqNo);
        assert Stored(s, poll.key, e);
      } else {
        assert Wants(s, k, n);
      }
    }
    forall j | j in t.polls && t.polls[j].NeedUpsert?
      ensures forall e :: e in t.polls[j].page.events ==> Stored(t, t.polls[j].key, e)
      ensures forall e :: e in t.polls[j].skipped ==> Stored(t, t.polls[j].key, e) && CanExpire(e)
    {
      assert t.polls[j] == s.polls[j];
    }
  }

  lemma {:induction false} SelectMarks(s: State, i: nat, now: int)
    requires Inv(s) && PagesOk(s) && MarksOk(s)
    ensures PagesOk(Step(s, SelectRows(i, now))) && MarksOk(Step(s, SelectRows(i, now)))
  {
    var t := Step(s, SelectRows(i, now));
    if t != s && i in t.polls {
      PageStored(s, s.polls[i], now, t.polls[i]);
    }
    forall j | j in t.polls && t.polls[j].NeedUpsert?
      ensures forall e :: e in t.polls[j].page.events ==> Stored(t, t.polls[j].key, e)
      ensures forall e :: e in t.polls[j].skipped ==> Stored(t, t.polls[j].key, e) && CanExpire(e)
    {
      if t != s && j != i {
        assert t.polls[j] == s.polls[j];
      }
    }
    MarksSame(s, t);
  }

  lemma {:induction false} MarksSame(s: State, t: State)
    requires MarksOk(s) && t.rows == s.rows && t.returned == s.returned && t.expired == s.expired
    ensures MarksOk(t)
  {
    forall k, n: nat | Wants(s, k, n) ensures Wants(t, k, n) {
    }
  }

  lemma {:induction false} StepMarks(s: State, a: Action)
    requires Inv(s) && PagesOk(s) && MarksOk(s)
    ensures PagesOk(Step(s, a)) && MarksOk(Step(s, a))
  {
    var t := Step(s, a);
    if t == s {
      return;
    }
    if a.CreateProject? || a.Append? {
      StoredExtends(s, t);
      return;
    }
    if a.Upsert? {
      UpsertMarks(s, a.poll);
      return;
    }
    if a.SelectRows? {
      SelectMarks(s, a.poll, a.now);
      return;
    }
    OtherMarks(s, a, t);
  }

  lemma {:induction false} OtherMarks(s: State, a: Action, t: State)
    requires PagesOk(s) && MarksOk(s) && t == Step(s, a) && (a.Begin? || a.TakeSnapshot? || a.Acknowledge? || a.Crash?)
    ensures PagesOk(t) && MarksOk(t)
  {
    MarksSame(s, t);
    forall i | i in t.polls && t.polls[i].NeedUpsert?
      ensures forall e :: e in t.polls[i].page.events ==> Stored(t, t.polls[i].key, e)
      ensures forall e :: e in t.polls[i].skipped ==> Stored(t, t.polls[i].key, e) && CanExpire(e)
    {
      assert t.polls[i] == s.polls[i];
      forall e | Stored(s, s.polls[i].key, e) ensures Stored(t, s.polls[i].key, e) {
      }
    }
  }

  /** In every run, what is recorded as returned is a stored event the stream wants, and what
      is recorded as expired is such a message with a date. */
  lemma {:induction false} RecordsMean(actions: seq<Action>, k: Stream, n: nat)
    ensures (k, n) in Run(actions).returned ==> Wants(Run(actions), k, n)
    ensures (k, n) in Run(actions).expired ==>
      Wants(Run(actions), k, n)
      && Run(actions).rows[k.projectId][n - 1].kind == "message" && Run(actions).rows[k.projectId][n - 1].expiry.At?
  {
    RunMarks(actions);
  }

  lemma {:induction false} RunMarks(actions: seq<Action>)
    ensures PagesOk(Run(actions)) && MarksOk(Run(actions))
  {
    if actions != [] {
      RunMarks(actions[..|actions| - 1]);
      RunKeepsInv(actions[..|actions| - 1]);
      StepMarks(Run(actions[..|actions| - 1]), actions[|actions| - 1]);
    }
  }

  // ---------------------------------------------------------------------
  // What the steps of one poll, and an acknowledgement, come to
  // ---------------------------------------------------------------------

  /** The four steps of a poll, one after the other. */
  function PollSteps(i: nat, key: Stream, limit: int, now: int): seq<Action> {
    [Begin(i, key, limit), TakeSnapshot(i), SelectRows(i, now), Upsert(i)]
  }

  function StepAll(s: State, actions: seq<Action>): State {
    if actions == [] then s else Step(StepAll(s, actions[..|actions| - 1]), actions[|actions| - 1])
  }

  lemma {:induction false} StepFour(s: State, a: Action, b: Action, c: Action, d: Action)
    ensures StepAll(s, [a, b, c, d]) == Step(Step(Step(Step(s, a), b), c), d)
  {
    assert [a, b, c, d][..3] == [a, b, c] && [a, b, c][..2] == [a, b] && [a, b][..1] == [a] && [a][..0] == [];
    assert StepAll(s, [a]) == Step(s, a);
    assert StepAll(s, [a, b]) == Step(Step(s, a), b);
    assert StepAll(s, [a, b, c]) == Step(Step(Step(s, a), b), c);
  }

  /** The cursor from which a stream is polled. */
  function StartCursor(s: State, key: Stream): int {
    if key in s.receipts then s.receipts[key].acknowledged else 0
  }

  lemma {:induction false} PollReads(s: State, i: nat, key: Stream, limit: int, now: int, page: Page) returns (t: State)
    requires i !in s.polls && key.consumerId != "" && key.projectId in s.rows
    requires 1 <= limit <= 1000 && forall kind :: kind in key.kinds ==> !Blank(kind)
    requires ReadEvents(s.rows[key.projectId], FilterOf(key), StartCursor(s, key), |s.rows[key.projectId]|, limit, now) == Ok(page)
    ensures t == Step(Step(Step(s, Begin(i, key, limit)), TakeSnapshot(i)), SelectRows(i, now))
    ensures i in t.polls && t.polls[i].NeedUpsert? && t.polls[i].key == key && t.polls[i].cursor == StartCursor(s, key) && t.polls[i].page == page
    ensures t == s.(polls := s.polls[i := t.polls[i]])
    ensures Dense(s.rows[key.projectId]) ==>
      forall e :: e in t.polls[i].skipped ==> e in s.rows[key.projectId] && CanExpire(e) && e.expiry.time <= now
  {
    var s1 := Step(s, Begin(i, key, limit));
    var s2 := Step(s1, TakeSnapshot(i));
    assert s1.polls[i] == NeedSnapshot(key, limit, StartCursor(s, key));
    assert s2.polls[i] == NeedRows(key, limit, StartCursor(s, key), |s.rows[key.projectId]|);
    ReadRaisesIff(s.rows[key.projectId], FilterOf(key), StartCursor(s, key), |s.rows[key.projectId]|, limit, now);
    t := Step(s2, SelectRows(i, now));
    if Dense(s.rows[key.projectId]) {
      PageStored(s2, s2.polls[i], now, t.polls[i]);
    }
  }

  /** The upsert stores the page's next cursor as delivered, unless a larger one is stored. */
  lemma {:induction false} UpsertStores(s: State, i: nat, key: Stream, cursor: int, page: Page)
    requires i in s.polls && s.polls[i].NeedUpsert? && s.polls[i].key == key && s.polls[i].cursor == cursor && s.polls[i].page == page
    ensures var t := Step(s, Upsert(i));
      && t.rows == s.rows && t.polls == s.polls - {i} && t.receipts.Keys == s.receipts.Keys + {key}
      && t.receipts[key].acknowledged == (if key in s.receipts then s.receipts[key].acknowledged else cursor)
      && (var delivered := if page.nextCursor > cursor then page.nextCursor else cursor;
          t.receipts[key].delivered
            == if key in s.receipts && s.receipts[key].delivered > delivered then s.receipts[key].delivered else delivered)
      && (forall k :: k in s.receipts && k != key ==> t.receipts[k] == s.receipts[k])
      && t.returned == s.returned + (set e | e in page.events :: (key, e.seqNo))
      && t.expired == s.expired + set e | e in s.polls[i].skipped :: (key, e.seqNo)
  {
  }

  /** A poll that nobody interrupts reads the page after the acknowledged cursor, records
      exactly that page as returned, and stores the page's next cursor as delivered, unless a
      larger one is stored already. The acknowledged cursor, other receipts, and the rows stay. */
  lemma {:induction false} PollAlone(s: State, i: nat, key: Stream, limit: int, now: int, page: Page)
    requires i !in s.polls && key.consumerId != "" && key.projectId in s.rows
    requires 1 <= limit <= 1000 && forall kind :: kind in key.kinds ==> !Blank(kind)
    requires ReadEvents(s.rows[key.projectId], FilterOf(key), StartCursor(s, key), |s.rows[key.projectId]|, limit, now) == Ok(page)
    ensures var t := StepAll(s, PollSteps(i, key, limit, now));
      && t.rows == s.rows && t.polls == s.polls && t.receipts.Keys == s.receipts.Keys + {key}
      && t.receipts[key].acknowledged == StartCursor(s, key)
      && (var delivered := if page.nextCursor > StartCursor(s, key) then page.nextCursor else StartCursor(s, key);
          t.receipts[key].delivered
            == if key in s.receipts && s.receipts[key].delivered > delivered then s.receipts[key].delivered else delivered)
      && (forall k :: k in s.receipts && k != key ==> t.receipts[k] == s.receipts[k])
      && t.returned == s.returned + (set e | e in page.events :: (key, e.seqNo))
      && (Dense(s.rows[key.projectId]) ==> forall k, n :: (k, n) in t.expired && (k, n) !in s.expired ==>
           k == key && exists e :: e in s.rows[key.projectId] && e.seqNo == n && e.kind == "message" && e.expiry.At? && e.expiry.time <= now)
  {
    StepFour(s, Begin(i, key, limit), TakeSnapshot(i), SelectRows(i, now), Upsert(i));
    var s3 := PollReads(s, i, key, limit, now, page);
    UpsertStores(s3, i, key, StartCursor(s, key), page);
    assert s3.polls - {i} == s.polls;
  }

  /** A poll whose page cannot be read stores nothing. */
  lemma {:induction false} PollAloneRaises(s: State, i: nat, key: Stream, limit: int, now: int)
    requires i !in s.polls && key.consumerId != "" && key.projectId in s.rows
    requires 1 <= limit <= 1000 && forall kind :: kind in key.kinds ==> !Blank(kind)
    requires ReadEvents(s.rows[key.projectId], FilterOf(key), StartCursor(s, key), |s.rows[key.projectId]|, limit, now).Err?
    ensures StepAll(s, PollSteps(i, key, limit, now)) == s
  {
    StepFour(s, Begin(i, key, limit), TakeSnapshot(i), SelectRows(i, now), Upsert(i));
    var s1 := Step(s, Begin(i, key, limit));
    var s2 := Step(s1, TakeSnapshot(i));
    assert s1.polls[i] == NeedSnapshot(key, limit, StartCursor(s, key));
    assert s2.polls[i] == NeedRows(key, limit, StartCursor(s, key), |s.rows[key.projectId]|);
    assert s2.polls - {i} == s.polls;
  }

  /** An acknowledgement is accepted exactly from the acknowledged to the delivered cursor. */
  lemma {:induction false} AcknowledgeExact(s: State, key: Stream, cursor: int)
    ensures var t := Step(s, Acknowledge(key, cursor));
      if cursor >= 0 && key in s.receipts && s.receipts[key].acknowledged <= cursor <= s.receipts[key].delivered
      then t == s.(receipts := s.receipts[key := Receipt(cursor, s.receipts[key].delivered)])
      else t == s
  {
  }

  /** So after a poll every cursor up to the one it reported can be acknowledged, and the next
      poll starts there: acknowledging the whole page makes progress whenever a wanted event
      is left. */
  lemma {:induction false} PollThenAcknowledge(s: State, i: nat, key: Stream, limit: int, now: int, page: Page, cursor: int)
    requires Inv(s) && i !in s.polls && key.consumerId != "" && key.projectId in s.rows
    requires 1 <= limit <= 1000 && forall kind :: kind in key.kinds ==> !Blank(kind)
    requires ReadEvents(s.rows[key.projectId], FilterOf(key), StartCursor(s, key), |s.rows[key.projectId]|, limit, now) == Ok(page)
    requires StartCursor(s, key) <= cursor <= page.nextCursor
    ensures var t := Step(StepAll(s, PollSteps(i, key, limit, now)), Acknowledge(key, cursor));
      && key in t.receipts && t.receipts[key].acknowledged == cursor
      && StartCursor(t, key) == cursor && t.rows == s.rows
    ensures page.hasMore ==> page.nextCursor > StartCursor(s, key)
    ensures !page.hasMore ==> page.nextCursor == |s.rows[key.projectId]|
  {
    PollAlone(s, i, key, limit, now, page);
    AcknowledgeExact(StepAll(s, PollSteps(i, key, limit, now)), key, cursor);
    ReadRaisesIff(s.rows[key.projectId], FilterOf(key), StartCursor(s, key), |s.rows[key.projectId]|, limit, now);
    PageCovers(s.rows[key.projectId], FilterOf(key), StartCursor(s, key), |s.rows[key.projectId]|, limit, now);
    if key in s.receipts {
      assert ReceiptOk(s, key);
    }
  }

  lemma {:induction false} StepMonotone(s: State, a: Action, k: Stream)
    requires Inv(s)
    ensures AcknowledgedOf(Step(s, a).receipts, k) >= AcknowledgedOf(s.receipts, k)
    ensures DeliveredOf(Step(s, a).receipts, k) >= DeliveredOf(s.receipts, k)
    ensures k in s.receipts ==> k in Step(s, a).receipts
    ensures k in s.receipts && (!a.Acknowledge? || a.key != k) ==>
              AcknowledgedOf(Step(s, a).receipts, k) == AcknowledgedOf(s.receipts, k)
  {
    if a.Upsert? && a.poll in s.polls {
      assert PollOk(s, s.polls[a.poll]);
    }
  }

  lemma {:induction false} RunExtends(actions: seq<Action>, more: seq<Action>)
    requires more != []
    ensures Run(actions + more) == Step(Run(actions + more[..|more| - 1]), more[|more| - 1])
  {
    assert (actions + more)[..|actions + more| - 1] == actions + more[..|more| - 1];
  }

  /** However a run goes on, and whoever moves, no acknowledged or delivered cursor
      ever moves backwards. */
  lemma {:induction false} CursorsMonotone(actions: seq<Action>, more: seq<Action>, k: Stream)
    ensures AcknowledgedOf(Run(actions + more).receipts, k) >= AcknowledgedOf(Run(actions).receipts, k)
    ensures DeliveredOf(Run(actions + more).receipts, k) >= DeliveredOf(Run(actions).receipts, k)
  {
    if more == [] {
      assert actions + more == actions;
      return;
    }
    var front := more[..|more| - 1];
    CursorsMonotone(actions, front, k);
    RunExtends(actions, more);
    RunKeepsInv(actions + front);
    StepMonotone(Run(actions + front), more[|more| - 1], k);
  }

  /** A stream that has a receipt keeps its acknowledged cursor through any stretch of a
      run in which nobody acknowledges for it, so its pages are delivered again. */
  lemma {:induction false} OnlyAcknowledgeAdvances(actions: seq<Action>, more: seq<Action>, k: Stream)
    requires k in Run(actions).receipts
    requires forall i :: 0 <= i < |more| && more[i].Acknowledge? ==> more[i].key != k
    ensures k in Run(actions + more).receipts
    ensures AcknowledgedOf(Run(actions + more).receipts, k) == AcknowledgedOf(Run(actions).receipts, k)
  {
    if more == [] {
      assert actions + more == actions;
      return;
    }
    var front := more[..|more| - 1];
    OnlyAcknowledgeAdvances(actions, front, k);
    RunExtends(actions, more);
    RunKeepsInv(actions + front);
    StepMonotone(Run(actions + front), more[|more| - 1], k);
  }

  /** Stored sequence numbers stay exactly 1 .. n in every project of every run. */
  lemma {:induction false} SequencesGapFree(actions: seq<Action>, p: Id, i: nat)
    requires p in Run(actions).rows && i < |Run(actions).rows[p]|
    ensures Run(actions).rows[p][i].seqNo == i + 1
  {
    RunKeepsInv(actions);
  }

  /** An append adds this event under the project's next number, and nothing else; other steps
      but the creation of a project leave every stream as it is. */
  lemma {:induction false} RowsExact(s: State, a: Action)
    ensures a.Append? && a.p in s.rows ==>
      var rows := s.rows[a.p];
      Step(s, a) == s.(rows := s.rows[a.p := rows + [Event(a.id, a.kind, a.scopeId, a.content, a.expiry, |rows| + 1)]])
    ensures a.CreateProject? && a.p !in s.rows ==> Step(s, a) == s.(rows := s.rows[a.p := []])
    ensures !a.Append? && !a.CreateProject? ==> Step(s, a).rows == s.rows
    ensures a.Crash? ==> Step(s, a) == s.(polls := s.polls - {a.poll})
  {
  }
}
