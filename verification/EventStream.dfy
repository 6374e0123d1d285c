/** A project's event stream: sequence allocation, filtered paging and consumer
    receipts (`ProjectEvidenceRepository`). */
module EventStream {
  import opened Wrappers
  import opened Text

  type Id = string

  /** What a page read finds as the `expires_at` of an event's metadata. `NoExpiry` never
      expires: absent, falsy, or text that is no date. `NotText` is any other value, or
      metadata that is no object: reading a message with it raises. On metadata that is no
      JSON at all, which only an import can store, reading any event raises. */
  datatype Expiry = NoExpiry | At(time: int) | NotText | NotJson

  datatype Event = Event(id: Id, kind: string, scopeId: Option<Id>, content: string, expiry: Expiry, seqNo: nat)

  /** The filters of a read; no kinds or an empty scope means no restriction. */
  datatype Filter = Filter(kinds: set<string>, scope: string)

  datatype Page = Page(cursor: int, snapshot: int, nextCursor: int, hasMore: bool, events: seq<Event>)

  /** The last two are what the interpreter and the JSON decoder raise on a row. */
  datatype Error = ValueError | ProjectNotFound | ReceiptNotFound | MovesBackwards | BeyondDelivered | AttributeError | DecodeError

  /** Primary key of `event_receipts`; `kinds` is the set behind the sorted JSON list. */
  datatype Stream = Stream(projectId: Id, consumerId: Id, scopeKey: string, kinds: set<string>)

  datatype Receipt = Receipt(acknowledged: int, delivered: int)

  // ---------------------------------------------------------------------
  // Filters
  // ---------------------------------------------------------------------

  /** The argument check of a read: given kinds must be non-blank and at least one. */
  predicate ValidKinds(kinds: Option<seq<string>>) {
    kinds.Some? ==> kinds.value != [] && forall i :: 0 <= i < |kinds.value| ==> !Blank(kinds.value[i])
  }

  function KindSet(kinds: Option<seq<string>>): set<string> {
    if kinds.None? then {} else set k | k in kinds.value
  }

  function ScopeKey(scopeId: Option<Id>): string {
    if scopeId.None? then "" else scopeId.value
  }

  predicate Matches(f: Filter, e: Event) {
    && (f.kinds == {} || e.kind in f.kinds)
    && (f.scope == "" || e.scopeId.None? || e.scopeId.value == f.scope)
  }

  predicate Expired(e: Event, now: int) {
    e.kind == "message" && e.expiry.At? && e.expiry.time <= now
  }

  /** What reading the row raises. */
  function ReadError(e: Event): (error: Option<Error>)
    ensures error.Some? ==> error.value in {AttributeError, DecodeError}
  {
    if e.expiry.NotJson? then Some(DecodeError)
    else if e.kind == "message" && e.expiry.NotText? then Some(AttributeError)
    else None
  }

  predicate Readable(rows: seq<Event>) {
    forall e :: e in rows ==> ReadError(e).None?
  }

  /** Rows are read in order. */
  function FirstError(rows: seq<Event>): (error: Option<Error>)
    ensures error.None? <==> Readable(rows)
    ensures error.Some? ==> error.value in {AttributeError, DecodeError}
  {
    if rows == [] then None
    else
      var front, last := rows[..|rows| - 1], rows[|rows| - 1];
      assert rows == front + [last];
      if FirstError(front).Some? then FirstError(front) else ReadError(last)
  }

  // ---------------------------------------------------------------------
  // Queries over one project's rows
  // ---------------------------------------------------------------------

  /** Allocation is gap-free: row i carries sequence number i + 1. */
  predicate Dense(rows: seq<Event>) {
    forall i :: 0 <= i < |rows| ==> rows[i].seqNo == i + 1
  }

  /** `WHERE event_seq>? AND event_seq<=? AND <filter> ORDER BY event_seq`. */
  function Query(rows: seq<Event>, f: Filter, lo: int, hi: int): seq<Event> {
    if rows == [] then []
    else
      var front, last := rows[..|rows| - 1], rows[|rows| - 1];
      if lo < last.seqNo <= hi && Matches(f, last) then Query(front, f, lo, hi) + [last] else Query(front, f, lo, hi)
  }

  function Take(rows: seq<Event>, n: nat): seq<Event> {
    if |rows| <= n then rows else rows[..n]
  }

  /** The expiry loop keeps the rows that are not expired messages. */
  function Visible(rows: seq<Event>, now: int): seq<Event> {
    if rows == [] then []
    else if Expired(rows[|rows| - 1], now) then Visible(rows[..|rows| - 1], now)
    else Visible(rows[..|rows| - 1], now) + [rows[|rows| - 1]]
  }

  function ReadPage(rows: seq<Event>, f: Filter, cursor: int, snapshot: int, limit: nat, now: int): Page
    requires limit > 0
  {
    var found := Query(rows, f, cursor, snapshot);
    var taken := Take(found, limit);
    var hasMore := |found| > limit;
    Page(cursor, snapshot, if hasMore then taken[limit - 1].seqNo else snapshot, hasMore, Visible(taken, now))
  }

  /** `read_events_since` on these rows: the page, or what the first bad row of it raises. */
  function ReadEvents(rows: seq<Event>, f: Filter, cursor: int, snapshot: int, limit: nat, now: int): Result<Page, Error>
    requires limit > 0
  {
    var error := FirstError(Take(Query(rows, f, cursor, snapshot), limit));
    if error.Some? then Err(error.value) else Ok(ReadPage(rows, f, cursor, snapshot, limit, now))
  }

  function RecentCursor(rows: seq<Event>, f: Filter, limit: nat): int
    requires limit > 0
  {
    var found := Query(rows, f, 0, |rows|);
    if |found| < limit then 0
    else if found[|found| - limit].seqNo == 0 then 0 else found[|found| - limit].seqNo - 1
  }

  // ---------------------------------------------------------------------
  // Lemmas about queries
  // ---------------------------------------------------------------------

  /** Rows appended past `hi` do not change what a query up to `hi` sees. */
  lemma {:induction false} QueryStable(rows: seq<Event>, longer: seq<Event>, f: Filter, lo: int, hi: int)
    requires rows <= longer
    requires forall i :: |rows| <= i < |longer| ==> longer[i].seqNo > hi
    ensures Query(longer, f, lo, hi) == Query(rows, f, lo, hi)
    decreases |longer|
  {
    if |longer| > |rows| {
      QueryStable(rows, longer[..|longer| - 1], f, lo, hi);
    } else {
      assert longer == rows;
    }
  }

  /** A query answers exactly the matching rows of its range, in sequence order. */
  lemma {:induction false} QueryExact(rows: seq<Event>, f: Filter, lo: int, hi: int)
    requires Dense(rows)
    ensures forall e :: e in Query(rows, f, lo, hi) <==> e in rows && lo < e.seqNo <= hi && Matches(f, e)
    ensures Ascending(Query(rows, f, lo, hi))
  {
    if rows != [] {
      var front, last := rows[..|rows| - 1], rows[|rows| - 1];
      QueryExact(front, f, lo, hi);
      assert rows == front + [last];
      assert forall e :: e in Query(front, f, lo, hi) ==> e.seqNo < last.seqNo;
    }
  }

  predicate Ascending(rows: seq<Event>) {
    forall i, j :: 0 <= i < j < |rows| ==> rows[i].seqNo < rows[j].seqNo
  }

  /** A range splits at any point. */
  lemma {:induction false} QuerySplit(rows: seq<Event>, f: Filter, lo: int, mid: int, hi: int)
    requires Dense(rows)
    requires lo <= mid <= hi
    ensures Query(rows, f, lo, hi) == Query(rows, f, lo, mid) + Query(rows, f, mid, hi)
  {
    if rows != [] {
      var front, last := rows[..|rows| - 1], rows[|rows| - 1];
      QuerySplit(front, f, lo, mid, hi);
      if last.seqNo <= mid {
        QueryPast(front, f, mid, hi);
        QueryPast(rows, f, mid, hi);
      }
    }
  }

  lemma {:induction false} QueryPast(rows: seq<Event>, f: Filter, lo: int, hi: int)
    requires forall i :: 0 <= i < |rows| ==> rows[i].seqNo <= lo
    ensures Query(rows, f, lo, hi) == []
  {
    if rows != [] {
      QueryPast(rows[..|rows| - 1], f, lo, hi);
    }
  }

  /** Cutting a range at its k-th answer keeps the first k answers. */
  lemma {:induction false} QueryPrefix(rows: seq<Event>, f: Filter, lo: int, hi: int, k: nat)
    requires Dense(rows)
    requires 0 < k <= |Query(rows, f, lo, hi)|
    ensures var cut := Query(rows, f, lo, hi)[k - 1].seqNo;
      && lo < cut <= hi
      && Query(rows, f, lo, cut) == Query(rows, f, lo, hi)[..k]
      && Query(rows, f, cut, hi) == Query(rows, f, lo, hi)[k..]
  {
    var all := Query(rows, f, lo, hi);
    QueryExact(rows, f, lo, hi);
    assert all[k - 1] in all;
    var cut := all[k - 1].seqNo;
    QuerySplit(rows, f, lo, cut, hi);
    QueryExact(rows, f, lo, cut);
    QueryExact(rows, f, cut, hi);
    CutLength(all, Query(rows, f, lo, cut), Query(rows, f, cut, hi), cut, k);
  }

  /** Two ways to cut ascending rows at the same sequence number agree. */
  lemma {:induction false} CutLength(all: seq<Event>, a: seq<Event>, b: seq<Event>, cut: int, k: nat)
    requires all == a + b && Ascending(all)
    requires forall e :: e in a ==> e.seqNo <= cut
    requires forall e :: e in b ==> e.seqNo > cut
    requires k <= |all|
    requires k > 0 ==> all[k - 1].seqNo <= cut
    requires k < |all| ==> all[k].seqNo > cut
    ensures all[..k] == a && all[k..] == b
  {
    forall i | 0 <= i < |all| ensures i < |a| <==> all[i].seqNo <= cut {
      if i < |a| {
        assert all[i] == a[i] && a[i] in a;
      } else {
        assert all[i] == b[i - |a|] && b[i - |a|] in b;
      }
    }
    assert k > 0 ==> k - 1 < |a|;
    assert k < |all| ==> k >= |a|;
    assert |a| == k;
  }

  lemma {:induction false} QueryEmpty(rows: seq<Event>, f: Filter, lo: int, hi: int)
    requires lo >= hi
    ensures Query(rows, f, lo, hi) == []
  {
    if rows != [] {
      QueryEmpty(rows[..|rows| - 1], f, lo, hi);
    }
  }

  /** One page holds the first matching rows after the cursor, and moves the cursor past
      exactly those; a cursor beyond the snapshot sees nothing and comes back to it. */
  lemma {:induction false} PageCovers(rows: seq<Event>, f: Filter, cursor: int, snapshot: int, limit: nat, now: int)
    requires Dense(rows) && limit > 0
    ensures var page := ReadPage(rows, f, cursor, snapshot, limit, now);
      && (if cursor <= snapshot then cursor <= page.nextCursor <= snapshot else page.nextCursor == snapshot)
      && page.events == Visible(Query(rows, f, cursor, page.nextCursor), now)
      && |Query(rows, f, cursor, page.nextCursor)| <= limit
      && (page.hasMore <==> Query(rows, f, page.nextCursor, snapshot) != [])
      && (page.hasMore ==> cursor < page.nextCursor)
      && (!page.hasMore ==> page.nextCursor == snapshot)
  {
    var found := Query(rows, f, cursor, snapshot);
    QueryEmpty(rows, f, snapshot, snapshot);
    if cursor > snapshot {
      QueryEmpty(rows, f, cursor, snapshot);
    } else if |found| > limit {
      QueryPrefix(rows, f, cursor, snapshot, limit);
    }
  }

  /** The rows a page takes are exactly the matching ones up to its next cursor. */
  lemma {:induction false} TakenIsRange(rows: seq<Event>, f: Filter, cursor: int, snapshot: int, limit: nat, now: int)
    requires Dense(rows) && limit > 0
    ensures Take(Query(rows, f, cursor, snapshot), limit)
         == Query(rows, f, cursor, ReadPage(rows, f, cursor, snapshot, limit, now).nextCursor)
  {
    var found := Query(rows, f, cursor, snapshot);
    if cursor > snapshot {
      QueryEmpty(rows, f, cursor, snapshot);
    } else if |found| > limit {
      QueryPrefix(rows, f, cursor, snapshot, limit);
    }
  }

  // ---------------------------------------------------------------------
  // Rows that cannot be read
  // ---------------------------------------------------------------------

  /** One of the first `limit` rows cannot be read. */
  predicate BadAmong(found: seq<Event>, limit: int) {
    exists k :: 0 <= k < limit && k < |found| && ReadError(found[k]).Some?
  }

  /** A read raises if and only if one of the first `limit` matching rows after the cursor
      cannot be read; otherwise it answers with the page. */
  lemma {:induction false} ReadRaisesIff(rows: seq<Event>, f: Filter, cursor: int, snapshot: int, limit: nat, now: int)
    requires limit > 0
    ensures ReadEvents(rows, f, cursor, snapshot, limit, now).Err? <==> BadAmong(Query(rows, f, cursor, snapshot), limit)
    ensures ReadEvents(rows, f, cursor, snapshot, limit, now).Ok? ==>
      ReadEvents(rows, f, cursor, snapshot, limit, now) == Ok(ReadPage(rows, f, cursor, snapshot, limit, now))
  {
    var found := Query(rows, f, cursor, snapshot);
    var taken := Take(found, limit);
    assert forall k :: 0 <= k < |taken| ==> taken[k] == found[k];
    if BadAmong(found, limit) {
      var k :| 0 <= k < limit && k < |found| && ReadError(found[k]).Some?;
      assert taken[k] in taken;
    }
  }

  /** A page that was answered moved its cursor over readable rows only. */
  lemma {:induction false} ReadCovers(rows: seq<Event>, f: Filter, cursor: int, snapshot: int, limit: nat, now: int)
    requires Dense(rows) && limit > 0
    ensures ReadEvents(rows, f, cursor, snapshot, limit, now).Ok?
      <==> Readable(Query(rows, f, cursor, ReadPage(rows, f, cursor, snapshot, limit, now).nextCursor))
  {
    TakenIsRange(rows, f, cursor, snapshot, limit, now);
  }

  /** So no page, whatever its limit, moves a cursor to or past a matching event that
      cannot be read. */
  lemma {:induction false} StopsBefore(rows: seq<Event>, f: Filter, cursor: int, limit: nat, now: int, e: Event, page: Page)
    requires Dense(rows) && limit > 0
    requires e in Query(rows, f, cursor, |rows|) && ReadError(e).Some?
    requires ReadEvents(rows, f, cursor, |rows|, limit, now) == Ok(page)
    ensures page.hasMore && page.nextCursor < e.seqNo
  {
    ReadCovers(rows, f, cursor, |rows|, limit, now);
    QueryExact(rows, f, cursor, |rows|);
    QueryExact(rows, f, cursor, page.nextCursor);
    assert e !in Query(rows, f, cursor, page.nextCursor);
  }

  lemma {:induction false} FirstErrorPrefix(rows: seq<Event>, longer: seq<Event>)
    requires rows <= longer && FirstError(rows).Some?
    ensures FirstError(longer) == FirstError(rows)
  {
    if |longer| > |rows| {
      FirstErrorPrefix(rows, longer[..|longer| - 1]);
    } else {
      assert longer == rows;
    }
  }

  /** A read that raised raises again, however the stream has grown, at any time, and with
      the same limit or a larger one. */
  lemma {:induction false} RaisesAgain(rows: seq<Event>, longer: seq<Event>, f: Filter, cursor: int, limit: nat, larger: nat, now: int,
                                       later: int)
    requires Dense(longer) && rows <= longer && 0 < limit <= larger
    requires ReadEvents(rows, f, cursor, |rows|, limit, now).Err?
    ensures ReadEvents(longer, f, cursor, |longer|, larger, later) == ReadEvents(rows, f, cursor, |rows|, limit, now)
  {
    var found, all := Query(rows, f, cursor, |rows|), Query(longer, f, cursor, |longer|);
    assert cursor <= |rows| by {
      if cursor > |rows| {
        QueryEmpty(rows, f, cursor, |rows|);
      }
    }
    RangeGrows(rows, longer, f, cursor, |rows|);
    assert Take(found, limit) <= Take(all, larger);
    FirstErrorPrefix(Take(found, limit), Take(all, larger));
  }

  /** A message recorded with the number 5 as its `expires_at`. */
  const BADEXPIRY := Event("e", "message", None, "x", NotText, 1)

  lemma {:induction false} LoneRow(e: Event, f: Filter, now: int)
    requires e.seqNo == 1 && Matches(f, e) && ReadError(e).Some?
    ensures ReadEvents([e], f, 0, 1, 1, now) == Err(ReadError(e).value)
  {
    var rows := [e];
    assert rows[..0] == [];
    assert Query([], f, 0, 1) == [];
    assert Query(rows, f, 0, 1) == rows;
    assert FirstError(rows) == ReadError(e);
  }

  /** `record_event` stores any metadata object, so a stream may begin with such a message:
      then every read from its beginning raises, for ever. */
  lemma {:induction false} BadExpiryStops(longer: seq<Event>, kinds: set<string>, scope: string, limit: nat, now: int)
    requires Dense(longer) && [BADEXPIRY] <= longer && limit > 0 && (kinds == {} || "message" in kinds)
    ensures ReadEvents(longer, Filter(kinds, scope), 0, |longer|, limit, now) == Err(AttributeError)
  {
    var f := Filter(kinds, scope);
    LoneRow(BADEXPIRY, f, now);
    RaisesAgain([BADEXPIRY], longer, f, 0, 1, limit, now, now);
  }

  // ---------------------------------------------------------------------
  // What a read answers, row by row
  // ---------------------------------------------------------------------

  lemma {:induction false} VisibleIn(rows: seq<Event>, now: int, e: Event)
    ensures e in Visible(rows, now) <==> e in rows && !(e.kind == "message" && e.expiry.At? && e.expiry.time <= now)
  {
    if rows != [] {
      var front := rows[..|rows| - 1];
      VisibleIn(front, now, e);
      assert rows == front + [rows[|rows| - 1]];
    }
  }

  lemma {:induction false} VisibleInOrder(rows: seq<Event>, now: int)
    requires Ascending(rows)
    ensures Ascending(Visible(rows, now))
  {
    if rows != [] {
      var front, last := rows[..|rows| - 1], rows[|rows| - 1];
      VisibleInOrder(front, now);
      forall i | 0 <= i < |Visible(front, now)| ensures Visible(front, now)[i].seqNo < last.seqNo {
        VisibleIn(front, now, Visible(front, now)[i]);
      }
    }
  }

  lemma {:induction false} VisibleExact(rows: seq<Event>, now: int)
    requires Ascending(rows)
    ensures forall e :: e in Visible(rows, now) <==>
      e in rows && !(e.kind == "message" && e.expiry.At? && e.expiry.time <= now)
    ensures Ascending(Visible(rows, now))
  {
    VisibleInOrder(rows, now);
    forall e ensures e in Visible(rows, now) <==> e in rows && !(e.kind == "message" && e.expiry.At? && e.expiry.time <= now) {
      VisibleIn(rows, now, e);
    }
  }

  /** The rows a caller asks for: of these kinds, and of this scope or of none. */
  lemma {:induction false} MatchesExact(kinds: Option<seq<string>>, scopeId: Option<Id>, e: Event)
    requires ValidKinds(kinds)
    ensures Matches(Filter(KindSet(kinds), ScopeKey(scopeId)), e) <==>
      && (kinds.None? || e.kind in kinds.value)
      && (scopeId.None? || scopeId.value == "" || e.scopeId.None? || e.scopeId.value == scopeId.value)
  {
    if kinds.Some? {
      assert kinds.value[0] in KindSet(kinds);
    }
  }

  /** An answered page, whatever functions computed it: it holds the unexpired wanted rows
      after the cursor up to its own next cursor, in order; there is more exactly when a wanted
      row lies beyond; and it stops only after `limit` wanted rows. */
  ghost predicate AnswersRead(rows: seq<Event>, kinds: Option<seq<string>>, scopeId: Option<Id>, cursor: int, limit: int, now: int, page: Page) {
    && page.cursor == cursor && page.snapshot == |rows|
    && (forall e :: e in page.events <==>
          && e in rows && cursor < e.seqNo <= page.nextCursor
          && (kinds.None? || e.kind in kinds.value)
          && (scopeId.None? || scopeId.value == "" || e.scopeId.None? || e.scopeId.value == scopeId.value)
          && !(e.kind == "message" && e.expiry.At? && e.expiry.time <= now))
    && (forall i, j :: 0 <= i < j < |page.events| ==> page.events[i].seqNo < page.events[j].seqNo)
    && (page.hasMore <==> exists e ::
          && e in rows && cursor < e.seqNo && page.nextCursor < e.seqNo
          && (kinds.None? || e.kind in kinds.value)
          && (scopeId.None? || scopeId.value == "" || e.scopeId.None? || e.scopeId.value == scopeId.value))
    && (!page.hasMore ==> page.nextCursor == |rows|)
    && var scanned := |Query(rows, Filter(KindSet(kinds), ScopeKey(scopeId)), cursor, page.nextCursor)|;
       scanned <= limit && (page.hasMore ==> scanned == limit)
  }

  lemma {:induction false} PageEventsExact(rows: seq<Event>, kinds: Option<seq<string>>, scopeId: Option<Id>, cursor: int, limit: nat, now: int, page: Page)
    requires Dense(rows) && limit > 0 && ValidKinds(kinds)
    requires page == ReadPage(rows, Filter(KindSet(kinds), ScopeKey(scopeId)), cursor, |rows|, limit, now)
    ensures forall e :: e in page.events <==>
          && e in rows && cursor < e.seqNo <= page.nextCursor
          && (kinds.None? || e.kind in kinds.value)
          && (scopeId.None? || scopeId.value == "" || e.scopeId.None? || e.scopeId.value == scopeId.value)
          && !(e.kind == "message" && e.expiry.At? && e.expiry.time <= now)
    ensures Ascending(page.events)
  {
    var f := Filter(KindSet(kinds), ScopeKey(scopeId));
    PageCovers(rows, f, cursor, |rows|, limit, now);
    var scanned := Query(rows, f, cursor, page.nextCursor);
    QueryExact(rows, f, cursor, page.nextCursor);
    VisibleExact(scanned, now);
    forall e ensures e in scanned <==>
      && e in rows && cursor < e.seqNo <= page.nextCursor
      && (kinds.None? || e.kind in kinds.value)
      && (scopeId.None? || scopeId.value == "" || e.scopeId.None? || e.scopeId.value == scopeId.value)
    {
      MatchesExact(kinds, scopeId, e);
    }
  }

  lemma {:induction false} PageMoreExact(rows: seq<Event>, kinds: Option<seq<string>>, scopeId: Option<Id>, cursor: int, limit: nat, now: int, page: Page)
    requires Dense(rows) && limit > 0 && ValidKinds(kinds)
    requires page == ReadPage(rows, Filter(KindSet(kinds), ScopeKey(scopeId)), cursor, |rows|, limit, now)
    ensures page.hasMore <==> exists e ::
          && e in rows && cursor < e.seqNo && page.nextCursor < e.seqNo
          && (kinds.None? || e.kind in kinds.value)
          && (scopeId.None? || scopeId.value == "" || e.scopeId.None? || e.scopeId.value == scopeId.value)
  {
    var f := Filter(KindSet(kinds), ScopeKey(scopeId));
    PageCovers(rows, f, cursor, |rows|, limit, now);
    var rest := Query(rows, f, page.nextCursor, |rows|);
    QueryExact(rows, f, page.nextCursor, |rows|);
    if page.hasMore {
      var e := rest[0];
      assert e in rest;
      MatchesExact(kinds, scopeId, e);
    }
    forall e | && e in rows && cursor < e.seqNo && page.nextCursor < e.seqNo
      && (kinds.None? || e.kind in kinds.value)
      && (scopeId.None? || scopeId.value == "" || e.scopeId.None? || e.scopeId.value == scopeId.value)
      ensures e in rest
    {
      MatchesExact(kinds, scopeId, e);
    }
  }

  lemma {:induction false} PageFull(rows: seq<Event>, f: Filter, cursor: int, limit: nat, now: int, page: Page)
    requires Dense(rows) && limit > 0 && page == ReadPage(rows, f, cursor, |rows|, limit, now)
    ensures |Query(rows, f, cursor, page.nextCursor)| <= limit
    ensures page.hasMore ==> |Query(rows, f, cursor, page.nextCursor)| == limit
  {
    TakenIsRange(rows, f, cursor, |rows|, limit, now);
  }

  /** Whenever a read answers, it answers so. */
  lemma {:induction false} ReadAnswers(rows: seq<Event>, kinds: Option<seq<string>>, scopeId: Option<Id>, cursor: int, limit: nat, now: int, page: Page)
    requires Dense(rows) && limit > 0 && ValidKinds(kinds)
    requires ReadEvents(rows, Filter(KindSet(kinds), ScopeKey(scopeId)), cursor, |rows|, limit, now) == Ok(page)
    ensures AnswersRead(rows, kinds, scopeId, cursor, limit, now, page)
  {
    var f := Filter(KindSet(kinds), ScopeKey(scopeId));
    PageEventsExact(rows, kinds, scopeId, cursor, limit, now, page);
    PageMoreExact(rows, kinds, scopeId, cursor, limit, now, page);
    PageFull(rows, f, cursor, limit, now, page);
  }

  /** The row a read raises on, and what it raises. */
  ghost predicate RaisesOn(found: seq<Event>, limit: int, k: nat, error: Error) {
    && k < |found| && k < limit
    && (found[k].expiry.NotJson? || (found[k].kind == "message" && found[k].expiry.NotText?))
    && (forall j :: 0 <= j < k ==> !found[j].expiry.NotJson? && !(found[j].kind == "message" && found[j].expiry.NotText?))
    && error == (if found[k].expiry.NotJson? then DecodeError else AttributeError)
  }

  lemma {:induction false} FirstErrorRaises(found: seq<Event>, limit: nat, taken: seq<Event>) returns (k: nat)
    requires taken == Take(found, limit) && FirstError(taken).Some?
    ensures RaisesOn(found, limit, k, FirstError(taken).value)
  {
    k := FirstBad(taken);
    assert forall j :: 0 <= j < |taken| ==> taken[j] == found[j];
  }

  lemma {:induction false} FirstBad(rows: seq<Event>) returns (k: nat)
    requires FirstError(rows).Some?
    ensures RaisesOn(rows, |rows|, k, FirstError(rows).value)
  {
    var front, last := rows[..|rows| - 1], rows[|rows| - 1];
    if FirstError(front).Some? {
      k := FirstBad(front);
      assert forall j :: 0 <= j < |front| ==> rows[j] == front[j];
    } else {
      k := |rows| - 1;
      assert forall j :: 0 <= j < |front| ==> rows[j] == front[j] && front[j] in front && ReadError(front[j]).None?;
    }
  }

  // ---------------------------------------------------------------------
  // Following next_cursor while the stream grows
  // ---------------------------------------------------------------------

  /** One call of `read_events_since`: the rows and clock it saw. */
  datatype Read = Read(rows: seq<Event>, limit: nat, now: int)

  /** Later calls see every row earlier ones saw. */
  ghost predicate Grows(calls: seq<Read>) {
    && (forall i :: 0 <= i < |calls| ==> Dense(calls[i].rows) && calls[i].limit > 0)
    && forall i, j :: 0 <= i < j < |calls| ==> calls[i].rows <= calls[j].rows
  }

  function Reply(r: Read, f: Filter, cursor: int): Result<Page, Error>
    requires r.limit > 0
  {
    ReadEvents(r.rows, f, cursor, |r.rows|, r.limit, r.now)
  }

  predicate Continues(reply: Result<Page, Error>) {
    reply.Ok? && reply.value.hasMore
  }

  /** The caller follows `next_cursor` while `has_more`, and stops when it is false or when
      a read raises. */
  ghost predicate Follows(calls: seq<Read>, f: Filter, cursor: int) {
    && calls != [] && calls[0].limit > 0
    && var reply := Reply(calls[0], f, cursor);
    if Continues(reply) then |calls| > 1 && Follows(calls[1..], f, reply.value.nextCursor) else |calls| == 1
  }

  /** The last read raised. */
  ghost predicate Raised(calls: seq<Read>, f: Filter, cursor: int)
    requires Follows(calls, f, cursor)
  {
    var reply := Reply(calls[0], f, cursor);
    reply.Err? || (reply.value.hasMore && Raised(calls[1..], f, reply.value.nextCursor))
  }

  /** All events the caller received, in order. */
  ghost function Received(calls: seq<Read>, f: Filter, cursor: int): seq<Event>
    requires Follows(calls, f, cursor)
  {
    var reply := Reply(calls[0], f, cursor);
    if reply.Err? then []
    else reply.value.events + (if reply.value.hasMore then Received(calls[1..], f, reply.value.nextCursor) else [])
  }

  /** The clock of the read that covered each matching event. */
  ghost function Scanned(calls: seq<Read>, f: Filter, cursor: int): seq<(Event, int)>
    requires Follows(calls, f, cursor)
  {
    var reply := Reply(calls[0], f, cursor);
    if reply.Err? then []
    else
      Stamp(Query(calls[0].rows, f, cursor, reply.value.nextCursor), calls[0].now)
      + (if reply.value.hasMore then Scanned(calls[1..], f, reply.value.nextCursor) else [])
  }

  ghost function Stamp(rows: seq<Event>, now: int): (stamped: seq<(Event, int)>)
    ensures |stamped| == |rows| && forall i :: 0 <= i < |rows| ==> stamped[i] == (rows[i], now)
  {
    seq(|rows|, i requires 0 <= i < |rows| => (rows[i], now))
  }

  ghost function Events(scanned: seq<(Event, int)>): (rows: seq<Event>)
    ensures |rows| == |scanned| && forall i :: 0 <= i < |rows| ==> rows[i] == scanned[i].0
  {
    seq(|scanned|, i requires 0 <= i < |scanned| => scanned[i].0)
  }

  /** Drops the events that were expired when they were read. */
  ghost function Unexpired(scanned: seq<(Event, int)>): seq<Event> {
    if scanned == [] then []
    else
      var front, last := scanned[..|scanned| - 1], scanned[|scanned| - 1];
      if Expired(last.0, last.1) then Unexpired(front) else Unexpired(front) + [last.0]
  }

  lemma {:induction false} UnexpiredConcat(a: seq<(Event, int)>, b: seq<(Event, int)>)
    ensures Unexpired(a + b) == Unexpired(a) + Unexpired(b)
  {
    if b == [] {
      assert a + b == a;
    } else {
      assert (a + b)[..|a + b| - 1] == a + b[..|b| - 1];
      UnexpiredConcat(a, b[..|b| - 1]);
    }
  }

  lemma {:induction false} UnexpiredStamp(rows: seq<Event>, now: int)
    ensures Unexpired(Stamp(rows, now)) == Visible(rows, now)
  {
    if rows != [] {
      UnexpiredStamp(rows[..|rows| - 1], now);
      assert Stamp(rows, now)[..|rows| - 1] == Stamp(rows[..|rows| - 1], now);
    }
  }

  lemma {:induction false} EventsConcat(a: seq<(Event, int)>, b: seq<(Event, int)>)
    ensures Events(a + b) == Events(a) + Events(b)
  {
  }

  /** What one page adds to what the later ones scan. */
  lemma {:induction false} ScannedConcat(now: seq<Event>, clock: int, tail: seq<(Event, int)>)
    ensures Events(Stamp(now, clock) + tail) == now + Events(tail)
    ensures Unexpired(Stamp(now, clock) + tail) == Visible(now, clock) + Unexpired(tail)
  {
    EventsConcat(Stamp(now, clock), tail);
    UnexpiredConcat(Stamp(now, clock), tail);
    UnexpiredStamp(now, clock);
    assert Events(Stamp(now, clock)) == now;
  }

  /** A range seen early, then the rest of the grown stream. */
  lemma {:induction false} RangeGrows(first: seq<Event>, last: seq<Event>, f: Filter, cursor: int, next: int)
    requires Dense(last) && first <= last && next <= |first|
    ensures cursor <= next ==> Query(last, f, cursor, |last|) == Query(first, f, cursor, next) + Query(last, f, next, |last|)
  {
    if cursor <= next {
      QueryStable(first, last, f, cursor, next);
      QuerySplit(last, f, cursor, next, |last|);
    }
  }

  lemma {:induction false} FollowsOn(calls: seq<Read>, f: Filter, cursor: int, page: Page, rest: seq<Read>)
    requires Follows(calls, f, cursor) && Reply(calls[0], f, cursor) == Ok(page) && page.hasMore && rest == calls[1..]
    ensures Follows(rest, f, page.nextCursor)
    ensures Raised(calls, f, cursor) == Raised(rest, f, page.nextCursor)
    ensures Scanned(calls, f, cursor)
         == Stamp(Query(calls[0].rows, f, cursor, page.nextCursor), calls[0].now) + Scanned(rest, f, page.nextCursor)
    ensures Received(calls, f, cursor) == page.events + Received(rest, f, page.nextCursor)
  {
  }

  lemma {:induction false} FollowsEnd(calls: seq<Read>, f: Filter, cursor: int, page: Page)
    requires Follows(calls, f, cursor) && Reply(calls[0], f, cursor) == Ok(page) && !page.hasMore
    ensures Scanned(calls, f, cursor) == Stamp(Query(calls[0].rows, f, cursor, page.nextCursor), calls[0].now)
    ensures Received(calls, f, cursor) == page.events && |calls| == 1 && !Raised(calls, f, cursor)
  {
  }

  /** What following the pages came to on the rows of its last read. */
  ghost predicate Exact(calls: seq<Read>, f: Filter, cursor: int, all: seq<Event>)
    requires Follows(calls, f, cursor)
  {
    && Events(Scanned(calls, f, cursor)) <= all
    && (!Raised(calls, f, cursor) ==> Events(Scanned(calls, f, cursor)) == all)
    && (Raised(calls, f, cursor) <==> !Readable(all))
    && Received(calls, f, cursor) == Unexpired(Scanned(calls, f, cursor))
  }

  /** The first read raised, and there was no other. */
  lemma {:induction false} FollowsRaised(calls: seq<Read>, f: Filter, cursor: int)
    requires Grows(calls) && Follows(calls, f, cursor) && Reply(calls[0], f, cursor).Err?
    ensures |calls| == 1 && Exact(calls, f, cursor, Query(calls[0].rows, f, cursor, |calls[0].rows|))
  {
    var all := Query(calls[0].rows, f, cursor, |calls[0].rows|);
    assert forall e :: e in Take(all, calls[0].limit) ==> e in all;
  }

  /** The first read answered the last page. */
  lemma {:induction false} FollowsOnce(calls: seq<Read>, f: Filter, cursor: int, page: Page)
    requires Grows(calls) && Follows(calls, f, cursor) && Reply(calls[0], f, cursor) == Ok(page) && !page.hasMore
    ensures Exact(calls, f, cursor, Query(calls[0].rows, f, cursor, |calls[0].rows|))
  {
    var first := calls[0];
    FollowsEnd(calls, f, cursor, page);
    PageCovers(first.rows, f, cursor, |first.rows|, first.limit, first.now);
    ReadCovers(first.rows, f, cursor, |first.rows|, first.limit, first.now);
    var now := Query(first.rows, f, cursor, page.nextCursor);
    ScannedConcat(now, first.now, []);
    assert Stamp(now, first.now) + [] == Stamp(now, first.now);
  }

  /** A page, and what follows it. */
  lemma {:induction false} FollowsMore(calls: seq<Read>, f: Filter, cursor: int, page: Page, rest: seq<Read>, all: seq<Event>)
    requires Grows(calls) && Follows(calls, f, cursor) && Reply(calls[0], f, cursor) == Ok(page) && page.hasMore
    requires rest == calls[1..] && Follows(rest, f, page.nextCursor) && Exact(rest, f, page.nextCursor, all)
    ensures Exact(calls, f, cursor, Query(calls[0].rows, f, cursor, page.nextCursor) + all)
  {
    var first := calls[0];
    var now := Query(first.rows, f, cursor, page.nextCursor);
    FollowsOn(calls, f, cursor, page, rest);
    PageCovers(first.rows, f, cursor, |first.rows|, first.limit, first.now);
    ReadCovers(first.rows, f, cursor, |first.rows|, first.limit, first.now);
    ScannedConcat(now, first.now, Scanned(rest, f, page.nextCursor));
    assert Readable(now + all) <==> Readable(all) by {
      assert forall e :: e in now + all <==> e in now || e in all;
    }
  }

  /** Following the pages goes through if and only if every matching event after the cursor
      can be read. Then it scans each of them up to the last snapshot exactly once and in
      order; otherwise it raises, having scanned the first of them. It receives exactly those
      that were not expired when read, whatever is appended meanwhile. */
  lemma {:induction false} PagingExact(calls: seq<Read>, f: Filter, cursor: int)
    requires Grows(calls) && Follows(calls, f, cursor)
    ensures var last := calls[|calls| - 1].rows;
      Exact(calls, f, cursor, Query(last, f, cursor, |last|))
    decreases |calls|
  {
    var first, last := calls[0], calls[|calls| - 1].rows;
    var reply := Reply(first, f, cursor);
    if reply.Err? {
      FollowsRaised(calls, f, cursor);
      return;
    }
    var page := reply.value;
    if !page.hasMore {
      FollowsOnce(calls, f, cursor, page);
      return;
    }
    var rest := calls[1..];
    FollowsOn(calls, f, cursor, page, rest);
    GrowsTail(calls);
    PagingExact(rest, f, page.nextCursor);
    FollowsMore(calls, f, cursor, page, rest, Query(last, f, page.nextCursor, |last|));
    PageCovers(first.rows, f, cursor, |first.rows|, first.limit, first.now);
    RangeGrows(first.rows, last, f, cursor, page.nextCursor);
  }

  lemma {:induction false} GrowsTail(calls: seq<Read>)
    requires Grows(calls) && |calls| > 1
    ensures Grows(calls[1..])
    ensures calls[0].rows <= calls[1..][0].rows
    ensures calls[0].rows <= calls[|calls| - 1].rows
    ensures Dense(calls[|calls| - 1].rows)
  {
    var rest := calls[1..];
    assert forall i :: 0 <= i < |rest| ==> rest[i] == calls[i + 1];
  }

  /** A read from this cursor, at whatever time, answers the newest `limit` matching events
      less the expired ones, with nothing more to read, and raises if one cannot be read. */
  ghost predicate ShowsNewest(rows: seq<Event>, f: Filter, limit: int, cursor: int)
    requires limit > 0
  {
    cursor >= 0 && forall now :: PageIsNewest(rows, f, limit, cursor, now)
  }

  predicate PageIsNewest(rows: seq<Event>, f: Filter, limit: int, cursor: int, now: int)
    requires limit > 0
  {
    var all := Query(rows, f, 0, |rows|);
    var newest := if |all| > limit then all[|all| - limit..] else all;
    ReadEvents(rows, f, cursor, |rows|, limit, now) ==
      if FirstError(newest).Some? then Err(FirstError(newest).value)
      else Ok(Page(cursor, |rows|, |rows|, false, Visible(newest, now)))
  }

  /** Nothing at or before the recent-events cursor is among the newest. */
  lemma {:induction false} RecentCursorCuts(rows: seq<Event>, f: Filter, limit: nat, cursor: int)
    requires Dense(rows) && limit > 0 && cursor == RecentCursor(rows, f, limit)
    ensures 0 <= cursor
    ensures var all := Query(rows, f, 0, |rows|);
      Query(rows, f, cursor, |rows|) == if |all| > limit then all[|all| - limit..] else all
  {
    var all := Query(rows, f, 0, |rows|);
    QueryExact(rows, f, 0, |rows|);
    if |all| >= limit {
      var k := |all| - limit;
      assert all[k] in all;
      assert cursor == all[k].seqNo - 1;
      QuerySplit(rows, f, 0, cursor, |rows|);
      QueryExact(rows, f, 0, cursor);
      QueryExact(rows, f, cursor, |rows|);
      CutLength(all, Query(rows, f, 0, cursor), Query(rows, f, cursor, |rows|), cursor, k);
    }
  }

  /** Reading from the recent-events cursor with the same filter and limit yields the
      newest `limit` matching events less the expired ones, in one page, if they can be read. */
  lemma {:induction false} RecentCursorExact(rows: seq<Event>, f: Filter, limit: nat, now: int)
    requires Dense(rows) && limit > 0
    ensures PageIsNewest(rows, f, limit, RecentCursor(rows, f, limit), now)
  {
    RecentCursorCuts(rows, f, limit, RecentCursor(rows, f, limit));
  }

  // ---------------------------------------------------------------------
  // Consumer receipts
  // ---------------------------------------------------------------------

  function FilterOf(k: Stream): Filter {
    Filter(k.kinds, k.scopeKey)
  }

  /** The cursor a poll starts from. */
  function AcknowledgedOf(receipts: map<Stream, Receipt>, k: Stream): int {
    if k in receipts then receipts[k].acknowledged else 0
  }

  function DeliveredOf(receipts: map<Stream, Receipt>, k: Stream): int {
    if k in receipts then receipts[k].delivered else 0
  }

  function Max(a: int, b: int): int {
    if a < b then b else a
  }

  /** `INSERT ... ON CONFLICT DO UPDATE SET delivered_cursor=max(...)`. */
  function UpsertReceipt(receipts: map<Stream, Receipt>, k: Stream, cursor: int, delivered: int): map<Stream, Receipt> {
    if k in receipts then receipts[k := receipts[k].(delivered := Max(receipts[k].delivered, delivered))]
    else receipts[k := Receipt(cursor, delivered)]
  }

  function AcknowledgeError(receipts: map<Stream, Receipt>, k: Stream, cursor: int): Option<Error> {
    if k !in receipts then Some(ReceiptNotFound)
    else if cursor < receipts[k].acknowledged then Some(MovesBackwards)
    else if cursor > receipts[k].delivered then Some(BeyondDelivered)
    else None
  }

  // ---------------------------------------------------------------------
  // The repository
  // ---------------------------------------------------------------------

  class EventRepository {
    /** `events`, per project in insertion order. */
    var rows: map<Id, seq<Event>>
    /** `project_event_cursors`. */
    var nextSeq: map<Id, int>
    var receipts: map<Stream, Receipt>

    /** Stored sequence numbers are exactly 1 .. next_seq - 1 in every project. */
    ghost predicate Valid()
      reads this
    {
      && rows.Keys == nextSeq.Keys
      && forall p :: p in rows ==> Dense(rows[p]) && nextSeq[p] == |rows[p]| + 1
    }

    constructor ()
      ensures Valid() && rows == map[] && receipts == map[]
    {
      rows, nextSeq, receipts := map[], map[], map[];
    }

    /** Inserting a project row fires the trigger that inserts its cursor. */
    method CreateProject(p: Id)
      requires Valid() && p !in rows
      modifies this`rows, this`nextSeq
      ensures Valid() && rows == old(rows)[p := []]
    {
      rows, nextSeq := rows[p := []], nextSeq[p := 1];
    }

    /** `allocate_event_sequence` and `insert_event` in one transaction, as every
        writer of events does them. */
    method Insert(p: Id, id: Id, kind: string, scopeId: Option<Id>, content: string, expiry: Expiry)
      returns (r: Result<Event, Error>)
      requires Valid()
      modifies this`rows, this`nextSeq
      ensures Valid()
      ensures p !in old(rows) ==> r == Err(ProjectNotFound) && rows == old(rows) && nextSeq == old(nextSeq)
      ensures p in old(rows) ==>
        && r == Ok(Event(id, kind, scopeId, content, expiry, |old(rows)[p]| + 1))
        && rows == old(rows)[p := old(rows)[p] + [r.value]]
    {
      if p !in nextSeq {
        return Err(ProjectNotFound);
      }
      var e := Event(id, kind, scopeId, content, expiry, nextSeq[p]);
      nextSeq := nextSeq[p := nextSeq[p] + 1];
      rows := rows[p := rows[p] + [e]];
      r := Ok(e);
    }

    /** `record_event`: a message without `expires_at` takes the project's time to live.
        The metadata is stored as JSON, whatever value its `expires_at` has. */
    method RecordEvent(p: Id, id: Id, kind: string, scopeId: Option<Id>, content: string, given: Option<Expiry>,
                       ttlSeconds: nat, now: int)
      returns (r: Result<Event, Error>)
      requires Valid()
      requires given != Some(NotJson)
      modifies this`rows, this`nextSeq
      ensures Valid()
      ensures Blank(content) ==> r == Err(ValueError)
      ensures r.Err? ==> rows == old(rows) && nextSeq == old(nextSeq)
      ensures !Blank(content) ==> (r.Ok? <==> p in old(rows))
      ensures r.Ok? ==>
        && rows == old(rows)[p := old(rows)[p] + [r.value]]
        && r.value == Event(id, kind, scopeId, content, r.value.expiry, |old(rows)[p]| + 1)
        && (given.Some? ==> r.value.expiry == given.value)
        && (kind == "message" && given.None? && ttlSeconds > 0 ==> forall t :: Expired(r.value, t) <==> t >= now + ttlSeconds)
        && (kind != "message" || (given.None? && ttlSeconds == 0) ==> forall t :: !Expired(r.value, t))
        && (ReadError(r.value).Some? <==> kind == "message" && given == Some(NotText))
    {
      if Blank(content) {
        return Err(ValueError);
      }
      var expiry := if given.Some? then given.value
        else if kind == "message" && ttlSeconds > 0 then At(now + ttlSeconds)
        else NoExpiry;
      r := Insert(p, id, kind, scopeId, content, expiry);
    }

    /** The expiry loop of a read. */
    method KeepUnexpired(taken: seq<Event>, now: int) returns (r: Result<seq<Event>, Error>)
      ensures r == if FirstError(taken).Some? then Err(FirstError(taken).value) else Ok(Visible(taken, now))
    {
      var visible: seq<Event> := [];
      for i := 0 to |taken|
        invariant visible == Visible(taken[..i], now) && FirstError(taken[..i]).None?
      {
        assert taken[..i + 1][..i] == taken[..i];
        var error := ReadError(taken[i]);
        if error.Some? {
          FirstErrorPrefix(taken[..i + 1], taken);
          return Err(error.value);
        }
        if !Expired(taken[i], now) {
          visible := visible + [taken[i]];
        }
      }
      assert taken[..|taken|] == taken;
      r := Ok(visible);
    }

    /** `read_events_since`. */
    method ReadEventsSince(p: Id, cursor: int, kinds: Option<seq<string>>, scopeId: Option<Id>, limit: int, now: int)
      returns (r: Result<Page, Error>)
      requires Valid()
      ensures cursor < 0 || !(1 <= limit <= 1000) || !ValidKinds(kinds) ==> r == Err(ValueError)
      ensures cursor >= 0 && 1 <= limit <= 1000 && ValidKinds(kinds) ==>
        r == if p !in rows then Err(ProjectNotFound)
             else ReadEvents(rows[p], Filter(KindSet(kinds), ScopeKey(scopeId)), cursor, |rows[p]|, limit, now)
      ensures r.Ok? ==> p in rows && AnswersRead(rows[p], kinds, scopeId, cursor, limit, now, r.value)
      ensures r.Err? && r.error !in {ValueError, ProjectNotFound} ==>
        p in rows && cursor >= 0 &&
        (exists k :: RaisesOn(Query(rows[p], Filter(KindSet(kinds), ScopeKey(scopeId)), cursor, |rows[p]|), limit, k, r.error))
    {
      if cursor < 0 || limit < 1 || limit > 1000 || !ValidKinds(kinds) {
        return Err(ValueError);
      }
      if p !in nextSeq {
        return Err(ProjectNotFound);
      }
      var snapshot := nextSeq[p] - 1;
      var found := Query(rows[p], Filter(KindSet(kinds), ScopeKey(scopeId)), cursor, snapshot);
      var hasMore := |found| > limit;
      var taken := Take(found, limit);
      var visible := KeepUnexpired(taken, now);
      if visible.Err? {
        ghost var k := FirstErrorRaises(found, limit, taken);
        return Err(visible.error);
      }
      var nextCursor := if hasMore then taken[|taken| - 1].seqNo else snapshot;
      r := Ok(Page(cursor, snapshot, nextCursor, hasMore, visible.value));
      ReadAnswers(rows[p], kinds, scopeId, cursor, limit, now, r.value);
    }

    /** `cursor_for_recent_events`. */
    method CursorForRecentEvents(p: Id, kinds: Option<seq<string>>, scopeId: Option<Id>, limit: int)
      returns (r: Result<int, Error>)
      requires Valid()
      ensures r == Err(ValueError) <==> !(1 <= limit <= 1000) || !ValidKinds(kinds)
      ensures r.Err? ==> r == Err(ValueError)
      ensures r.Ok? && p !in rows ==> r.value == 0
      ensures r.Ok? && p in rows ==> ShowsNewest(rows[p], Filter(KindSet(kinds), ScopeKey(scopeId)), limit, r.value)
    {
      if !(1 <= limit <= 1000) || !ValidKinds(kinds) {
        return Err(ValueError);
      }
      if p in rows {
        var f := Filter(KindSet(kinds), ScopeKey(scopeId));
        forall now ensures PageIsNewest(rows[p], f, limit, RecentCursor(rows[p], f, limit), now) {
          RecentCursorExact(rows[p], f, limit, now);
        }
      }
      r := Ok(if p in rows then RecentCursor(rows[p], Filter(KindSet(kinds), ScopeKey(scopeId)), limit) else 0);
    }

    /** The stream a receipt belongs to: blank-trimmed consumer, scope or "", kinds as a set. */
    static function StreamOf(p: Id, consumerId: string, kinds: Option<seq<string>>, scopeId: Option<Id>): (k: Stream)
      ensures k.kinds == if kinds.None? then {} else set x | x in kinds.value
    {
      Stream(p, Strip(consumerId), ScopeKey(scopeId), KindSet(kinds))
    }

    /** An empty list of kinds counts as none. */
    static function Normalized(kinds: Option<seq<string>>): (normalized: Option<seq<string>>)
      ensures KindSet(normalized) == KindSet(kinds)
      ensures ValidKinds(normalized) <==> (kinds.Some? ==> forall i :: 0 <= i < |kinds.value| ==> !Blank(kinds.value[i]))
    {
      if kinds.Some? && kinds.value != [] then kinds else None
    }

    /** The arguments a poll accepts. */
    static predicate PollArguments(consumerId: string, kinds: Option<seq<string>>, limit: int) {
      && Strip(consumerId) != "" && 1 <= limit <= 1000
      && ValidKinds(Normalized(kinds))
    }

    static lemma {:induction false} StreamFilter(p: Id, consumerId: string, kinds: Option<seq<string>>, scopeId: Option<Id>)
      ensures FilterOf(StreamOf(p, consumerId, kinds, scopeId)) == Filter(KindSet(Normalized(kinds)), ScopeKey(scopeId))
    {
    }

    /** `poll_events` run without interference. It redelivers everything not yet
        acknowledged and never acknowledges by itself. */
    method PollEvents(p: Id, consumerId: string, kinds: Option<seq<string>>, scopeId: Option<Id>, limit: int, now: int)
      returns (r: Result<(Page, int), Error>)
      requires Valid()
      requires forall k :: k in receipts ==> receipts[k].acknowledged >= 0
      modifies this`receipts
      ensures r == Err(ValueError) <==> !PollArguments(consumerId, kinds, limit)
      ensures r == Err(ProjectNotFound) <==> PollArguments(consumerId, kinds, limit) && p !in rows
      ensures r.Err? ==> receipts == old(receipts)
      ensures PollArguments(consumerId, kinds, limit) && p in rows ==>
        var k := StreamOf(p, consumerId, kinds, scopeId);
        var cursor := AcknowledgedOf(old(receipts), k);
        match ReadEvents(rows[p], FilterOf(k), cursor, |rows[p]|, limit, now)
        case Err(error) => r == Err(error)
        case Ok(page) =>
          && r == Ok((page, Max(cursor, page.nextCursor)))
          && receipts == UpsertReceipt(old(receipts), k, cursor, r.value.1)
      ensures r.Err? && r.error !in {ValueError, ProjectNotFound} ==>
        p in rows &&
        (var k := Stream(p, Strip(consumerId), if scopeId.None? then "" else scopeId.value, if kinds.None? then {} else set x | x in kinds.value);
        var acknowledged := if k in old(receipts) then old(receipts)[k].acknowledged else 0;
        exists i :: RaisesOn(Query(rows[p], Filter(k.kinds, k.scopeKey), acknowledged, |rows[p]|), limit, i, r.error))
      ensures r.Ok? ==>
        var k := Stream(p, Strip(consumerId), if scopeId.None? then "" else scopeId.value, if kinds.None? then {} else set x | x in kinds.value);
        var acknowledged := if k in old(receipts) then old(receipts)[k].acknowledged else 0;
        var (page, delivered) := r.value;
        && p in rows && AnswersRead(rows[p], Normalized(kinds), scopeId, acknowledged, limit, now, page)
        && delivered == (if page.nextCursor > acknowledged then page.nextCursor else acknowledged)
        && receipts.Keys == old(receipts).Keys + {k} && receipts[k].acknowledged == acknowledged
        && receipts[k].delivered == (if k in old(receipts) && old(receipts)[k].delivered > delivered then old(receipts)[k].delivered else delivered)
        && (forall j :: j in old(receipts) && j != k ==> receipts[j] == old(receipts)[j])
    {
      if Strip(consumerId) == "" {
        return Err(ValueError);
      }
      var k := StreamOf(p, consumerId, kinds, scopeId);
      var cursor := AcknowledgedOf(receipts, k);
      StreamFilter(p, consumerId, kinds, scopeId);
      var read := ReadEventsSince(p, cursor, Normalized(kinds), scopeId, limit, now);
      if read.Err? {
        return Err(read.error);
      }
      var delivered := Max(cursor, read.value.nextCursor);
      receipts := UpsertReceipt(receipts, k, cursor, delivered);
      r := Ok((read.value, delivered));
    }

    /** `acknowledge_events`. */
    method AcknowledgeEvents(p: Id, consumerId: string, cursor: int, kinds: Option<seq<string>>, scopeId: Option<Id>)
      returns (r: Result<Receipt, Error>)
      modifies this`receipts
      ensures
        var k := Stream(p, Strip(consumerId), if scopeId.None? then "" else scopeId.value, if kinds.None? then {} else set x | x in kinds.value);
        r.Ok? <==>
          && Strip(consumerId) != "" && cursor >= 0
          && k in old(receipts) && old(receipts)[k].acknowledged <= cursor <= old(receipts)[k].delivered
      ensures r.Ok? ==>
        var k := Stream(p, Strip(consumerId), if scopeId.None? then "" else scopeId.value, if kinds.None? then {} else set x | x in kinds.value);
        && receipts == old(receipts)[k := r.value]
        && r.value.acknowledged == cursor && r.value.delivered == old(receipts)[k].delivered
      ensures r.Err? ==>
        var k := Stream(p, Strip(consumerId), if scopeId.None? then "" else scopeId.value, if kinds.None? then {} else set x | x in kinds.value);
        && receipts == old(receipts)
        && (r.error == ValueError <==> Strip(consumerId) == "" || cursor < 0)
        && (r.error == ReceiptNotFound <==> Strip(consumerId) != "" && cursor >= 0 && k !in old(receipts))
        && (r.error == MovesBackwards <==>
              Strip(consumerId) != "" && cursor >= 0 && k in old(receipts) && cursor < old(receipts)[k].acknowledged)
        && (r.error == BeyondDelivered <==>
              Strip(consumerId) != "" && cursor >= 0 && k in old(receipts) && cursor >= old(receipts)[k].acknowledged
              && cursor > old(receipts)[k].delivered)
      ensures var k := StreamOf(p, consumerId, kinds, scopeId);
        if Strip(consumerId) == "" || cursor < 0 then r == Err(ValueError) && receipts == old(receipts)
        else match AcknowledgeError(old(receipts), k, cursor)
          case Some(e) => r == Err(e) && receipts == old(receipts)
          case None => r == Ok(Receipt(cursor, old(receipts)[k].delivered)) && receipts == old(receipts)[k := r.value]
    {
      if Strip(consumerId) == "" || cursor < 0 {
        return Err(ValueError);
      }
      var k := StreamOf(p, consumerId, kinds, scopeId);
      var error := AcknowledgeError(receipts, k, cursor);
      if error.Some? {
        return Err(error.value);
      }
      receipts := receipts[k := receipts[k].(acknowledged := cursor)];
      r := Ok(receipts[k]);
    }
  }
}
