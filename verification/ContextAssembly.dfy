/** Budgeted context responses: the event tail, the memory items, and the one-hop
    expansion of decisions (`ContextAssembler.get_context`, `_expand_decision_seeds`). */
module ContextAssembly {
  import opened Wrappers
  import opened EventStream
  import CanonicalJson

  // ---------------------------------------------------------------------
  // The event tail
  // ---------------------------------------------------------------------

  datatype Rendered = Rendered(event: Event, text: string, truncated: bool)

  datatype Tail = Tail(events: seq<Rendered>, used: nat, nextCursor: int, hasMore: bool)

  function Prefix(e: Event): string {
    "[" + CanonicalJson.Decimal(e.seqNo) + "/" + e.kind + "] "
  }

  /** An event in at most `remaining` characters after its prefix, cut with an ellipsis. */
  function RenderOne(e: Event, remaining: int): (r: Rendered)
    requires remaining > 0
    ensures |r.text| <= |Prefix(e)| + remaining && (r.truncated ==> |r.text| == |Prefix(e)| + remaining)
  {
    if |e.content| > remaining then Rendered(e, Prefix(e) + e.content[..remaining - 1] + "\U{2026}", true)
    else Rendered(e, Prefix(e) + e.content, false)
  }

  /** Characters left for an event's content after what was shown and its prefix. */
  function Room(shown: seq<Rendered>, e: Event, reserved: int): int {
    reserved - TextLength(shown) - |Prefix(e)|
  }

  /** Events in order while a prefix and one character fit. */
  function Render(rows: seq<Event>, reserved: int): seq<Rendered> {
    if rows == [] then []
    else
      var shown, last := Render(rows[..|rows| - 1], reserved), rows[|rows| - 1];
      if |shown| == |rows| - 1 && Room(shown, last, reserved) > 0 then shown + [RenderOne(last, Room(shown, last, reserved))]
      else shown
  }

  function TextLength(rendered: seq<Rendered>): nat {
    if rendered == [] then 0 else TextLength(rendered[..|rendered| - 1]) + |rendered[|rendered| - 1].text|
  }

  /** The events not excluded by id. */
  function Kept(rows: seq<Event>, excluded: set<Id>): seq<Event> {
    if rows == [] then []
    else if rows[|rows| - 1].id in excluded then Kept(rows[..|rows| - 1], excluded)
    else Kept(rows[..|rows| - 1], excluded) + [rows[|rows| - 1]]
  }

  /** What the response carries: on a partial rendering the cursor goes back to the last
      event shown, or stays. */
  function TailOf(page: Page, reserved: int, excluded: set<Id>): Tail {
    var kept := Kept(page.events, excluded);
    var shown := Render(kept, reserved);
    var full := |shown| == |kept|;
    Tail(shown, TextLength(shown),
      if full then page.nextCursor else if shown != [] then shown[|shown| - 1].event.seqNo else page.cursor,
      page.hasMore || !full)
  }

  method KeepEvents(rows: seq<Event>, excluded: set<Id>) returns (kept: seq<Event>)
    ensures kept == Kept(rows, excluded)
  {
    kept := [];
    var i := 0;
    while i < |rows|
      invariant 0 <= i <= |rows| && kept == Kept(rows[..i], excluded)
    {
      assert rows[..i + 1][..i] == rows[..i];
      if rows[i].id !in excluded {
        kept := kept + [rows[i]];
      }
      i := i + 1;
    }
    assert rows[..i] == rows;
  }

  /** The rendering loop of `get_context` with `prefer_latest_events` false. */
  method RenderEvents(rows: seq<Event>, reserved: int) returns (shown: seq<Rendered>, used: nat)
    ensures shown == Render(rows, reserved) && used == TextLength(shown)
  {
    shown, used := [], 0;
    var i := 0;
    while i < |rows|
      invariant 0 <= i <= |rows| && |shown| == i && used == TextLength(shown)
      invariant shown == Render(rows[..i], reserved)
    {
      var remaining := reserved - used - |Prefix(rows[i])|;
      assert rows[..i + 1][..i] == rows[..i];
      if remaining <= 0 {
        RenderStops(rows, i + 1, reserved);
        return;
      }
      var rendered := RenderOne(rows[i], remaining);
      TextLengthAppend(shown, rendered);
      shown := shown + [rendered];
      used := used + |rendered.text|;
      i := i + 1;
    }
    assert rows[..i] == rows;
  }

  /** Once an event did not fit, none after it is shown. */
  lemma {:induction false} RenderStops(rows: seq<Event>, n: nat, reserved: int)
    requires n <= |rows| && |Render(rows[..n], reserved)| < n
    ensures Render(rows, reserved) == Render(rows[..n], reserved)
  {
    if n < |rows| {
      var front := rows[..|rows| - 1];
      assert front[..n] == rows[..n];
      RenderStops(front, n, reserved);
    } else {
      assert rows[..n] == rows;
    }
  }

  method RenderTail(page: Page, reserved: int, excluded: set<Id>) returns (tail: Tail)
    ensures tail == TailOf(page, reserved, excluded)
  {
    var rows := KeepEvents(page.events, excluded);
    var shown, used := RenderEvents(rows, reserved);
    var full := |shown| == |rows|;
    tail := Tail(shown, used,
      if full then page.nextCursor else if shown != [] then shown[|shown| - 1].event.seqNo else page.cursor,
      page.hasMore || !full);
  }

  lemma {:induction false} TextLengthAppend(shown: seq<Rendered>, r: Rendered)
    ensures TextLength(shown + [r]) == TextLength(shown) + |r.text|
  {
    assert (shown + [r])[..|shown|] == shown;
  }

  /** The rendering fits the reservation. */
  lemma {:induction false} RenderFits(rows: seq<Event>, reserved: int, shown: seq<Rendered>)
    requires shown == Render(rows, reserved)
    ensures TextLength(shown) <= Max(0, reserved)
  {
    if rows != [] {
      var before, last := Render(rows[..|rows| - 1], reserved), rows[|rows| - 1];
      RenderFits(rows[..|rows| - 1], reserved, before);
      if |before| == |rows| - 1 && Room(before, last, reserved) > 0 {
        TextLengthAppend(before, RenderOne(last, Room(before, last, reserved)));
      }
    }
  }

  /** Nothing is shown exactly when the first prefix leaves no room. */
  lemma {:induction false} RenderEmpty(rows: seq<Event>, reserved: int)
    ensures |Render(rows, reserved)| <= |rows|
    ensures Render(rows, reserved) == [] <==> rows == [] || reserved <= |Prefix(rows[0])|
  {
    if rows != [] {
      RenderEmpty(rows[..|rows| - 1], reserved);
    }
  }

  /** A prefix of the events is shown, whole but for a last one that fills the reservation. */
  predicate ShowsPrefix(rows: seq<Event>, reserved: int, shown: seq<Rendered>) {
    && |shown| <= |rows| && (forall i :: 0 <= i < |shown| ==> shown[i].event == rows[i])
    && (forall i :: 0 <= i < |shown| && !shown[i].truncated ==> shown[i].text == Prefix(rows[i]) + rows[i].content)
    && (forall i :: 0 <= i < |shown| && shown[i].truncated ==> i == |shown| - 1 && TextLength(shown) == reserved)
  }

  lemma {:induction false} RenderedOne(e: Event, room: nat)
    requires room > 0
    ensures var r := RenderOne(e, room);
      && r.event == e && (!r.truncated ==> r.text == Prefix(e) + e.content)
      && (r.truncated ==> |r.text| == |Prefix(e)| + room)
  {
  }

  lemma {:induction false} ShownGrows(rows: seq<Event>, reserved: int, before: seq<Rendered>, one: Rendered)
    requires rows != [] && |before| == |rows| - 1 && ShowsPrefix(rows[..|rows| - 1], reserved, before)
    requires TextLength(before) < reserved && one.event == rows[|rows| - 1]
    requires !one.truncated ==> one.text == Prefix(one.event) + one.event.content
    requires one.truncated ==> TextLength(before + [one]) == reserved
    ensures ShowsPrefix(rows, reserved, before + [one])
  {
    var shown := before + [one];
    forall i | 0 <= i < |shown|
      ensures shown[i].event == rows[i]
      ensures !shown[i].truncated ==> shown[i].text == Prefix(rows[i]) + rows[i].content
      ensures shown[i].truncated ==> i == |shown| - 1 && TextLength(shown) == reserved
    {
      if i < |before| {
        assert shown[i] == before[i] && rows[..|rows| - 1][i] == rows[i];
      }
    }
  }

  /** What is rendered is such a prefix. */
  lemma {:induction false} RenderShowsPrefix(rows: seq<Event>, reserved: int, shown: seq<Rendered>)
    requires shown == Render(rows, reserved)
    ensures ShowsPrefix(rows, reserved, shown)
  {
    if rows != [] {
      var before, last := Render(rows[..|rows| - 1], reserved), rows[|rows| - 1];
      RenderShowsPrefix(rows[..|rows| - 1], reserved, before);
      var room := Room(before, last, reserved);
      if |before| == |rows| - 1 && room > 0 {
        TextLengthAppend(before, RenderOne(last, room));
        RenderedOne(last, room);
        ShownGrows(rows, reserved, before, RenderOne(last, room));
      }
    }
  }

  /** The events a caller should see of a stretch of the stream. */
  function Due(rows: seq<Event>, now: int, excluded: set<Id>): seq<Event> {
    Kept(Visible(rows, now), excluded)
  }

  lemma {:induction false} VisibleConcat(a: seq<Event>, b: seq<Event>, now: int)
    ensures Visible(a + b, now) == Visible(a, now) + Visible(b, now)
  {
    if b == [] {
      assert a + b == a;
    } else {
      assert (a + b)[..|a + b| - 1] == a + b[..|b| - 1];
      VisibleConcat(a, b[..|b| - 1], now);
    }
  }

  lemma {:induction false} DueConcat(a: seq<Event>, b: seq<Event>, now: int, excluded: set<Id>)
    ensures Due(a + b, now, excluded) == Due(a, now, excluded) + Due(b, now, excluded)
  {
    VisibleConcat(a, b, now);
    KeptConcat(Visible(a, now), Visible(b, now), excluded);
  }

  lemma {:induction false} KeptConcat(a: seq<Event>, b: seq<Event>, excluded: set<Id>)
    ensures Kept(a + b, excluded) == Kept(a, excluded) + Kept(b, excluded)
  {
    if b == [] {
      assert a + b == a;
    } else {
      assert (a + b)[..|a + b| - 1] == a + b[..|b| - 1];
      KeptConcat(a, b[..|b| - 1], excluded);
    }
  }

  lemma {:induction false} KeptAscends(rows: seq<Event>, excluded: set<Id>)
    requires Ascending(rows)
    ensures Ascending(Kept(rows, excluded)) && forall e :: e in Kept(rows, excluded) ==> e in rows
  {
    if rows != [] {
      var front, last := rows[..|rows| - 1], rows[|rows| - 1];
      KeptAscends(front, excluded);
      assert forall e :: e in front ==> e in rows && e.seqNo < last.seqNo;
    }
  }

  lemma {:induction false} VisibleAscends(rows: seq<Event>, now: int)
    requires Ascending(rows)
    ensures Ascending(Visible(rows, now)) && forall e :: e in Visible(rows, now) ==> e in rows
  {
    if rows != [] {
      var front, last := rows[..|rows| - 1], rows[|rows| - 1];
      VisibleAscends(front, now);
      assert forall e :: e in front ==> e in rows && e.seqNo < last.seqNo;
    }
  }

  lemma {:induction false} DueAscends(rows: seq<Event>, now: int, excluded: set<Id>)
    requires Ascending(rows)
    ensures Ascending(Due(rows, now, excluded))
    ensures forall e :: e in Due(rows, now, excluded) ==> e in rows
  {
    VisibleAscends(rows, now);
    KeptAscends(Visible(rows, now), excluded);
  }

  ghost function Shown(tail: Tail): (events: seq<Event>)
    ensures |events| == |tail.events| && forall i :: 0 <= i < |events| ==> events[i] == tail.events[i].event
  {
    seq(|tail.events|, i requires 0 <= i < |tail.events| => tail.events[i].event)
  }

  /** Cutting an ascending sequence after the element numbered `cut`. */
  lemma {:induction false} CutAt(a: seq<Event>, b: seq<Event>, k: nat, cut: int)
    requires Ascending(a + b) && 0 < k <= |a + b| && (a + b)[k - 1].seqNo == cut
    requires forall e :: e in a ==> e.seqNo <= cut
    requires forall e :: e in b ==> e.seqNo > cut
    ensures (a + b)[..k] == a
  {
    var all := a + b;
    forall i | 0 <= i < |all| ensures all[i].seqNo <= cut <==> i < |a| {
      assert all[i] == if i < |a| then a[i] else b[i - |a|];
    }
    assert forall i :: k - 1 < i < |all| ==> all[i].seqNo > all[k - 1].seqNo;
    assert k <= |a|;
    assert all[|a| - 1].seqNo <= cut;
    assert k == |a|;
  }

  /** The tail of one read, in terms of what was due up to the page's own next cursor. */
  lemma {:induction false} TailShape(page: Page, reserved: int, excluded: set<Id>, tail: Tail)
    requires tail == TailOf(page, reserved, excluded)
    ensures var kept := Kept(page.events, excluded);
      && |tail.events| <= |kept| && Shown(tail) == kept[..|tail.events|]
      && (tail.events == [] <==> kept == [] || reserved <= |Prefix(kept[0])|)
      && (|tail.events| == |kept| ==> tail.nextCursor == page.nextCursor && tail.hasMore == page.hasMore)
      && (|tail.events| < |kept| ==>
            tail.hasMore && tail.nextCursor == if tail.events == [] then page.cursor else kept[|tail.events| - 1].seqNo)
  {
    RenderEmpty(Kept(page.events, excluded), reserved);
    RenderShowsPrefix(Kept(page.events, excluded), reserved, tail.events);
  }

  /** The whole page was shown. */
  predicate Full(page: Page, excluded: set<Id>, tail: Tail) {
    |tail.events| == |Kept(page.events, excluded)|
  }

  /** The cursor of a tail lies in its page's range, and it shows what was due up to there. */
  ghost predicate Covers(rows: seq<Event>, f: Filter, cursor: int, now: int, excluded: set<Id>, page: Page, tail: Tail) {
    && tail.nextCursor <= page.nextCursor
    && (if cursor <= |rows| then cursor <= tail.nextCursor <= |rows| else tail.nextCursor == |rows| && !tail.hasMore)
    && Shown(tail) == Due(Query(rows, f, cursor, tail.nextCursor), now, excluded)
    && (!tail.hasMore ==> tail.nextCursor == |rows|)
  }

  lemma {:induction false} FullTail(rows: seq<Event>, f: Filter, cursor: int, limit: nat, now: int, reserved: int, excluded: set<Id>,
    page: Page, tail: Tail)
    requires Dense(rows) && limit > 0 && tail == TailOf(page, reserved, excluded)
    requires page == ReadPage(rows, f, cursor, |rows|, limit, now) && (Full(page, excluded, tail) || cursor > |rows|)
    ensures Full(page, excluded, tail) && Covers(rows, f, cursor, now, excluded, page, tail)
  {
    PageCovers(rows, f, cursor, |rows|, limit, now);
    TailShape(page, reserved, excluded, tail);
    if cursor > |rows| {
      QueryEmpty(rows, f, cursor, |rows|);
      assert page.events == Visible([], now) == [] && Kept(page.events, excluded) == [];
    }
    var kept := Kept(page.events, excluded);
    assert kept[..|kept|] == kept;
  }

  /** The page covers the range up to its next cursor. */
  ghost predicate Ranged(rows: seq<Event>, f: Filter, cursor: int, now: int, page: Page) {
    page.cursor == cursor <= page.nextCursor <= |rows| && page.events == Visible(Query(rows, f, cursor, page.nextCursor), now)
  }

  lemma {:induction false} CutTail(rows: seq<Event>, f: Filter, cursor: int, now: int, reserved: int, excluded: set<Id>,
    page: Page, tail: Tail)
    requires Dense(rows) && tail == TailOf(page, reserved, excluded)
    requires Ranged(rows, f, cursor, now, page) && !Full(page, excluded, tail)
    ensures Covers(rows, f, cursor, now, excluded, page, tail)
    ensures tail.events != [] ==> cursor < tail.nextCursor
  {
    if tail.events == [] {
      NothingShown(rows, f, cursor, now, reserved, excluded, page, tail);
    } else {
      SomeShown(rows, f, cursor, now, reserved, excluded, page, tail);
    }
  }

  lemma {:induction false} NothingShown(rows: seq<Event>, f: Filter, cursor: int, now: int, reserved: int, excluded: set<Id>,
    page: Page, tail: Tail)
    requires Dense(rows) && tail == TailOf(page, reserved, excluded) && tail.events == []
    requires Ranged(rows, f, cursor, now, page) && !Full(page, excluded, tail)
    ensures Covers(rows, f, cursor, now, excluded, page, tail)
  {
    TailShape(page, reserved, excluded, tail);
    QueryEmpty(rows, f, cursor, cursor);
    assert Due([], now, excluded) == [];
  }

  lemma {:induction false} SomeShown(rows: seq<Event>, f: Filter, cursor: int, now: int, reserved: int, excluded: set<Id>,
    page: Page, tail: Tail)
    requires Dense(rows) && tail == TailOf(page, reserved, excluded) && tail.events != []
    requires Ranged(rows, f, cursor, now, page) && !Full(page, excluded, tail)
    ensures Covers(rows, f, cursor, now, excluded, page, tail) && cursor < tail.nextCursor
  {
    TailShape(page, reserved, excluded, tail);
    PartialTail(rows, f, cursor, page.nextCursor, |tail.events|, now, excluded);
  }

  /** Nothing is lost between two cursors when the read behind a response answers: it shows
      exactly the events due in (cursor, next cursor], and stops short of the snapshot only
      when it says so. It makes no progress exactly when the first event's prefix alone fills
      the reserved budget. A cursor beyond the stream shows nothing and comes back to its
      end. */
  lemma {:induction false} TailCovers(rows: seq<Event>, f: Filter, cursor: int, limit: nat, now: int, reserved: int, excluded: set<Id>,
    page: Page, tail: Tail)
    requires Dense(rows) && limit > 0
    requires ReadEvents(rows, f, cursor, |rows|, limit, now) == Ok(page) && tail == TailOf(page, reserved, excluded)
    ensures tail.nextCursor <= page.nextCursor
    ensures if cursor <= |rows| then cursor <= tail.nextCursor <= |rows| else tail.nextCursor == |rows| && !tail.hasMore
    ensures Shown(tail) == Due(Query(rows, f, cursor, tail.nextCursor), now, excluded)
    ensures !tail.hasMore ==> tail.nextCursor == |rows|
    ensures var kept := Kept(page.events, excluded);
      tail.hasMore && tail.nextCursor == cursor <==> kept != [] && reserved <= |Prefix(kept[0])|
  {
    ReadRaisesIff(rows, f, cursor, |rows|, limit, now);
    TailShape(page, reserved, excluded, tail);
    if Full(page, excluded, tail) || cursor > |rows| {
      FullTail(rows, f, cursor, limit, now, reserved, excluded, page, tail);
      if page.hasMore {
        PageMoves(rows, f, cursor, limit, now, page);
      }
      return;
    }
    PageCovers(rows, f, cursor, |rows|, limit, now);
    CutTail(rows, f, cursor, now, reserved, excluded, page, tail);
  }

  lemma {:induction false} PageMoves(rows: seq<Event>, f: Filter, cursor: int, limit: nat, now: int, page: Page)
    requires Dense(rows) && limit > 0 && page == ReadPage(rows, f, cursor, |rows|, limit, now) && page.hasMore
    ensures cursor < page.nextCursor
  {
    PageCovers(rows, f, cursor, |rows|, limit, now);
  }

  lemma {:induction false} PartialTail(rows: seq<Event>, f: Filter, cursor: int, next: int, k: nat, now: int, excluded: set<Id>)
    requires Dense(rows) && cursor <= next
    requires 0 < k <= |Due(Query(rows, f, cursor, next), now, excluded)|
    ensures var kept := Due(Query(rows, f, cursor, next), now, excluded);
      var cut := kept[k - 1].seqNo;
      cursor < cut <= next && kept[..k] == Due(Query(rows, f, cursor, cut), now, excluded)
  {
    var all := Query(rows, f, cursor, next);
    var kept := Due(all, now, excluded);
    var cut := kept[k - 1].seqNo;
    QueryExact(rows, f, cursor, next);
    DueAscends(all, now, excluded);
    assert kept[k - 1] in all;
    QuerySplit(rows, f, cursor, cut, next);
    var before, after := Query(rows, f, cursor, cut), Query(rows, f, cut, next);
    QueryExact(rows, f, cursor, cut);
    QueryExact(rows, f, cut, next);
    DueConcat(before, after, now, excluded);
    DueAscends(before, now, excluded);
    DueAscends(after, now, excluded);
    CutAt(Due(before, now, excluded), Due(after, now, excluded), k, cut);
  }

  // ---------------------------------------------------------------------
  // Resuming from the returned cursor
  // ---------------------------------------------------------------------

  /** One `get_context` call: what the store held, the clock, and the caller's limits. */
  datatype Call = Call(rows: seq<Event>, now: int, limit: nat, reserved: int, excluded: set<Id>)

  /** Later calls see every row earlier ones saw. */
  ghost predicate Grow(calls: seq<Call>) {
    && (forall i :: 0 <= i < |calls| ==> Dense(calls[i].rows) && calls[i].limit > 0)
    && forall i, j :: 0 <= i < j < |calls| ==> calls[i].rows <= calls[j].rows
  }

  /** The call raises when its read does. */
  function TailAt(c: Call, f: Filter, cursor: int): Option<Tail>
    requires c.limit > 0
  {
    var reply := ReadEvents(c.rows, f, cursor, |c.rows|, c.limit, c.now);
    if reply.Err? then None else Some(TailOf(reply.value, c.reserved, c.excluded))
  }

  ghost function ShownBy(c: Call, f: Filter, cursor: int): seq<Event>
    requires c.limit > 0
  {
    if TailAt(c, f, cursor).None? then [] else Shown(TailAt(c, f, cursor).value)
  }

  /** One call from a cursor: where it leaves the caller. */
  function NextAt(c: Call, f: Filter, cursor: int): int
    requires c.limit > 0
  {
    var tail := TailAt(c, f, cursor);
    if tail.None? then cursor else tail.value.nextCursor
  }

  /** Everything a chain of calls was shown, each call resuming where the last one that
      answered stopped, and the cursor it ends on. */
  ghost function Chain(calls: seq<Call>, f: Filter, cursor: int): (seq<Event>, int)
    requires Grow(calls)
  {
    if calls == [] then ([], cursor)
    else
      var (before, at) := Chain(calls[..|calls| - 1], f, cursor);
      (before + ShownBy(calls[|calls| - 1], f, at), NextAt(calls[|calls| - 1], f, at))
  }

  /** What was due to the chain in the stream `rows`: window by window, the events up to the
      next cursor that the call of that window saw unexpired and did not exclude. */
  ghost function DueTo(calls: seq<Call>, f: Filter, cursor: int, rows: seq<Event>): seq<Event>
    requires Grow(calls)
  {
    if calls == [] then []
    else
      var front, last := calls[..|calls| - 1], calls[|calls| - 1];
      DueTo(front, f, cursor, rows)
      + Due(Query(rows, f, Chain(front, f, cursor).1, Chain(calls, f, cursor).1), last.now, last.excluded)
  }

  /** The windows themselves. */
  ghost function Windows(calls: seq<Call>, f: Filter, cursor: int, rows: seq<Event>): seq<Event>
    requires Grow(calls)
  {
    if calls == [] then []
    else
      var front := calls[..|calls| - 1];
      Windows(front, f, cursor, rows) + Query(rows, f, Chain(front, f, cursor).1, Chain(calls, f, cursor).1)
  }

  /** Where a chain begins to read: at its cursor, or at the end of a stream that does not
      reach it. */
  function Begin(calls: seq<Call>, cursor: int): int {
    if calls != [] && cursor > |calls[0].rows| then |calls[0].rows| else cursor
  }

  lemma {:induction false} CallCovers(c: Call, f: Filter, cursor: int, next: int)
    requires Dense(c.rows) && c.limit > 0 && next == NextAt(c, f, cursor)
    ensures next <= |c.rows| && (if cursor <= |c.rows| then cursor <= next else next == |c.rows|)
    ensures ShownBy(c, f, cursor) == Due(Query(c.rows, f, cursor, next), c.now, c.excluded)
  {
    var reply := ReadEvents(c.rows, f, cursor, |c.rows|, c.limit, c.now);
    if reply.Err? {
      RaisedInside(c, f, cursor);
      return;
    }
    TailCovers(c.rows, f, cursor, c.limit, c.now, c.reserved, c.excluded, reply.value, TailAt(c, f, cursor).value);
  }

  lemma {:induction false} FrontCalls(calls: seq<Call>, cursor: int, front: seq<Call>)
    requires Grow(calls) && |calls| > 1 && front == calls[..|calls| - 1]
    ensures Grow(front) && Begin(front, cursor) == Begin(calls, cursor)
    ensures front[|front| - 1].rows <= calls[|calls| - 1].rows
  {
    assert forall i :: 0 <= i < |front| ==> front[i] == calls[i];
  }

  /** After its first call the chain's cursors move forward inside the stream. */
  lemma {:induction false} ChainForward(calls: seq<Call>, f: Filter, cursor: int)
    requires Grow(calls) && calls != []
    ensures var front, last := calls[..|calls| - 1], calls[|calls| - 1];
      var at := Chain(front, f, cursor).1;
      && Begin(calls, cursor) <= Chain(calls, f, cursor).1 <= |last.rows|
      && (front != [] || cursor <= |last.rows| ==> Begin(calls, cursor) <= at <= Chain(calls, f, cursor).1)
      && ShownBy(last, f, at) == Due(Query(last.rows, f, at, Chain(calls, f, cursor).1), last.now, last.excluded)
  {
    var front, last := calls[..|calls| - 1], calls[|calls| - 1];
    var at, next := Chain(front, f, cursor).1, Chain(calls, f, cursor).1;
    assert next == NextAt(last, f, at);
    CallCovers(last, f, at, next);
    if front == [] {
      assert at == cursor && last == calls[0];
      return;
    }
    ChainForward(front, f, cursor);
    FrontCalls(calls, cursor, front);
  }

  /** A call that raised has matching events ahead of it, and shows nothing. */
  lemma {:induction false} RaisedInside(c: Call, f: Filter, cursor: int)
    requires Dense(c.rows) && c.limit > 0 && TailAt(c, f, cursor).None?
    ensures cursor < |c.rows| && Due(Query(c.rows, f, cursor, cursor), c.now, c.excluded) == []
  {
    QueryExact(c.rows, f, cursor, |c.rows|);
    var found := Query(c.rows, f, cursor, |c.rows|);
    ReadRaisesIff(c.rows, f, cursor, |c.rows|, c.limit, c.now);
    assert found[0] in found;
    QueryEmpty(c.rows, f, cursor, cursor);
    assert Visible([], c.now) == [];
  }

  /** No chain of calls gets to or past a matching event that cannot be read. */
  lemma {:induction false} ChainStopsBefore(calls: seq<Call>, f: Filter, cursor: int, e: Event)
    requires Grow(calls) && calls != []
    requires e in Query(calls[0].rows, f, cursor, |calls[0].rows|) && ReadError(e).Some?
    ensures Chain(calls, f, cursor).1 < e.seqNo
  {
    var front, last := calls[..|calls| - 1], calls[|calls| - 1];
    QueryExact(calls[0].rows, f, cursor, |calls[0].rows|);
    if front != [] {
      ChainStopsBefore(front, f, cursor, e);
    }
    var at := Chain(front, f, cursor).1;
    var reply := ReadEvents(last.rows, f, at, |last.rows|, last.limit, last.now);
    if reply.Ok? {
      assert calls[0].rows <= last.rows;
      CallStopsBefore(last, f, at, e, reply.value, TailAt(last, f, at).value);
    }
  }

  lemma {:induction false} CallStopsBefore(c: Call, f: Filter, cursor: int, e: Event, page: Page, tail: Tail)
    requires Dense(c.rows) && c.limit > 0 && ReadEvents(c.rows, f, cursor, |c.rows|, c.limit, c.now) == Ok(page)
    requires tail == TailOf(page, c.reserved, c.excluded)
    requires e in c.rows && Matches(f, e) && cursor < e.seqNo && ReadError(e).Some?
    ensures tail.nextCursor < e.seqNo
  {
    QueryExact(c.rows, f, cursor, |c.rows|);
    StopsBefore(c.rows, f, cursor, c.limit, c.now, e, page);
    TailCovers(c.rows, f, cursor, c.limit, c.now, c.reserved, c.excluded, page, tail);
  }

  /** Resuming loses and repeats nothing, even while events are appended and whether or not
      calls raise: the windows partition the stream from the first cursor to the last, and
      every call showed exactly what was due in its window. */
  lemma {:induction false} ResumeLosesNothing(calls: seq<Call>, f: Filter, cursor: int, rows: seq<Event>)
    requires Grow(calls) && (calls != [] ==> calls[|calls| - 1].rows <= rows) && Dense(rows)
    ensures Chain(calls, f, cursor).0 == DueTo(calls, f, cursor, rows)
    ensures Begin(calls, cursor) <= Chain(calls, f, cursor).1
    ensures Windows(calls, f, cursor, rows) == Query(rows, f, Begin(calls, cursor), Chain(calls, f, cursor).1)
  {
    if calls == [] {
      QueryEmpty(rows, f, cursor, cursor);
    } else if |calls| == 1 {
      ChainForward(calls, f, cursor);
      ResumeOnce(calls, f, cursor, rows);
    } else {
      var front, last := calls[..|calls| - 1], calls[|calls| - 1];
      ChainForward(calls, f, cursor);
      ResumeLosesNothing(front, f, cursor, rows);
      var at, next := Chain(front, f, cursor).1, Chain(calls, f, cursor).1;
      QueryStable(last.rows, rows, f, at, next);
      QuerySplit(rows, f, Begin(calls, cursor), at, next);
    }
  }

  lemma {:induction false} ResumeOnce(calls: seq<Call>, f: Filter, cursor: int, rows: seq<Event>)
    requires Grow(calls) && |calls| == 1 && calls[0].rows <= rows && Dense(rows)
    ensures Chain(calls, f, cursor).0 == DueTo(calls, f, cursor, rows)
    ensures Windows(calls, f, cursor, rows) == Query(rows, f, Begin(calls, cursor), Chain(calls, f, cursor).1)
  {
    ChainForward(calls, f, cursor);
    var next := Chain(calls, f, cursor).1;
    assert calls[..0] == [];
    QueryStable(calls[0].rows, rows, f, cursor, next);
    if cursor > |calls[0].rows| {
      QueryEmpty(rows, f, cursor, next);
      QueryEmpty(rows, f, next, next);
    }
  }

  // ---------------------------------------------------------------------
  // Memory items
  // ---------------------------------------------------------------------

  /** A search hit and its rendered block. */
  datatype Hit = Hit(id: Id, block: string)

  /** Which hits are near-duplicates of which, by id. */
  type Similarity = set<(Id, Id)>

  predicate Among(items: seq<Hit>, id: Id) {
    exists i :: 0 <= i < |items| && items[i].id == id
  }

  /** Items chosen so far, and how many hits were not near-duplicates of one. */
  datatype Packing = Packing(items: seq<Hit>, eligible: nat)

  /** Characters charged for the items: each block and a separator. */
  function Charged(items: seq<Hit>): nat {
    if items == [] then 0 else Charged(items[..|items| - 1]) + Cost(items[|items| - 1])
  }

  function Cost(hit: Hit): (n: nat)
    ensures n >= 2
  {
    |hit.block| + 2
  }

  lemma {:induction false} ChargedAppend(items: seq<Hit>, hit: Hit)
    ensures Charged(items + [hit]) == Charged(items) + Cost(hit)
  {
    assert (items + [hit])[..|items|] == items;
  }

  predicate Repeats(items: seq<Hit>, hit: Hit, similar: Similarity) {
    exists i :: 0 <= i < |items| && (hit.id, items[i].id) in similar
  }

  predicate HasRoom(items: seq<Hit>, hit: Hit, maxItems: int, budget: int) {
    |items| < maxItems && Charged(items) + Cost(hit) <= budget
  }

  function PackOne(p: Packing, hit: Hit, maxItems: int, budget: int, similar: Similarity): Packing {
    if Repeats(p.items, hit, similar) then p
    else Packing(if HasRoom(p.items, hit, maxItems, budget) then p.items + [hit] else p.items, p.eligible + 1)
  }

  function Pack(hits: seq<Hit>, maxItems: int, budget: int, similar: Similarity): Packing {
    if hits == [] then Packing([], 0)
    else PackOne(Pack(hits[..|hits| - 1], maxItems, budget, similar), hits[|hits| - 1], maxItems, budget, similar)
  }

  /** The packing loop of `get_context`. */
  method PackItems(hits: seq<Hit>, maxItems: int, budget: int, similar: Similarity)
    returns (items: seq<Hit>, used: nat, eligible: nat)
    ensures Packing(items, eligible) == Pack(hits, maxItems, budget, similar) && used == Charged(items)
  {
    items, used, eligible := [], 0, 0;
    var i := 0;
    while i < |hits|
      invariant 0 <= i <= |hits| && used == Charged(items)
      invariant Packing(items, eligible) == Pack(hits[..i], maxItems, budget, similar)
    {
      assert hits[..i + 1][..i] == hits[..i];
      var hit := hits[i];
      i := i + 1;
      if exists k :: 0 <= k < |items| && (hit.id, items[k].id) in similar {
        continue;
      }
      eligible := eligible + 1;
      if |items| >= maxItems || used + Cost(hit) > budget {
        continue;
      }
      ChargedAppend(items, hit);
      items := items + [hit];
      used := used + Cost(hit);
    }
    assert hits[..i] == hits;
  }

  predicate DistinctIds(hits: seq<Hit>) {
    forall i, j :: 0 <= i < j < |hits| ==> hits[i].id != hits[j].id
  }

  /** The packing respects both limits. */
  lemma {:induction false} PackFits(hits: seq<Hit>, maxItems: int, budget: int, similar: Similarity, p: Packing)
    requires maxItems >= 0 && budget >= 0 && p == Pack(hits, maxItems, budget, similar)
    ensures |p.items| <= maxItems && Charged(p.items) <= budget && |p.items| <= p.eligible
  {
    if hits != [] {
      var before := Pack(hits[..|hits| - 1], maxItems, budget, similar);
      PackFits(hits[..|hits| - 1], maxItems, budget, similar, before);
      ChargedAppend(before.items, hits[|hits| - 1]);
    }
  }

  /** It takes each memory at most once, and no near-duplicate of an earlier item. */
  lemma {:induction false} PackDistinct(hits: seq<Hit>, maxItems: int, budget: int, similar: Similarity, p: Packing)
    requires DistinctIds(hits) && p == Pack(hits, maxItems, budget, similar)
    ensures DistinctIds(p.items) && forall hit :: hit in p.items ==> hit in hits
    ensures forall i, j :: 0 <= i < j < |p.items| ==> (p.items[j].id, p.items[i].id) !in similar
  {
    if hits != [] {
      var front, last := hits[..|hits| - 1], hits[|hits| - 1];
      PackDistinct(front, maxItems, budget, similar, Pack(front, maxItems, budget, similar));
      assert forall hit :: hit in front ==> hit in hits && hit.id != last.id;
    }
  }

  /** A hit left out repeats a chosen item or has no room, even at the end. */
  lemma {:induction false} PackComplete(hits: seq<Hit>, maxItems: int, budget: int, similar: Similarity, p: Packing)
    requires maxItems >= 0 && budget >= 0 && p == Pack(hits, maxItems, budget, similar)
    ensures forall hit :: hit in hits && hit !in p.items ==>
      Repeats(p.items, hit, similar) || (!HasRoom(p.items, hit, maxItems, budget) && p.eligible > |p.items|)
  {
    if hits != [] {
      var front, last := hits[..|hits| - 1], hits[|hits| - 1];
      var before := Pack(front, maxItems, budget, similar);
      PackComplete(front, maxItems, budget, similar, before);
      PackFits(front, maxItems, budget, similar, before);
      ChargedAppend(before.items, last);
      forall hit | hit in hits && hit !in p.items
        ensures Repeats(p.items, hit, similar) || (!HasRoom(p.items, hit, maxItems, budget) && p.eligible > |p.items|)
      {
        if hit in front && Repeats(before.items, hit, similar) {
          var i :| 0 <= i < |before.items| && (hit.id, before.items[i].id) in similar;
          assert p.items[i] == before.items[i];
        }
      }
    }
  }

  /** Discovery hits are added unless the local search found the same memory. */
  function Merged(local: seq<Hit>, discovered: seq<Hit>): seq<Hit> {
    if discovered == [] then local
    else
      var before, last := Merged(local, discovered[..|discovered| - 1]), discovered[|discovered| - 1];
      if Among(local, last.id) then before else before + [last]
  }

  lemma {:induction false} MergedDistinct(local: seq<Hit>, discovered: seq<Hit>)
    requires DistinctIds(local) && DistinctIds(discovered)
    ensures DistinctIds(Merged(local, discovered))
    ensures forall hit :: hit in Merged(local, discovered) ==> hit in local || hit in discovered
  {
    if discovered != [] {
      var front, last := discovered[..|discovered| - 1], discovered[|discovered| - 1];
      MergedDistinct(local, front);
      assert forall hit :: hit in front ==> hit.id != last.id;
    }
  }

  /** `"\n\n".join` of the item texts. */
  function Joined(items: seq<Hit>): string {
    if items == [] then ""
    else if |items| == 1 then items[0].block
    else Joined(items[..|items| - 1]) + "\n\n" + items[|items| - 1].block
  }

  lemma {:induction false} JoinedFits(items: seq<Hit>)
    ensures |Joined(items)| <= Charged(items)
  {
    if |items| > 1 {
      JoinedFits(items[..|items| - 1]);
    }
  }

  function Min(a: int, b: int): int {
    if a <= b then a else b
  }

  /** The budgets of one call: the caller's, capped by policy, and the part reserved for
      events when a cursor is given. */
  function Budget(requested: int, policyMax: int): int {
    Min(Max(0, requested), policyMax)
  }

  function Reserved(hasCursor: bool, eventBudget: int, budget: int): int {
    if hasCursor then Min(Min(Max(0, eventBudget), 4000), budget) else 0
  }

  lemma {:induction false} BudgetsOrdered(requested: int, policyMax: int, eventBudget: int, budget: int, reserved: int)
    requires policyMax >= 0 && budget == Budget(requested, policyMax) && reserved == Reserved(true, eventBudget, budget)
    ensures 0 <= reserved <= budget <= policyMax
  {
  }

  lemma {:induction false} TailFits(page: Page, reserved: int, excluded: set<Id>, tail: Tail)
    requires reserved >= 0 && tail == TailOf(page, reserved, excluded)
    ensures tail.used == TextLength(tail.events) <= reserved
  {
    RenderFits(Kept(page.events, excluded), reserved, tail.events);
  }

  lemma {:induction false} ItemsFit(hits: seq<Hit>, maxItems: nat, room: int, similar: Similarity, p: Packing)
    requires room >= 0 && DistinctIds(hits) && p == Pack(hits, maxItems, room, similar)
    ensures |Joined(p.items)| <= Charged(p.items) <= room && |p.items| <= maxItems && DistinctIds(p.items)
  {
    PackFits(hits, maxItems, room, similar, p);
    PackDistinct(hits, maxItems, room, similar, p);
    JoinedFits(p.items);
  }

  /** A whole response stays within the capped budget: events within their reservation,
      events and items together within the budget, and the joined text within what the
      items were charged. */
  lemma {:induction false} ResponseWithinBudget(requested: int, policyMax: int, eventBudget: int, page: Page, excluded: set<Id>,
    hits: seq<Hit>, maxItems: nat, similar: Similarity, budget: int, reserved: int, tail: Tail, p: Packing)
    requires policyMax >= 0 && DistinctIds(hits)
    requires budget == Budget(requested, policyMax) && reserved == Reserved(true, eventBudget, budget)
    requires tail == TailOf(page, reserved, excluded)
    requires p == Pack(hits, maxItems, budget - tail.used, similar)
    ensures tail.used <= reserved <= budget <= policyMax
    ensures tail.used + Charged(p.items) <= budget
    ensures TextLength(tail.events) + |Joined(p.items)| <= budget
    ensures |p.items| <= maxItems && DistinctIds(p.items)
  {
    BudgetsOrdered(requested, policyMax, eventBudget, budget, reserved);
    TailFits(page, reserved, excluded, tail);
    ItemsFit(hits, maxItems, budget - tail.used, similar, p);
  }

  // ---------------------------------------------------------------------
  // Expanding decisions
  // ---------------------------------------------------------------------

  /** The part of a response that expansion changes. */
  datatype Context = Context(items: seq<Hit>, memoryUsed: nat, used: nat, memoryBudget: int, maxItems: int, truncated: bool)

  predicate WithinBudget(c: Context, eventUsed: nat) {
    && c.memoryUsed == Charged(c.items) && c.used == c.memoryUsed + eventUsed
    && c.memoryUsed <= c.memoryBudget && |c.items| <= c.maxItems
    && DistinctIds(c.items)
  }

  function ExpandOne(c: Context, hit: Hit): Context {
    if |c.items| >= c.maxItems || c.memoryUsed + Cost(hit) > c.memoryBudget then c.(truncated := true)
    else c.(items := c.items + [hit], memoryUsed := c.memoryUsed + Cost(hit), used := c.used + Cost(hit))
  }

  /** Candidates in priority order; those retrieved before or without a row are passed over. */
  function Expanded(c: Context, ordered: seq<Id>, rows: map<Id, Hit>): Context {
    if ordered == [] then c
    else
      var before, id := Expanded(c, ordered[..|ordered| - 1], rows), ordered[|ordered| - 1];
      if id !in rows || Among(c.items, id) then before else ExpandOne(before, rows[id])
  }

  /** The last loop of `_expand_decision_seeds`. */
  method ExpandSeeds(c: Context, ordered: seq<Id>, rows: map<Id, Hit>) returns (after: Context, added: nat)
    ensures after == Expanded(c, ordered, rows)
    ensures |after.items| == |c.items| + added
  {
    after, added := c, 0;
    var k := 0;
    while k < |ordered|
      invariant 0 <= k <= |ordered|
      invariant after == Expanded(c, ordered[..k], rows) && after.maxItems == c.maxItems
      invariant |after.items| == |c.items| + added
    {
      assert ordered[..k + 1][..k] == ordered[..k];
      var id := ordered[k];
      if id in rows && !(exists i :: 0 <= i < |c.items| && c.items[i].id == id) {
        var hit := rows[id];
        if |after.items| >= after.maxItems || after.memoryUsed + Cost(hit) > after.memoryBudget {
          after := after.(truncated := true);
        } else {
          after := after.(items := after.items + [hit], memoryUsed := after.memoryUsed + Cost(hit), used := after.used + Cost(hit));
          added := added + 1;
        }
      }
      k := k + 1;
    }
    assert ordered[..k] == ordered;
  }

  predicate Candidates(ordered: seq<Id>, rows: map<Id, Hit>) {
    && (forall i, j :: 0 <= i < j < |ordered| ==> ordered[i] != ordered[j])
    && (forall id :: id in rows ==> rows[id].id == id)
  }

  lemma {:induction false} ExpandOneKeeps(c: Context, hit: Hit, eventUsed: nat, after: Context)
    requires WithinBudget(c, eventUsed) && !Among(c.items, hit.id) && after == ExpandOne(c, hit)
    ensures WithinBudget(after, eventUsed) && c.items <= after.items
    ensures after.memoryBudget == c.memoryBudget && after.maxItems == c.maxItems && (c.truncated ==> after.truncated)
    ensures after.items == c.items + [hit] || (after.items == c.items && after.truncated && !HasRoom(c.items, hit, c.maxItems, c.memoryBudget))
  {
    ChargedAppend(c.items, hit);
  }

  /** Expansion keeps every limit and every earlier item, and adds no memory twice. */
  lemma {:induction false} ExpansionWithinBudget(c: Context, ordered: seq<Id>, rows: map<Id, Hit>, eventUsed: nat, after: Context)
    requires WithinBudget(c, eventUsed) && Candidates(ordered, rows) && after == Expanded(c, ordered, rows)
    ensures WithinBudget(after, eventUsed) && c.items <= after.items
    ensures after.memoryBudget == c.memoryBudget && after.maxItems == c.maxItems
    ensures forall i :: |c.items| <= i < |after.items| ==> after.items[i].id in ordered
  {
    if ordered != [] {
      var front, id := ordered[..|ordered| - 1], ordered[|ordered| - 1];
      var before := Expanded(c, front, rows);
      ExpansionWithinBudget(c, front, rows, eventUsed, before);
      if id in rows && !Among(c.items, id) {
        NotYet(c, before, front, id);
        ExpandOneKeeps(before, rows[id], eventUsed, after);
      }
    }
  }

  lemma {:induction false} NotYet(c: Context, before: Context, front: seq<Id>, id: Id)
    requires c.items <= before.items && !Among(c.items, id) && id !in front
    requires forall i :: |c.items| <= i < |before.items| ==> before.items[i].id in front
    ensures !Among(before.items, id)
  {
    forall i | 0 <= i < |before.items| ensures before.items[i].id != id {
      if i < |c.items| {
        assert before.items[i] == c.items[i];
      }
    }
  }

  lemma {:induction false} AmongLonger(items: seq<Hit>, longer: seq<Hit>, id: Id)
    requires items <= longer && Among(items, id)
    ensures Among(longer, id)
  {
    var i :| 0 <= i < |items| && items[i].id == id;
    assert longer[i] == items[i];
  }

  /** A candidate is absent afterwards only for lack of room, and then the response is
      marked as truncated. */
  lemma {:induction false} ExpansionComplete(c: Context, ordered: seq<Id>, rows: map<Id, Hit>, eventUsed: nat, after: Context, id: Id)
    requires WithinBudget(c, eventUsed) && Candidates(ordered, rows) && after == Expanded(c, ordered, rows)
    requires id in ordered && id in rows && !Among(after.items, id)
    ensures after.truncated && !HasRoom(after.items, rows[id], c.maxItems, c.memoryBudget)
  {
    var front, last := ordered[..|ordered| - 1], ordered[|ordered| - 1];
    var before := Expanded(c, front, rows);
    ExpansionWithinBudget(c, front, rows, eventUsed, before);
    if Among(c.items, id) {
      AmongLonger(c.items, before.items, id);
    }
    if last in rows && !Among(c.items, last) {
      NotYet(c, before, front, last);
      ExpandOneKeeps(before, rows[last], eventUsed, after);
    }
    if Among(before.items, id) {
      AmongLonger(before.items, after.items, id);
    }
    if id == last {
      assert (before.items + [rows[id]])[|before.items|].id == id;
    } else {
      assert id in front;
      ExpansionComplete(c, front, rows, eventUsed, before, id);
      ChargedAppend(before.items, if last in rows then rows[last] else rows[id]);
    }
  }
}
