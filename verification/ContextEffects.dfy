/** What the pieces of a context response hold: which events are rendered and how, which hits are
    packed, and how the budgets are split. */
module ContextEffects {
  import opened Wrappers
  import opened EventStream
  import opened ContextAssembly
  import CanonicalJson

  // ---------------------------------------------------------------------
  // The event tail
  // ---------------------------------------------------------------------

  function Heading(e: Event): string {
    "[" + CanonicalJson.Decimal(e.seqNo) + "/" + e.kind + "] "
  }

  /** The event whole, or cut with an ellipsis to `room` characters after its heading. */
  predicate RenderedIn(e: Event, room: int, r: Rendered) {
    && room > 0 && r.event == e && r.truncated == (|e.content| > room)
    && r.text == Heading(e) + if |e.content| <= room then e.content else e.content[..room - 1] + "\U{2026}"
  }

  /** The text of everything shown. */
  function Together(shown: seq<Rendered>): string {
    if shown == [] then "" else shown[0].text + Together(shown[1..])
  }

  lemma {:induction false} TogetherSnoc(shown: seq<Rendered>, r: Rendered)
    ensures Together(shown + [r]) == Together(shown) + r.text
  {
    if shown == [] {
      assert shown + [r] == [r];
    } else {
      TogetherSnoc(shown[1..], r);
      assert (shown + [r])[1..] == shown[1..] + [r];
    }
  }

  lemma {:induction false} LengthExact(shown: seq<Rendered>)
    ensures TextLength(shown) == |Together(shown)|
  {
    if shown != [] {
      var front, last := shown[..|shown| - 1], shown[|shown| - 1];
      LengthExact(front);
      assert shown == front + [last];
      TogetherSnoc(front, last);
    }
  }

  function RoomFor(shown: seq<Rendered>, e: Event, reserved: int): int {
    reserved - |Together(shown)| - |Heading(e)|
  }

  /** Each event is rendered in the room its forerunners leave, and the first one without any
      ends the rendering. */
  ghost predicate RenderedInOrder(rows: seq<Event>, reserved: int, shown: seq<Rendered>) {
    && |shown| <= |rows|
    && (forall i :: 0 <= i < |shown| ==> RenderedIn(rows[i], RoomFor(shown[..i], rows[i], reserved), shown[i]))
    && (|shown| < |rows| ==> RoomFor(shown, rows[|shown|], reserved) <= 0)
  }

  lemma {:induction false} RenderExact(rows: seq<Event>, reserved: int, shown: seq<Rendered>)
    requires shown == Render(rows, reserved)
    ensures RenderedInOrder(rows, reserved, shown)
  {
    if rows == [] {
      return;
    }
    var front, last := rows[..|rows| - 1], rows[|rows| - 1];
    var before := Render(front, reserved);
    RenderExact(front, reserved, before);
    LengthExact(before);
    if shown == before {
      assert forall i :: 0 <= i < |shown| ==> front[i] == rows[i];
      return;
    }
    var one := RenderOne(last, Room(before, last, reserved));
    assert shown == before + [one];
    forall i | 0 <= i < |shown| ensures RenderedIn(rows[i], RoomFor(shown[..i], rows[i], reserved), shown[i]) {
      if i < |before| {
        assert shown[..i] == before[..i] && front[i] == rows[i];
      } else {
        assert shown[..i] == before;
      }
    }
  }

  /** The events not excluded, in their order. */
  ghost predicate KeptAt(rows: seq<Event>, excluded: set<Id>, kept: seq<Event>, at: seq<nat>) {
    && |at| == |kept| && (forall i, j :: 0 <= i < j < |at| ==> at[i] < at[j])
    && (forall i :: 0 <= i < |at| ==> at[i] < |rows| && rows[at[i]] == kept[i])
    && (forall k :: 0 <= k < |rows| ==> (k in at <==> rows[k].id !in excluded))
  }

  lemma {:induction false} KeptSnoc(rows: seq<Event>, excluded: set<Id>, kept: seq<Event>, at: seq<nat>, e: Event)
    requires KeptAt(rows, excluded, kept, at)
    ensures e.id in excluded ==> KeptAt(rows + [e], excluded, kept, at)
    ensures e.id !in excluded ==> KeptAt(rows + [e], excluded, kept + [e], at + [|rows|])
  {
    var all, more := rows + [e], at + [|rows|];
    assert forall i :: 0 <= i < |at| ==> more[i] == at[i] && all[at[i]] == rows[at[i]];
    assert more[|at|] == |rows|;
    forall k | 0 <= k < |all| ensures (k in more <==> k in at || k == |rows|) && (k in at ==> k < |rows|) {
      if k in more {
        var i :| 0 <= i < |more| && more[i] == k;
      }
    }
    assert forall k :: 0 <= k < |rows| ==> all[k] == rows[k];
  }

  lemma {:induction false} KeptExact(rows: seq<Event>, excluded: set<Id>) returns (at: seq<nat>)
    ensures KeptAt(rows, excluded, Kept(rows, excluded), at)
  {
    at := [];
    if rows == [] {
      return;
    }
    var front, last := rows[..|rows| - 1], rows[|rows| - 1];
    var before := KeptExact(front, excluded);
    KeptSnoc(front, excluded, Kept(front, excluded), before, last);
    assert rows == front + [last];
    at := if last.id in excluded then before else before + [|front|];
  }

  /** The tail of a page: what is rendered of its kept events, and the cursor to resume from. */
  lemma {:induction false} TailExact(page: Page, reserved: int, excluded: set<Id>, tail: Tail) returns (kept: seq<Event>, at: seq<nat>)
    requires tail == TailOf(page, reserved, excluded)
    ensures KeptAt(page.events, excluded, kept, at) && RenderedInOrder(kept, reserved, tail.events)
    ensures tail.used == |Together(tail.events)|
    ensures |tail.events| == |kept| ==> tail.nextCursor == page.nextCursor && tail.hasMore == page.hasMore
    ensures |tail.events| < |kept| ==>
      tail.hasMore && tail.nextCursor == if tail.events == [] then page.cursor else kept[|tail.events| - 1].seqNo
  {
    kept := Kept(page.events, excluded);
    at := KeptExact(page.events, excluded);
    RenderExact(kept, reserved, tail.events);
    LengthExact(tail.events);
  }

  // ---------------------------------------------------------------------
  // Memory items
  // ---------------------------------------------------------------------

  /** Every block with a separator of two characters. */
  function Separated(items: seq<Hit>): string {
    if items == [] then "" else items[0].block + "\n\n" + Separated(items[1..])
  }

  lemma {:induction false} SeparatedSnoc(items: seq<Hit>, hit: Hit)
    ensures Separated(items + [hit]) == Separated(items) + hit.block + "\n\n"
  {
    if items == [] {
      assert items + [hit] == [hit];
    } else {
      SeparatedSnoc(items[1..], hit);
      assert (items + [hit])[1..] == items[1..] + [hit];
    }
  }

  lemma {:induction false} ChargedExact(items: seq<Hit>)
    ensures Charged(items) == |Separated(items)|
  {
    if items != [] {
      var front, last := items[..|items| - 1], items[|items| - 1];
      ChargedExact(front);
      assert items == front + [last];
      SeparatedSnoc(front, last);
    }
  }

  /** The items' text is the same without the last separator. */
  lemma {:induction false} JoinedExact(items: seq<Hit>)
    requires items != []
    ensures Joined(items) + "\n\n" == Separated(items)
  {
    var front, last := items[..|items| - 1], items[|items| - 1];
    assert items == front + [last];
    SeparatedSnoc(front, last);
    if front == [] {
      assert Separated(front) == "" && Joined(items) == last.block;
      assert "" + last.block + "\n\n" == last.block + "\n\n";
      return;
    }
    JoinedExact(front);
    assert Joined(items) == Joined(front) + "\n\n" + last.block;
  }

  predicate Fits(items: seq<Hit>, hit: Hit, maxItems: int, budget: int) {
    |items| < maxItems && |Separated(items)| + |hit.block| + 2 <= budget
  }

  /** One hit: a near-duplicate of an item is passed over; another one is counted, and taken
      where it fits. */
  predicate PackStep(before: Packing, hit: Hit, maxItems: int, budget: int, similar: Similarity, after: Packing) {
    if exists i :: 0 <= i < |before.items| && (hit.id, before.items[i].id) in similar then after == before
    else after == Packing(if Fits(before.items, hit, maxItems, budget) then before.items + [hit] else before.items, before.eligible + 1)
  }

  lemma {:induction false} LastPacked(hits: seq<Hit>, maxItems: int, budget: int, similar: Similarity)
    requires hits != []
    ensures PackStep(Pack(hits[..|hits| - 1], maxItems, budget, similar), hits[|hits| - 1], maxItems, budget, similar,
                     Pack(hits, maxItems, budget, similar))
  {
    ChargedExact(Pack(hits[..|hits| - 1], maxItems, budget, similar).items);
  }

  /** Packing goes through the hits once, in their order. */
  lemma {:induction false} PackExact(hits: seq<Hit>, maxItems: int, budget: int, similar: Similarity) returns (states: seq<Packing>)
    ensures |states| == |hits| + 1 && states[0] == Packing([], 0) && states[|hits|] == Pack(hits, maxItems, budget, similar)
    ensures forall k :: 0 <= k < |hits| ==> PackStep(states[k], hits[k], maxItems, budget, similar, states[k + 1])
  {
    if hits == [] {
      return [Packing([], 0)];
    }
    var front := hits[..|hits| - 1];
    var before := PackExact(front, maxItems, budget, similar);
    LastPacked(hits, maxItems, budget, similar);
    states := before + [Pack(hits, maxItems, budget, similar)];
    forall k | 0 <= k < |hits| ensures PackStep(states[k], hits[k], maxItems, budget, similar, states[k + 1]) {
      if k < |front| {
        assert PackStep(before[k], front[k], maxItems, budget, similar, before[k + 1]);
      }
    }
  }

  predicate FoundLocally(local: seq<Hit>, hit: Hit) {
    exists i :: 0 <= i < |local| && local[i].id == hit.id
  }

  predicate MergeStep(local: seq<Hit>, before: seq<Hit>, hit: Hit, after: seq<Hit>) {
    after == if FoundLocally(local, hit) then before else before + [hit]
  }

  /** The local hits first, then those discovered that the local search has not found. */
  lemma {:induction false} MergedExact(local: seq<Hit>, discovered: seq<Hit>) returns (states: seq<seq<Hit>>)
    ensures |states| == |discovered| + 1 && states[0] == local && states[|discovered|] == Merged(local, discovered)
    ensures forall k :: 0 <= k < |discovered| ==> MergeStep(local, states[k], discovered[k], states[k + 1])
  {
    if discovered == [] {
      return [local];
    }
    var front := discovered[..|discovered| - 1];
    var before := MergedExact(local, front);
    states := before + [Merged(local, discovered)];
    forall k | 0 <= k < |discovered| ensures MergeStep(local, states[k], discovered[k], states[k + 1]) {
      if k < |front| {
        assert front[k] == discovered[k];
      }
    }
  }

  /** The caller's budget counts from 0 to the policy's maximum; events get up to 4000 characters
      of it, and none without a cursor. */
  lemma {:induction false} BudgetExact(requested: int, policyMax: int, eventBudget: int, budget: int)
    requires policyMax >= 0 && budget == Budget(requested, policyMax)
    ensures 0 <= budget <= policyMax && (requested < 0 ==> budget == 0) && (0 <= requested <= policyMax ==> budget == requested)
    ensures requested > policyMax ==> budget == policyMax
    ensures Reserved(false, eventBudget, budget) == 0
    ensures eventBudget <= 0 ==> Reserved(true, eventBudget, budget) == 0
    ensures 0 <= eventBudget && eventBudget <= 4000 && eventBudget <= budget ==> Reserved(true, eventBudget, budget) == eventBudget
    ensures eventBudget > 4000 && budget >= 4000 ==> Reserved(true, eventBudget, budget) == 4000
    ensures eventBudget > budget && budget <= 4000 ==> Reserved(true, eventBudget, budget) == budget
  {
  }

  // ---------------------------------------------------------------------
  // Expanding decisions
  // ---------------------------------------------------------------------

  /** One candidate: without a row, or retrieved before, it is passed over; it is added where
      it fits, and marks the response as truncated otherwise. */
  predicate ExpandStep(c: Context, before: Context, id: Id, rows: map<Id, Hit>, after: Context) {
    if id !in rows || exists i :: 0 <= i < |c.items| && c.items[i].id == id then after == before
    else if |before.items| >= before.maxItems || before.memoryUsed + |rows[id].block| + 2 > before.memoryBudget then
      after == Context(before.items, before.memoryUsed, before.used, before.memoryBudget, before.maxItems, true)
    else
      after == Context(before.items + [rows[id]], before.memoryUsed + |rows[id].block| + 2, before.used + |rows[id].block| + 2,
                       before.memoryBudget, before.maxItems, before.truncated)
  }

  lemma {:induction false} LastCandidate(c: Context, ordered: seq<Id>, rows: map<Id, Hit>, before: Context)
    requires ordered != [] && before == Expanded(c, ordered[..|ordered| - 1], rows)
    ensures ExpandStep(c, before, ordered[|ordered| - 1], rows, Expanded(c, ordered, rows))
  {
  }

  /** Expansion goes through the candidates once, in their order. */
  lemma {:induction false} ExpandedExact(c: Context, ordered: seq<Id>, rows: map<Id, Hit>) returns (states: seq<Context>)
    ensures |states| == |ordered| + 1 && states[0] == c && states[|ordered|] == Expanded(c, ordered, rows)
    ensures forall k :: 0 <= k < |ordered| ==> ExpandStep(c, states[k], ordered[k], rows, states[k + 1])
  {
    if ordered == [] {
      return [c];
    }
    var front := ordered[..|ordered| - 1];
    var before := ExpandedExact(c, front, rows);
    var after := Expanded(c, ordered, rows);
    LastCandidate(c, ordered, rows, before[|front|]);
    states := before + [after];
    forall k | 0 <= k < |ordered| ensures ExpandStep(c, states[k], ordered[k], rows, states[k + 1]) {
      if k < |front| {
        assert states[k + 1] == before[k + 1] && ExpandStep(c, before[k], front[k], rows, before[k + 1]);
      }
    }
  }
}
