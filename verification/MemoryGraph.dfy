/** The relation graph over memories and its bounded breadth-first traversal
    (`MemoryRepository.traverse`). */
module MemoryGraph {
  import opened Wrappers

  type Id = string

  /** The columns of a memory row that traversal reads. */
  datatype Memory = Memory(projectId: Id, status: string)

  /** A row of the `edges` table. */
  datatype Edge = Edge(id: Id, projectId: Id, from: Id, to: Id, relation: string)

  datatype Graph = Graph(memories: map<Id, Memory>, edges: seq<Edge>)

  /** The arguments of one traversal, after defaults are filled in. */
  datatype Query = Query(projectId: Id, start: Id, direction: string, relations: seq<string>, statuses: seq<string>)

  datatype TraverseError = InvalidDirection | InvalidDepth | InvalidRelation | MemoryNotFound

  /** `depths` maps every returned node to its `depth` field. */
  datatype Traversal = Traversal(depths: map<Id, nat>, edges: seq<Edge>)

  const RELATIONS: set<string> := {"supersedes", "disputes", "supports", "depends_on", "related_to"}
  const DEFAULT_STATUSES: seq<string> := ["active", "disputed"]

  /** `edges.id` is the primary key. */
  predicate UniqueEdgeIds(edges: seq<Edge>) {
    forall i, j :: 0 <= i < j < |edges| ==> edges[i].id != edges[j].id
  }

  /** The SQL condition of the per-node edge query. */
  predicate Selects(q: Query, current: Id, e: Edge) {
    && e.projectId == q.projectId
    && (|| (q.direction != "incoming" && e.from == current)
        || (q.direction != "outgoing" && e.to == current))
    && (q.relations == [] || e.relation in q.relations)
  }

  function Other(e: Edge, current: Id): Id {
    if e.from == current then e.to else e.from
  }

  predicate Allowed(g: Graph, q: Query, id: Id) {
    && id in g.memories
    && g.memories[id].projectId == q.projectId
    && g.memories[id].status in q.statuses
  }

  /** Edge `e` leads from `current` to a node the filters let through. */
  predicate Leads(g: Graph, q: Query, current: Id, e: Edge) {
    e in g.edges && Selects(q, current, e) && Allowed(g, q, Other(e, current))
  }

  /** One permitted hop along `e`: forwards when outgoing edges are followed, backwards when
      incoming ones are, within the project, to a memory of a wanted status. */
  predicate Hop(g: Graph, q: Query, a: Id, b: Id, e: Edge) {
    && e in g.edges && e.projectId == q.projectId && (q.relations == [] || e.relation in q.relations)
    && (|| (q.direction in {"outgoing", "both"} && e.from == a && e.to == b)
        || (q.direction in {"incoming", "both"} && e.from == b && e.to == a))
    && b in g.memories && g.memories[b].projectId == q.projectId && g.memories[b].status in q.statuses
  }

  ghost predicate Adjacent(g: Graph, q: Query, a: Id, b: Id) {
    exists e :: Hop(g, q, a, b, e)
  }

  predicate DirectionOk(q: Query) {
    q.direction in {"outgoing", "incoming", "both"}
  }

  /** The query and the filters let through exactly the permitted hops. */
  lemma {:induction false} HopIs(g: Graph, q: Query, a: Id, b: Id, e: Edge)
    requires DirectionOk(q)
    ensures Hop(g, q, a, b, e) <==> Leads(g, q, a, e) && Other(e, a) == b
  {
  }

  // ---------------------------------------------------------------------
  // Reference definition: walks through the filtered graph
  // ---------------------------------------------------------------------

  /** A walk from the start node along filtered edges; it makes |w| - 1 hops. */
  ghost predicate IsWalk(g: Graph, q: Query, w: seq<Id>) {
    && |w| > 0
    && w[0] == q.start
    && forall i :: 0 <= i < |w| - 1 ==> Adjacent(g, q, w[i], w[i + 1])
  }

  ghost predicate ReachedIn(g: Graph, q: Query, id: Id, hops: nat) {
    exists w :: IsWalk(g, q, w) && w[|w| - 1] == id && |w| == hops + 1
  }

  ghost predicate Within(g: Graph, q: Query, id: Id, hops: nat) {
    exists h: nat :: h <= hops && ReachedIn(g, q, id, h)
  }

  // ---------------------------------------------------------------------
  // Balls: the sets a breadth-first search computes level by level
  // ---------------------------------------------------------------------

  ghost function Neighbours(g: Graph, q: Query, from: set<Id>): set<Id> {
    set b | b in g.memories && exists a :: a in from && Adjacent(g, q, a, b)
  }

  ghost function Iterate(grow: set<Id> -> set<Id>, s: set<Id>, n: nat): set<Id> {
    if n == 0 then s else grow(Iterate(grow, s, n - 1))
  }

  /** `levels[i]` is the set after i rounds. */
  ghost predicate AreIterates(grow: set<Id> -> set<Id>, s: set<Id>, levels: seq<set<Id>>) {
    forall i :: 0 <= i < |levels| ==> levels[i] == Iterate(grow, s, i)
  }

  /** Once a round adds nothing, no later round adds anything. */
  lemma {:induction false} IterateFixpoint(grow: set<Id> -> set<Id>, s: set<Id>, small: nat, large: nat)
    requires small <= large
    requires Iterate(grow, s, small + 1) == Iterate(grow, s, small)
    ensures Iterate(grow, s, large) == Iterate(grow, s, small)
    decreases large - small
  {
    if small < large {
      assert Iterate(grow, s, small + 2) == grow(Iterate(grow, s, small + 1));
      IterateFixpoint(grow, s, small + 1, large);
    }
  }

  /** A search that ran all rounds, or one that stopped growing, has the last two balls. */
  lemma {:induction false} FinalIterates(grow: set<Id> -> set<Id>, s: set<Id>, maxDepth: nat, levels: seq<set<Id>>)
    requires 1 < |levels| <= maxDepth + 1
    requires AreIterates(grow, s, levels)
    requires |levels| == maxDepth + 1 || levels[|levels| - 1] == levels[|levels| - 2]
    ensures levels[|levels| - 1] == Iterate(grow, s, maxDepth)
    ensures levels[|levels| - 2] == Iterate(grow, s, maxDepth - 1)
  {
    if |levels| < maxDepth + 1 {
      IterateFixpoint(grow, s, |levels| - 2, maxDepth);
      IterateFixpoint(grow, s, |levels| - 2, maxDepth - 1);
    }
  }

  ghost function Grow(g: Graph, q: Query): set<Id> -> set<Id> {
    (s: set<Id>) => s + Neighbours(g, q, s)
  }

  /** The nodes met within `radius` rounds from the start node. */
  ghost function Ball(g: Graph, q: Query, radius: nat): set<Id> {
    Iterate(Grow(g, q), {q.start}, radius)
  }

  lemma {:induction false} BallStep(g: Graph, q: Query, radius: nat, id: Id)
    requires radius > 0
    ensures id in Ball(g, q, radius) <==>
      id in Ball(g, q, radius - 1) || exists a :: a in Ball(g, q, radius - 1) && Adjacent(g, q, a, id)
  {
    assert Ball(g, q, radius) == Grow(g, q)(Ball(g, q, radius - 1));
    if a :| a in Ball(g, q, radius - 1) && Adjacent(g, q, a, id) {
      assert id in g.memories;
    }
  }

  lemma {:induction false} BallIsWithin(g: Graph, q: Query, id: Id, radius: nat)
    ensures id in Ball(g, q, radius) <==> Within(g, q, id, radius)
    decreases radius
  {
    if id in Ball(g, q, radius) {
      BallHasWalk(g, q, id, radius);
    }
    if Within(g, q, id, radius) {
      var h: nat :| h <= radius && ReachedIn(g, q, id, h);
      WalkStaysInBall(g, q, id, h, radius);
    }
  }

  lemma {:induction false} BallHasWalk(g: Graph, q: Query, id: Id, radius: nat)
    requires id in Ball(g, q, radius)
    ensures Within(g, q, id, radius)
    decreases radius
  {
    if radius == 0 {
      assert IsWalk(g, q, [id]);
      assert ReachedIn(g, q, id, 0);
    } else {
      BallStep(g, q, radius, id);
      if id in Ball(g, q, radius - 1) {
        BallHasWalk(g, q, id, radius - 1);
        var h: nat :| h <= radius - 1 && ReachedIn(g, q, id, h);
        assert h <= radius && ReachedIn(g, q, id, h);
      } else {
        var a :| a in Ball(g, q, radius - 1) && Adjacent(g, q, a, id);
        BallHasWalk(g, q, a, radius - 1);
        var h: nat :| h <= radius - 1 && ReachedIn(g, q, a, h);
        ExtendWalk(g, q, a, id, h);
        assert h + 1 <= radius && ReachedIn(g, q, id, h + 1);
      }
    }
  }

  lemma {:induction false} ExtendWalk(g: Graph, q: Query, a: Id, b: Id, hops: nat)
    requires ReachedIn(g, q, a, hops) && Adjacent(g, q, a, b)
    ensures ReachedIn(g, q, b, hops + 1)
  {
    var w :| IsWalk(g, q, w) && w[|w| - 1] == a && |w| == hops + 1;
    assert IsWalk(g, q, w + [b]);
    assert (w + [b])[|w + [b]| - 1] == b;
  }

  lemma {:induction false} WalkStaysInBall(g: Graph, q: Query, id: Id, hops: nat, radius: nat)
    requires ReachedIn(g, q, id, hops)
    requires hops <= radius
    ensures id in Ball(g, q, radius)
    decreases radius
  {
    if radius == 0 {
    } else if hops < radius {
      WalkStaysInBall(g, q, id, hops, radius - 1);
      BallStep(g, q, radius, id);
    } else {
      var w :| IsWalk(g, q, w) && w[|w| - 1] == id && |w| == hops + 1;
      var v := w[..hops];
      assert IsWalk(g, q, v);
      assert ReachedIn(g, q, v[|v| - 1], hops - 1);
      WalkStaysInBall(g, q, v[|v| - 1], hops - 1, radius - 1);
      assert Adjacent(g, q, w[hops - 1], w[hops - 1 + 1]);
      BallStep(g, q, radius, id);
    }
  }

  /** A node first met in the ball of radius d is at distance exactly d. */
  lemma {:induction false} FirstBallIsDistance(g: Graph, q: Query, id: Id, d: nat)
    requires id in Ball(g, q, d)
    requires d > 0 ==> id !in Ball(g, q, d - 1)
    ensures ReachedIn(g, q, id, d)
    ensures forall h: nat :: h < d ==> !ReachedIn(g, q, id, h)
  {
    BallIsWithin(g, q, id, d);
    forall h: nat | h < d ensures !ReachedIn(g, q, id, h) {
      if ReachedIn(g, q, id, h) {
        WalkStaysInBall(g, q, id, h, d - 1);
      }
    }
  }

  // ---------------------------------------------------------------------
  // The traversal
  // ---------------------------------------------------------------------

  function Resolve(projectId: Id, start: Id, direction: string, relations: seq<string>, statuses: seq<string>): Query {
    Query(projectId, start, direction, relations, if statuses == [] then DEFAULT_STATUSES else statuses)
  }

  /** The error a traversal raises before it looks at any edge. */
  function Rejects(g: Graph, q: Query, maxDepth: int): Option<TraverseError> {
    if q.direction !in {"outgoing", "incoming", "both"} then Some(InvalidDirection)
    else if !(1 <= maxDepth <= 5) then Some(InvalidDepth)
    else if exists r :: r in q.relations && r !in RELATIONS then Some(InvalidRelation)
    else if q.start !in g.memories || g.memories[q.start].projectId != q.projectId then Some(MemoryNotFound)
    else None
  }

  /** Exactly the nodes within `maxDepth` hops. */
  ghost predicate NodesExact(g: Graph, q: Query, maxDepth: nat, nodes: set<Id>) {
    forall id :: id in nodes <==> Within(g, q, id, maxDepth)
  }

  /** Every recorded depth is a true shortest distance. */
  ghost predicate DepthsExact(g: Graph, q: Query, depths: map<Id, nat>) {
    forall id :: id in depths ==> IsDistance(g, q, id, depths[id])
  }

  ghost predicate IsDistance(g: Graph, q: Query, id: Id, d: nat) {
    ReachedIn(g, q, id, d) && forall h: nat :: h < d ==> !ReachedIn(g, q, id, h)
  }

  /** Exactly the edges that lead out of a node within `hops` hops, each once. */
  ghost predicate EdgesExact(g: Graph, q: Query, hops: nat, edges: seq<Edge>) {
    && UniqueEdgeIds(edges)
    && forall e :: e in edges <==> exists n, b :: Within(g, q, n, hops) && Hop(g, q, n, b, e)
  }

  /** The loop invariant on `nodes`: each carries the index of the first level containing it. */
  ghost predicate DepthsMatch(depths: map<Id, nat>, levels: seq<set<Id>>) {
    && |levels| > 0
    && depths.Keys == levels[|levels| - 1]
    && forall id :: id in depths ==>
         && depths[id] < |levels|
         && id in levels[depths[id]]
         && (depths[id] > 0 ==> id !in levels[depths[id] - 1])
  }

  /** `selected` is exactly the edges out of `expanded`, listed once each. */
  ghost predicate EdgesMatch(g: Graph, q: Query, selected: seq<Edge>, expanded: set<Id>) {
    && UniqueEdgeIds(selected)
    && forall e :: e in selected <==> exists n :: n in expanded && Leads(g, q, n, e)
  }

  lemma {:induction false} NodesFromBall(g: Graph, q: Query, radius: nat)
    ensures NodesExact(g, q, radius, Ball(g, q, radius))
  {
    forall id ensures id in Ball(g, q, radius) <==> Within(g, q, id, radius) {
      BallIsWithin(g, q, id, radius);
    }
  }

  lemma {:induction false} DepthsFromBalls(g: Graph, q: Query, depths: map<Id, nat>, levels: seq<set<Id>>)
    requires AreIterates(Grow(g, q), {q.start}, levels)
    requires DepthsMatch(depths, levels)
    ensures DepthsExact(g, q, depths)
  {
    forall id | id in depths ensures IsDistance(g, q, id, depths[id]) {
      FirstBallIsDistance(g, q, id, depths[id]);
    }
  }

  lemma {:induction false} EdgesFromBall(g: Graph, q: Query, edges: seq<Edge>, hops: nat)
    requires DirectionOk(q) && EdgesMatch(g, q, edges, Ball(g, q, hops))
    ensures EdgesExact(g, q, hops, edges)
  {
    NodesFromBall(g, q, hops);
    var ball := Ball(g, q, hops);
    forall e ensures e in edges <==> exists n, b :: Within(g, q, n, hops) && Hop(g, q, n, b, e) {
      if e in edges {
        var n :| n in ball && Leads(g, q, n, e);
        HopIs(g, q, n, Other(e, n), e);
        assert Within(g, q, n, hops);
      }
      if n, b :| Within(g, q, n, hops) && Hop(g, q, n, b, e) {
        HopIs(g, q, n, b, e);
        assert n in ball;
      }
    }
  }

  /** One node's edge query: appends the new edges out of `current` and adds the
      newly met nodes at `depth`. */
  method Expand(g: Graph, q: Query, current: Id, depth: nat, depths: map<Id, nat>, selected: seq<Edge>, next: set<Id>)
    returns (depths': map<Id, nat>, selected': seq<Edge>, next': set<Id>)
    requires UniqueEdgeIds(g.edges) && UniqueEdgeIds(selected) && DirectionOk(q)
    requires forall e :: e in selected ==> e in g.edges
    ensures UniqueEdgeIds(selected')
    ensures forall e :: e in selected' <==> e in selected || Leads(g, q, current, e)
    ensures forall id :: id in depths' <==> id in depths || Adjacent(g, q, current, id)
    ensures forall id :: id in depths' ==> depths'[id] == if id in depths then depths[id] else depth
    ensures forall id :: id in next' <==> id in next || (id in depths' && id !in depths)
  {
    depths', selected', next' := depths, selected, next;
    for i := 0 to |g.edges|
      invariant UniqueEdgeIds(selected')
      invariant forall e :: e in selected' <==> e in selected || (e in g.edges[..i] && Leads(g, q, current, e))
      invariant forall id :: id in depths' <==>
        id in depths || exists e :: e in g.edges[..i] && Leads(g, q, current, e) && Other(e, current) == id
      invariant forall id :: id in depths' ==> depths'[id] == if id in depths then depths[id] else depth
      invariant forall id :: id in next' <==> id in next || (id in depths' && id !in depths)
    {
      var edge := g.edges[i];
      assert g.edges[..i + 1] == g.edges[..i] + [edge];
      if Selects(q, current, edge) && Allowed(g, q, Other(edge, current)) {
        assert Leads(g, q, current, edge);
        if forall e :: e in selected' ==> e.id != edge.id {
          selected' := selected' + [edge];
        } else {
          var e :| e in selected' && e.id == edge.id;
          assert e == edge;
        }
        var other := Other(edge, current);
        if other !in depths' {
          depths' := depths'[other := depth];
          next' := next' + {other};
        }
      }
    }
    assert g.edges[..|g.edges|] == g.edges;
    forall id ensures Adjacent(g, q, current, id) <==> exists e :: Leads(g, q, current, e) && Other(e, current) == id {
      AdjacentIs(g, q, current, id);
    }
  }

  lemma {:induction false} AdjacentIs(g: Graph, q: Query, a: Id, b: Id)
    requires DirectionOk(q)
    ensures Adjacent(g, q, a, b) <==> exists e :: Leads(g, q, a, e) && Other(e, a) == b
  {
    if e :| Hop(g, q, a, b, e) {
      HopIs(g, q, a, b, e);
    }
    if e :| Leads(g, q, a, e) && Other(e, a) == b {
      HopIs(g, q, a, b, e);
    }
  }

  /** The state between rounds. The last level is everything met so far, and
      what it holds beyond the frontier was expanded in an earlier round. */
  ghost predicate RoundsDone(g: Graph, q: Query, levels: seq<set<Id>>, depths: map<Id, nat>, selected: seq<Edge>,
                             frontier: set<Id>)
  {
    && DepthsMatch(depths, levels)
    && frontier <= depths.Keys
    && depths.Keys - frontier == (if |levels| == 1 then {} else levels[|levels| - 2])
    && EdgesMatch(g, q, selected, depths.Keys - frontier)
    && Neighbours(g, q, depths.Keys - frontier) <= depths.Keys
  }

  /** Inside a round: the nodes of `done` have been expanded. */
  ghost predicate Extends(g: Graph, q: Query, depth: nat, depths: map<Id, nat>, depths': map<Id, nat>,
                          next: set<Id>, done: set<Id>)
  {
    && depths'.Keys == depths.Keys + Neighbours(g, q, done)
    && (forall id :: id in depths' ==> depths'[id] == if id in depths then depths[id] else depth)
    && next == depths'.Keys - depths.Keys
  }

  /** `traverse`: level-by-level search that stops early when a level is empty. */
  method Traverse(g: Graph, projectId: Id, start: Id, maxDepth: int, direction: string,
                  relations: seq<string>, statuses: seq<string>)
    returns (r: Result<Traversal, TraverseError>)
    requires UniqueEdgeIds(g.edges)
    ensures r == Err(InvalidDirection) <==> direction != "outgoing" && direction != "incoming" && direction != "both"
    ensures direction in {"outgoing", "incoming", "both"} ==>
      && (r == Err(InvalidDepth) <==> maxDepth < 1 || 5 < maxDepth)
      && (r == Err(InvalidRelation) <==> 1 <= maxDepth <= 5 && exists x :: x in relations && x !in {"supersedes", "disputes", "supports", "depends_on", "related_to"})
      && (r == Err(MemoryNotFound) <==>
            && 1 <= maxDepth <= 5 && (forall x :: x in relations ==> x in {"supersedes", "disputes", "supports", "depends_on", "related_to"})
            && !(start in g.memories && g.memories[start].projectId == projectId))
    ensures r.Ok? ==>
      && direction in {"outgoing", "incoming", "both"} && 1 <= maxDepth <= 5
      && var q := Query(projectId, start, direction, relations, if statuses == [] then ["active", "disputed"] else statuses);
      && NodesExact(g, q, maxDepth, r.value.depths.Keys)
      && DepthsExact(g, q, r.value.depths)
      && EdgesExact(g, q, maxDepth - 1, r.value.edges)
  {
    var q := Resolve(projectId, start, direction, relations, statuses);
    var rejected := Rejects(g, q, maxDepth);
    if rejected.Some? {
      return Err(rejected.value);
    }
    var depths: map<Id, nat> := map[start := 0];
    var selected: seq<Edge> := [];
    var frontier := {start};
    var depth := 1;
    ghost var levels: seq<set<Id>> := [{start}];
    while depth <= maxDepth && frontier != {}
      invariant 1 <= depth == |levels| <= maxDepth + 1
      invariant depth == 1 ==> frontier != {}
      invariant AreIterates(Grow(g, q), {q.start}, levels)
      invariant RoundsDone(g, q, levels, depths, selected, frontier)
      decreases maxDepth + 1 - depth
    {
      depths, selected, frontier, levels := Round(g, q, depth, levels, depths, selected, frontier);
      depth := depth + 1;
    }
    SearchComplete(g, q, maxDepth, levels, depths, selected, frontier);
    r := Ok(Traversal(depths, selected));
  }

  /** After all rounds, or after a round that left no frontier, the search is complete. */
  lemma {:induction false} SearchComplete(g: Graph, q: Query, maxDepth: nat, levels: seq<set<Id>>, depths: map<Id, nat>,
                       selected: seq<Edge>, frontier: set<Id>)
    requires 0 < |levels| <= maxDepth + 1 && maxDepth > 0 && DirectionOk(q)
    requires AreIterates(Grow(g, q), {q.start}, levels)
    requires RoundsDone(g, q, levels, depths, selected, frontier)
    requires |levels| == maxDepth + 1 || (|levels| > 1 && frontier == {})
    ensures NodesExact(g, q, maxDepth, depths.Keys)
    ensures DepthsExact(g, q, depths)
    ensures EdgesExact(g, q, maxDepth - 1, selected)
  {
    DepthsFromBalls(g, q, depths, levels);
    var last, previous := levels[|levels| - 1], levels[|levels| - 2];
    assert depths.Keys == last && depths.Keys - frontier == previous;
    FinalIterates(Grow(g, q), {q.start}, maxDepth, levels);
    assert last == previous || |levels| == maxDepth + 1;
    NodesFromBall(g, q, maxDepth);
    EdgesFromBall(g, q, selected, maxDepth - 1);
  }

  /** One pass of the outer loop, with the level it completes. */
  method Round(g: Graph, q: Query, depth: nat, ghost levels: seq<set<Id>>, depths: map<Id, nat>, selected: seq<Edge>,
               frontier: set<Id>)
    returns (depths': map<Id, nat>, selected': seq<Edge>, next: set<Id>, ghost levels': seq<set<Id>>)
    requires UniqueEdgeIds(g.edges) && DirectionOk(q)
    requires depth == |levels|
    requires AreIterates(Grow(g, q), {q.start}, levels)
    requires RoundsDone(g, q, levels, depths, selected, frontier)
    ensures |levels'| == |levels| + 1
    ensures AreIterates(Grow(g, q), {q.start}, levels')
    ensures RoundsDone(g, q, levels', depths', selected', next)
  {
    depths', selected', next := ExpandAll(g, q, depth, depths, selected, frontier);
    levels' := levels + [depths'.Keys];
    RoundComplete(g, q, levels, depths, depths', selected, selected', frontier, next);
    ExtendBalls(g, q, levels, depths'.Keys);
  }

  /** Expands every node of `frontier`, in any order. */
  method ExpandAll(g: Graph, q: Query, depth: nat, depths: map<Id, nat>, selected: seq<Edge>, frontier: set<Id>)
    returns (depths': map<Id, nat>, selected': seq<Edge>, next: set<Id>)
    requires UniqueEdgeIds(g.edges) && DirectionOk(q)
    requires frontier <= depths.Keys
    requires EdgesMatch(g, q, selected, depths.Keys - frontier)
    ensures EdgesMatch(g, q, selected', depths.Keys)
    ensures Extends(g, q, depth, depths, depths', next, frontier)
  {
    depths', selected', next := depths, selected, {};
    var todo := frontier;
    ghost var done, expanded := {}, depths.Keys - frontier;
    while todo != {}
      invariant todo <= frontier && done == frontier - todo && expanded == depths.Keys - todo
      invariant EdgesMatch(g, q, selected', expanded)
      invariant Extends(g, q, depth, depths, depths', next, done)
      decreases todo
    {
      var current :| current in todo;
      depths', selected', next := Visit(g, q, depth, current, depths, depths', selected', next, done, expanded);
      todo, done, expanded := todo - {current}, done + {current}, expanded + {current};
    }
    assert done == frontier && expanded == depths.Keys;
  }

  method Visit(g: Graph, q: Query, depth: nat, current: Id, ghost depths: map<Id, nat>, before: map<Id, nat>,
               selected: seq<Edge>, next: set<Id>, ghost done: set<Id>, ghost expanded: set<Id>)
    returns (after: map<Id, nat>, selected': seq<Edge>, next': set<Id>)
    requires UniqueEdgeIds(g.edges) && DirectionOk(q)
    requires EdgesMatch(g, q, selected, expanded)
    requires Extends(g, q, depth, depths, before, next, done)
    ensures EdgesMatch(g, q, selected', expanded + {current})
    ensures Extends(g, q, depth, depths, after, next', done + {current})
  {
    after, selected', next' := Expand(g, q, current, depth, before, selected, next);
    assert after.Keys == before.Keys + Neighbours(g, q, {current});
  }

  lemma {:induction false} RoundComplete(g: Graph, q: Query, levels: seq<set<Id>>, depths: map<Id, nat>, depths': map<Id, nat>,
                      selected: seq<Edge>, selected': seq<Edge>, frontier: set<Id>, next: set<Id>)
    requires RoundsDone(g, q, levels, depths, selected, frontier)
    requires EdgesMatch(g, q, selected', depths.Keys)
    requires Extends(g, q, |levels|, depths, depths', next, frontier)
    ensures depths'.Keys == depths.Keys + Neighbours(g, q, depths.Keys)
    ensures RoundsDone(g, q, levels + [depths'.Keys], depths', selected', next)
  {
    assert depths'.Keys == depths.Keys + Neighbours(g, q, depths.Keys) by {
      assert depths.Keys - frontier + frontier == depths.Keys;
    }
    assert depths'.Keys - next == depths.Keys;
  }

  lemma {:induction false} IteratesExtend(grow: set<Id> -> set<Id>, s: set<Id>, levels: seq<set<Id>>, level: set<Id>)
    requires |levels| > 0 && AreIterates(grow, s, levels) && level == grow(levels[|levels| - 1])
    ensures AreIterates(grow, s, levels + [level])
  {
    var n := |levels|;
    assert Iterate(grow, s, n) == grow(Iterate(grow, s, n - 1));
    forall i | 0 <= i < n + 1 ensures (levels + [level])[i] == Iterate(grow, s, i) {
      if i < n {
        assert levels[i] == Iterate(grow, s, i);
      } else {
        assert levels[n - 1] == Iterate(grow, s, n - 1);
      }
    }
  }

  lemma {:induction false} ExtendBalls(g: Graph, q: Query, levels: seq<set<Id>>, level: set<Id>)
    requires |levels| > 0 && AreIterates(Grow(g, q), {q.start}, levels)
    requires level == levels[|levels| - 1] + Neighbours(g, q, levels[|levels| - 1])
    ensures AreIterates(Grow(g, q), {q.start}, levels + [level])
  {
    assert level == Grow(g, q)(levels[|levels| - 1]);
    IteratesExtend(Grow(g, q), {q.start}, levels, level);
  }
}
