/** Paths and cycles in a finite directed graph given by its arcs. */
module Digraph {
  type Node = nat
  type Arcs = set<(Node, Node)>

  ghost predicate IsPath(arcs: Arcs, path: seq<Node>) {
    path != [] && forall i :: 0 <= i < |path| - 1 ==> (path[i], path[i + 1]) in arcs
  }

  ghost predicate Joins(arcs: Arcs, a: Node, b: Node, path: seq<Node>) {
    IsPath(arcs, path) && path[0] == a && path[|path| - 1] == b
  }

  ghost predicate Reaches(arcs: Arcs, a: Node, b: Node) {
    exists path :: Joins(arcs, a, b, path)
  }

  /** No path of positive length returns to its start. */
  ghost predicate Acyclic(arcs: Arcs) {
    forall path :: IsPath(arcs, path) && |path| > 1 ==> path[0] != path[|path| - 1]
  }

  lemma {:induction false} Stretch(arcs: Arcs, path: seq<Node>, i: nat, j: nat)
    requires IsPath(arcs, path) && i <= j < |path|
    ensures Joins(arcs, path[i], path[j], path[i..j + 1])
  {
    var part := path[i..j + 1];
    forall k | 0 <= k < |part| - 1 ensures (part[k], part[k + 1]) in arcs {
      assert (path[i + k], path[i + k + 1]) in arcs;
    }
  }

  lemma {:induction false} Concat(arcs: Arcs, a: seq<Node>, b: seq<Node>)
    requires IsPath(arcs, a) && IsPath(arcs, b) && (a[|a| - 1], b[0]) in arcs
    ensures Joins(arcs, a[0], b[|b| - 1], a + b)
  {
    var path := a + b;
    forall k | 0 <= k < |path| - 1 ensures (path[k], path[k + 1]) in arcs {
      if k < |a| - 1 {
        assert (a[k], a[k + 1]) in arcs;
      } else if k >= |a| {
        assert (b[k - |a|], b[k - |a| + 1]) in arcs;
      }
    }
  }

  lemma {:induction false} Wider(arcs: Arcs, more: Arcs, path: seq<Node>)
    requires IsPath(arcs, path) && arcs <= more
    ensures IsPath(more, path)
  {
    forall i | 0 <= i < |path| - 1 ensures (path[i], path[i + 1]) in more {
      assert (path[i], path[i + 1]) in arcs;
    }
  }

  lemma {:induction false} FewerAcyclic(arcs: Arcs, more: Arcs)
    requires Acyclic(more) && arcs <= more
    ensures Acyclic(arcs)
  {
    forall path | IsPath(arcs, path) && |path| > 1 ensures path[0] != path[|path| - 1] {
      Wider(arcs, more, path);
    }
  }

  /** A path of an acyclic graph visits no node twice, ... */
  lemma {:induction false} VisitsOnce(arcs: Arcs, path: seq<Node>, i: nat, j: nat)
    requires Acyclic(arcs) && IsPath(arcs, path) && i < j < |path|
    ensures path[i] != path[j]
  {
    Stretch(arcs, path, i, j);
    assert |path[i..j + 1]| > 1;
  }

  /** ... so it is no longer than there are nodes. */
  lemma {:induction false} PathBounded(arcs: Arcs, path: seq<Node>, nodes: set<Node>)
    requires Acyclic(arcs) && IsPath(arcs, path) && forall i :: 0 <= i < |path| ==> path[i] in nodes
    ensures |path| <= |nodes|
  {
    forall i, j | 0 <= i < j < |path| ensures path[i] != path[j] {
      VisitsOnce(arcs, path, i, j);
    }
    DistinctBounded(path, nodes);
  }

  lemma {:induction false} DistinctBounded(path: seq<Node>, nodes: set<Node>)
    requires forall i, j :: 0 <= i < j < |path| ==> path[i] != path[j]
    requires forall i :: 0 <= i < |path| ==> path[i] in nodes
    ensures |path| <= |nodes|
  {
    if path != [] {
      var front, last := path[..|path| - 1], path[|path| - 1];
      forall i | 0 <= i < |front| ensures front[i] in nodes - {last} {
        assert front[i] == path[i];
      }
      DistinctBounded(front, nodes - {last});
    }
  }

  /** An arc closes a cycle if its head reaches its tail. */
  lemma {:induction false} ClosedCycle(arcs: Arcs, a: Node, b: Node)
    requires (a, b) in arcs && Reaches(arcs, b, a)
    ensures !Acyclic(arcs)
  {
    var path :| Joins(arcs, b, a, path);
    Concat(arcs, [a], path);
  }

  /** A cycle, walked from the end of one of its arcs to the start of that arc. */
  lemma {:induction false} Rotated(arcs: Arcs, cycle: seq<Node>, i: nat)
    requires IsPath(arcs, cycle) && |cycle| > 1 && cycle[0] == cycle[|cycle| - 1] && i < |cycle| - 1
    ensures Reaches(arcs, cycle[i + 1], cycle[i])
  {
    Stretch(arcs, cycle, i + 1, |cycle| - 1);
    var after := cycle[i + 1..|cycle|];
    assert IsPath(arcs, after);
    if i == 0 {
      assert Joins(arcs, cycle[1], cycle[0], after);
    } else {
      Stretch(arcs, cycle, 1, i);
      assert (cycle[0], cycle[1]) in arcs;
      Concat(arcs, after, cycle[1..i + 1]);
      assert Joins(arcs, cycle[i + 1], cycle[i], after + cycle[1..i + 1]);
    }
  }

  /** New arcs leave an acyclic graph acyclic if and only if none of them is closed by a path
      back over old and new arcs. */
  lemma {:induction false} StaysAcyclicIff(arcs: Arcs, more: Arcs)
    requires Acyclic(arcs)
    ensures Acyclic(arcs + more) <==> forall k :: k in more ==> !Reaches(arcs + more, k.1, k.0)
  {
    var all := arcs + more;
    if Acyclic(all) {
      forall k | k in more ensures !Reaches(all, k.1, k.0) {
        if Reaches(all, k.1, k.0) {
          ClosedCycle(all, k.0, k.1);
        }
      }
    } else {
      var cycle :| IsPath(all, cycle) && |cycle| > 1 && cycle[0] == cycle[|cycle| - 1];
      var i := NewArc(arcs, more, cycle);
      Rotated(all, cycle, i);
      var k := (cycle[i], cycle[i + 1]);
      assert k in more && Reaches(all, k.1, k.0);
    }
  }

  /** Such a cycle uses a new arc. */
  lemma {:induction false} NewArc(arcs: Arcs, more: Arcs, cycle: seq<Node>) returns (i: nat)
    requires Acyclic(arcs) && IsPath(arcs + more, cycle) && |cycle| > 1 && cycle[0] == cycle[|cycle| - 1]
    ensures i < |cycle| - 1 && (cycle[i], cycle[i + 1]) in more
  {
    assert !IsPath(arcs, cycle);
    i :| 0 <= i < |cycle| - 1 && (cycle[i], cycle[i + 1]) !in arcs;
    assert (cycle[i], cycle[i + 1]) in arcs + more;
  }

  /** Arcs into a node without arcs of its own close no cycle. */
  lemma {:induction false} SinkAcyclic(arcs: Arcs, more: Arcs, sink: Node)
    requires Acyclic(arcs) && (forall k :: k in more ==> k.1 == sink) && forall k :: k in arcs + more ==> k.0 != sink
    ensures Acyclic(arcs + more)
  {
    forall k | k in more ensures !Reaches(arcs + more, k.1, k.0) {
      if Reaches(arcs + more, k.1, k.0) {
        var path :| Joins(arcs + more, k.1, k.0, path);
        EndsAtSink(arcs + more, path, sink);
      }
    }
    StaysAcyclicIff(arcs, more);
  }

  lemma {:induction false} FirstArc(arcs: Arcs, path: seq<Node>)
    requires IsPath(arcs, path) && |path| > 1
    ensures exists k :: k in arcs && k.0 == path[0]
  {
    assert (path[0], path[1]) in arcs;
  }

  lemma {:induction false} EndsAtSink(arcs: Arcs, path: seq<Node>, sink: Node)
    requires IsPath(arcs, path) && path[0] == sink && forall k :: k in arcs ==> k.0 != sink
    ensures path == [sink]
  {
    if |path| > 1 {
      FirstArc(arcs, path);
    }
  }

  lemma {:induction false} SingleNode(path: seq<Node>)
    requires IsPath({}, path)
    ensures |path| == 1
  {
    if |path| > 1 {
      FirstArc({}, path);
    }
  }

  lemma {:induction false} EmptyAcyclic()
    ensures Acyclic({})
  {
    forall path | IsPath({}, path) ensures |path| == 1 {
      SingleNode(path);
    }
  }

  /** Two acyclic graphs without a common node. */
  lemma {:induction false} DisjointAcyclic(arcs: Arcs, more: Arcs, nodes: set<Node>)
    requires Acyclic(arcs) && Acyclic(more)
    requires forall k :: k in arcs ==> k.0 !in nodes && k.1 !in nodes
    requires forall k :: k in more ==> k.0 in nodes && k.1 in nodes
    ensures Acyclic(arcs + more)
  {
    forall k | k in more ensures !Reaches(arcs + more, k.1, k.0) {
      if Reaches(arcs + more, k.1, k.0) {
        var path :| Joins(arcs + more, k.1, k.0, path);
        StaysInside(arcs, more, nodes, path);
        assert Joins(more, k.1, k.0, path);
        ClosedCycle(more, k.0, k.1);
      }
    }
    StaysAcyclicIff(arcs, more);
  }

  lemma {:induction false} StaysInside(arcs: Arcs, more: Arcs, nodes: set<Node>, path: seq<Node>)
    requires forall k :: k in arcs ==> k.0 !in nodes && k.1 !in nodes
    requires forall k :: k in more ==> k.0 in nodes && k.1 in nodes
    requires IsPath(arcs + more, path) && path[0] in nodes
    ensures IsPath(more, path) && path[|path| - 1] in nodes
  {
    if |path| > 1 {
      var front := path[..|path| - 1];
      Stretch(arcs + more, path, 0, |path| - 2);
      assert front == path[0..|path| - 1];
      StaysInside(arcs, more, nodes, front);
      var k := (path[|path| - 2], path[|path| - 1]);
      assert k in arcs + more && k.0 == front[|front| - 1];
      forall i | 0 <= i < |path| - 1 ensures (path[i], path[i + 1]) in more {
        if i < |path| - 2 {
          assert (front[i], front[i + 1]) in more;
        }
      }
    }
  }
}
