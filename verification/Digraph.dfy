/** Finite directed graphs given by successor lists.

A cycle is a closed walk; a ranking sends every edge downwards. The two exclude
each other, and one of them always exists. Both graph algorithms of the engine
(the plan validator and the plugin sorter) are specified with these notions. */
module Digraph {
  type Graph<!T> = map<T, seq<T>>

  /** Every successor is itself a node. */
  ghost predicate Closed<T(!new)>(g: Graph<T>) {
    forall n, m {:trigger m in g[n]} :: n in g && m in g[n] ==> m in g
  }

  ghost predicate Walk<T(!new)>(g: Graph<T>, p: seq<T>) {
    && (forall i :: 0 <= i < |p| ==> p[i] in g)
    && (forall i, j :: 0 <= i && j == i + 1 && j < |p| ==> p[j] in g[p[i]])
  }

  ghost predicate Cycle<T(!new)>(g: Graph<T>, p: seq<T>) {
    |p| >= 2 && Walk(g, p) && p[0] == p[|p| - 1]
  }

  ghost predicate Cyclic<T(!new)>(g: Graph<T>) {
    exists p :: Cycle(g, p)
  }

  /** The node is ranked above all its successors. */
  ghost predicate RankedNode<T(!new)>(g: Graph<T>, rank: map<T, nat>, n: T)
    requires n in g && n in rank
  {
    forall m {:trigger m in g[n]} :: m in g[n] ==> m in rank && rank[m] < rank[n]
  }

  ghost predicate Ranked<T(!new)>(g: Graph<T>, rank: map<T, nat>) {
    && g.Keys <= rank.Keys
    && (forall n :: n in g ==> RankedNode(g, rank, n))
  }

  /** Along a walk a ranking only goes down. */
  lemma {:induction false} RankFalls<T(!new)>(g: Graph<T>, rank: map<T, nat>, p: seq<T>, k: nat)
    requires Ranked(g, rank) && Walk(g, p) && 1 <= k < |p|
    ensures rank[p[k]] < rank[p[0]]
    decreases k
  {
    assert p[k] in g[p[k - 1]] && RankedNode(g, rank, p[k - 1]);
    if k > 1 {
      RankFalls(g, rank, p, k - 1);
    }
  }

  lemma RankedIsAcyclic<T(!new)>(g: Graph<T>, rank: map<T, nat>)
    requires Ranked(g, rank)
    ensures !Cyclic(g)
  {
    forall p | Cycle(g, p)
      ensures false
    {
      RankFalls(g, rank, p, |p| - 1);
    }
  }

  /** The node has a successor inside the set. */
  ghost predicate HasSuccessorIn<T(!new)>(g: Graph<T>, x: T, nodes: set<T>)
    requires x in g
  {
    exists y :: y in g[x] && y in nodes
  }

  /** A walk of any length stays available inside a set without dead ends. */
  lemma {:induction false} LongWalk<T(!new)>(g: Graph<T>, nodes: set<T>, n: nat) returns (p: seq<T>)
    requires nodes != {} && nodes <= g.Keys
    requires forall x :: x in nodes ==> HasSuccessorIn(g, x, nodes)
    ensures |p| == n + 1 && Walk(g, p) && forall x :: x in p ==> x in nodes
  {
    if n == 0 {
      var x :| x in nodes;
      p := [x];
    } else {
      var q := LongWalk(g, nodes, n - 1);
      assert HasSuccessorIn(g, q[|q| - 1], nodes);
      var y :| y in g[q[|q| - 1]] && y in nodes;
      p := q + [y];
    }
  }

  lemma {:induction false} DistinctIsSmall<T>(p: seq<T>, nodes: set<T>)
    requires forall x :: x in p ==> x in nodes
    requires forall i, j :: 0 <= i < j < |p| ==> p[i] != p[j]
    ensures |p| <= |nodes|
  {
    if p != [] {
      var q := p[..|p| - 1];
      forall x | x in q
        ensures x in nodes - {p[|p| - 1]}
      {
        var i :| 0 <= i < |q| && q[i] == x;
        assert p[i] != p[|p| - 1];
      }
      DistinctIsSmall(q, nodes - {p[|p| - 1]});
    }
  }

  /** If every node of a non-empty set has a successor in the set, there is a cycle. */
  lemma DeadEndFreeIsCyclic<T(!new)>(g: Graph<T>, nodes: set<T>)
    requires nodes != {} && nodes <= g.Keys
    requires forall x :: x in nodes ==> HasSuccessorIn(g, x, nodes)
    ensures Cyclic(g)
  {
    var p := LongWalk(g, nodes, |nodes|);
    if forall i, j :: 0 <= i < j < |p| ==> p[i] != p[j] {
      DistinctIsSmall(p, nodes);
    } else {
      var i, j :| 0 <= i < j < |p| && p[i] == p[j];
      assert Cycle(g, p[i..j + 1]);
    }
  }

  /** A ranking of a successor-closed part of the graph, with ranks below its size. */
  ghost predicate RankedPart<T(!new)>(g: Graph<T>, part: map<T, nat>) {
    && part.Keys <= g.Keys
    && (forall n :: n in part ==> part[n] < |part|)
    && (forall n :: n in part ==> RankedNode(g, part, n))
  }

  /** In an acyclic graph some node outside the part has all its successors in the part. */
  lemma NextToRank<T(!new)>(g: Graph<T>, part: map<T, nat>) returns (x: T)
    requires Closed(g) && !Cyclic(g) && part.Keys < g.Keys
    ensures x in g && x !in part && forall y :: y in g[x] ==> y in part
  {
    var rest := g.Keys - part.Keys;
    var w :| w in g.Keys && w !in part.Keys;
    assert w in rest;
    if forall x :: x in rest ==> HasSuccessorIn(g, x, rest) {
      DeadEndFreeIsCyclic(g, rest);
    }
    x :| x in rest && !HasSuccessorIn(g, x, rest);
  }

  lemma {:induction false} ExtendRanking<T(!new)>(g: Graph<T>, part: map<T, nat>) returns (rank: map<T, nat>)
    requires Closed(g) && !Cyclic(g) && RankedPart(g, part)
    ensures Ranked(g, rank)
    decreases g.Keys - part.Keys
  {
    if part.Keys == g.Keys {
      rank := part;
    } else {
      var x := NextToRank(g, part);
      var wider := part[x := |part|];
      assert wider.Keys == part.Keys + {x};
      rank := ExtendRanking(g, wider);
    }
  }

  /** A closed graph without a cycle has a ranking. */
  lemma AcyclicIsRanked<T(!new)>(g: Graph<T>) returns (rank: map<T, nat>)
    requires Closed(g) && !Cyclic(g)
    ensures Ranked(g, rank)
  {
    rank := ExtendRanking(g, map[]);
  }

  ghost predicate Rankable<T(!new)>(g: Graph<T>) {
    exists rank: map<T, nat> :: Ranked(g, rank)
  }

  lemma AcyclicIffRankable<T(!new)>(g: Graph<T>)
    requires Closed(g)
    ensures !Cyclic(g) <==> Rankable(g)
  {
    if !Cyclic(g) {
      var rank := AcyclicIsRanked(g);
    }
    if Rankable(g) {
      var rank: map<T, nat> :| Ranked(g, rank);
      RankedIsAcyclic(g, rank);
    }
  }
}
