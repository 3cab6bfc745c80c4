/** Kahn's algorithm over a plan graph. */
module TopologicalSorting {
  import opened Basics
  import opened Graphs

  /** The id survives in the 32-bit variable that holds the front of the queue. */
  predicate KeepsId(id: int) { -0x8000_0000 <= id < 0x8000_0000 }

  /** All ids fit in 32 bits. */
  ghost predicate SmallIds(g: Graph) {
    forall n :: n in g.nodes ==> KeepsId(n)
  }

  ghost predicate AllSmall(ids: seq<int>) {
    forall i | 0 <= i < |ids| :: KeepsId(ids[i])
  }

  function Visited(visited: map<int, nat>, c: int): nat {
    if c in visited then visited[c] else 0
  }

  /** The visit count of `c` is the number of its parents in `done`, and of the edges to it in `part`. */
  ghost predicate Counted(g: Graph, visited: map<int, nat>, done: set<int>, part: seq<int>, c: int) {
    Visited(visited, c) == CountIn(g.Parents(c), done) + multiset(part)[c]
  }

  /** A node is ordered or queued exactly when all its incoming edges have been visited. */
  ghost predicate PlacedWhenReady(g: Graph, visited: map<int, nat>, placed: seq<int>, c: int) {
    c in placed <==> c in g.nodes && Visited(visited, c) == |g.Parents(c)|
  }

  ghost predicate Progress(g: Graph, visited: map<int, nat>, placed: seq<int>, done: set<int>, part: seq<int>) {
    && Distinct(placed)
    && (forall c :: Counted(g, visited, done, part, c))
    && (forall c :: PlacedWhenReady(g, visited, placed, c))
  }

  ghost predicate ParentsFirst(g: Graph, ordered: seq<int>) {
    forall i, p | 0 <= i < |ordered| && g.BackEdge(p, ordered[i]) :: p in ordered[..i]
  }

  /** Nodes without incoming edges, in whatever order the node set lists them. */
  method Roots(g: Graph) returns (q: seq<int>)
    requires g.Closed()
    ensures Progress(g, map[], [] + q, Elements([]), [])
  {
    q := [];
    var left := g.nodes;
    while left != {}
      invariant left <= g.nodes && Distinct(q)
      invariant forall n :: n in q <==> n in g.nodes && n !in left && g.Parents(n) == []
      decreases left
    {
      var n := Pick(left);
      if g.Parents(n) == [] {
        q := q + [n];
      }
      left := left - {n};
    }
    assert [] + q == q && Elements<int>([]) == {};
    forall c ensures Counted(g, map[], Elements([]), [], c) {
      CountInNone(g.Parents(c));
    }
  }

  lemma ReadyMeansParentsDone(g: Graph, visited: map<int, nat>, placed: seq<int>, done: set<int>, c: int)
    requires Progress(g, visited, placed, done, []) && c in placed
    ensures forall p | g.BackEdge(p, c) :: p in done
  {
    assert Counted(g, visited, done, [], c) && PlacedWhenReady(g, visited, placed, c);
    CountInAll(g.Parents(c), done);
  }

  /** Visiting one edge of node `p`. */
  lemma VisitEdge(g: Graph, visited: map<int, nat>, placed: seq<int>, done: set<int>, p: int, j: nat)
    requires g.Coherent() && p !in done && j < |g.Children(p)|
    requires Progress(g, visited, placed, done, g.Children(p)[..j])
    ensures g.Children(p)[j] in g.nodes && g.Children(p)[j] !in placed
  {
    var c, deps := g.Children(p)[j], g.Children(p);
    assert g.Edge(p, c);
    assert Counted(g, visited, done, deps[..j], c) && PlacedWhenReady(g, visited, placed, c);
    assert multiset(deps)[c] >= multiset(deps[..j])[c] + 1 by {
      assert deps == deps[..j] + [c] + deps[j + 1..];
    }
    assert g.SameMultiplicity(p, c);
    CountInAdd(g.Parents(c), done, p);
    CountInAll(g.Parents(c), done + {p});
  }

  lemma VisitKeepsCounts(g: Graph, visited: map<int, nat>, done: set<int>, deps: seq<int>, j: nat, c: int)
    requires j < |deps| && Counted(g, visited, done, deps[..j], c)
    ensures Counted(g, visited[deps[j] := Visited(visited, deps[j]) + 1], done, deps[..j + 1], c)
  {
    assert deps[..j + 1] == deps[..j] + [deps[j]];
  }

  /** The queue and the visit counts. */
  datatype Work = Work(queue: seq<int>, visited: map<int, nat>)

  /**
   Visiting one edge to `c`: its count goes up, and `c` is queued when the count reaches the number of its parents.
   */
  function VisitOne(g: Graph, w: Work, c: int): Work {
    var count := Visited(w.visited, c) + 1;
    Work(if count == |g.Parents(c)| then w.queue + [c] else w.queue, w.visited[c := count])
  }

  ghost function Visit(g: Graph, deps: seq<int>, w: Work): Work {
    if deps == [] then w else VisitOne(g, Visit(g, deps[..|deps| - 1], w), deps[|deps| - 1])
  }

  method VisitChildren(g: Graph, deps: seq<int>, w: Work) returns (w': Work)
    ensures w' == Visit(g, deps, w)
  {
    w' := w;
    for j := 0 to |deps|
      invariant w' == Visit(g, deps[..j], w)
    {
      assert deps[..j + 1][..j] == deps[..j];
      w' := VisitOne(g, w', deps[j]);
    }
    assert deps[..|deps|] == deps;
  }

  /** Visiting the edges of `p` in order keeps the counts. */
  lemma {:induction false} VisitProgress(g: Graph, p: int, j: nat, w: Work, ordered: seq<int>)
    requires g.Coherent() && p !in ordered && j <= |g.Children(p)|
    requires Progress(g, w.visited, ordered + [p] + w.queue, Elements(ordered), [])
    ensures var u := Visit(g, g.Children(p)[..j], w);
            Progress(g, u.visited, ordered + [p] + u.queue, Elements(ordered), g.Children(p)[..j])
  {
    if j > 0 {
      var deps, i := g.Children(p), j - 1;
      VisitProgress(g, p, i, w, ordered);
      assert deps[..j][..i] == deps[..i];
      VisitOneProgress(g, p, i, Visit(g, deps[..i], w), ordered);
    }
  }

  lemma VisitOneProgress(g: Graph, p: int, j: nat, w: Work, ordered: seq<int>)
    requires g.Coherent() && p !in ordered && j < |g.Children(p)|
    requires Progress(g, w.visited, ordered + [p] + w.queue, Elements(ordered), g.Children(p)[..j])
    ensures var u := VisitOne(g, w, g.Children(p)[j]);
            Progress(g, u.visited, ordered + [p] + u.queue, Elements(ordered), g.Children(p)[..j + 1])
  {
    var deps, done, c := g.Children(p), Elements(ordered), g.Children(p)[j];
    var u := VisitOne(g, w, c);
    var was, now, part := ordered + [p] + w.queue, ordered + [p] + u.queue, deps[..j + 1];
    VisitEdge(g, w.visited, was, done, p, j);
    assert now == was || now == was + [c];
    forall x ensures Counted(g, u.visited, done, part, x) {
      assert Counted(g, w.visited, done, deps[..j], x);
      VisitKeepsCounts(g, w.visited, done, deps, j, x);
    }
    forall x ensures PlacedWhenReady(g, u.visited, now, x) {
      assert PlacedWhenReady(g, w.visited, was, x);
    }
  }

  // ---- Every node is queued at most once, whatever happens to its id ----

  ghost predicate FullWhenPlaced(g: Graph, visited: map<int, nat>, placed: seq<int>, c: int) {
    c in placed ==> c in g.nodes && Visited(visited, c) >= |g.Parents(c)|
  }

  ghost predicate PlacedOnce(g: Graph, visited: map<int, nat>, placed: seq<int>) {
    Distinct(placed) && forall c :: FullWhenPlaced(g, visited, placed, c)
  }

  lemma ProgressPlacedOnce(g: Graph, visited: map<int, nat>, placed: seq<int>, done: set<int>)
    requires Progress(g, visited, placed, done, [])
    ensures PlacedOnce(g, visited, placed)
  {
    forall c ensures FullWhenPlaced(g, visited, placed, c) {
      assert PlacedWhenReady(g, visited, placed, c);
    }
  }

  lemma {:induction false} VisitPlacedOnce(g: Graph, deps: seq<int>, w: Work, popped: seq<int>)
    requires PlacedOnce(g, w.visited, popped + w.queue) && AllIn(deps, g.nodes)
    ensures var u := Visit(g, deps, w); PlacedOnce(g, u.visited, popped + u.queue)
  {
    if deps != [] {
      var init, c := deps[..|deps| - 1], deps[|deps| - 1];
      VisitPlacedOnce(g, init, w, popped);
      var v := Visit(g, init, w);
      var u := VisitOne(g, v, c);
      var was, now := popped + v.queue, popped + u.queue;
      assert now == was || now == was + [c];
      assert FullWhenPlaced(g, v.visited, was, c);
      forall x ensures FullWhenPlaced(g, u.visited, now, x) {
        assert FullWhenPlaced(g, v.visited, was, x);
      }
    }
  }

  /** The front of the queue was not taken before. */
  lemma PopShrinks(g: Graph, visited: map<int, nat>, popped: seq<int>, q: seq<int>)
    requires q != [] && PlacedOnce(g, visited, popped + q)
    ensures popped + q == popped + [q[0]] + q[1..]
    ensures g.nodes - Elements(popped + [q[0]]) < g.nodes - Elements(popped)
  {
    var placed := popped + q;
    assert placed[|popped|] == q[0] && q[0] in placed;
    assert FullWhenPlaced(g, visited, placed, q[0]);
    assert q[0] !in popped by {
      assert forall i | 0 <= i < |popped| :: placed[i] == popped[i];
    }
    assert q[0] in Elements(popped + [q[0]]);
    assert forall x | x in Elements(popped) :: x in Elements(popped + [q[0]]);
  }

  /** Once all children of `p` are visited, `p` counts as done. */
  lemma AllVisited(g: Graph, visited: map<int, nat>, placed: seq<int>, ordered: seq<int>, p: int)
    requires g.Symmetric() && p !in ordered && Progress(g, visited, placed, Elements(ordered), g.Children(p))
    ensures Progress(g, visited, placed, Elements(ordered + [p]), [])
  {
    var done := Elements(ordered + [p]);
    assert done == Elements(ordered) + {p};
    forall c ensures Counted(g, visited, done, [], c) {
      assert Counted(g, visited, Elements(ordered), g.Children(p), c);
      assert g.SameMultiplicity(p, c);
      CountInAdd(g.Parents(c), Elements(ordered), p);
    }
  }

  /** When the queue runs dry, the nodes that were not ordered all wait for each other. */
  lemma Leftover(g: Graph, visited: map<int, nat>, ordered: seq<int>)
    requires g.Coherent() && Progress(g, visited, ordered, Elements(ordered), [])
    ensures forall c :: HasParentIn(g, g.nodes - Elements(ordered), c)
  {
    var left := g.nodes - Elements(ordered);
    forall c ensures HasParentIn(g, left, c) {
      if c in left {
        assert Counted(g, visited, Elements(ordered), [], c) && PlacedWhenReady(g, visited, ordered, c);
        CountInAll(g.Parents(c), Elements(ordered));
        var i :| 0 <= i < |g.Parents(c)| && g.Parents(c)[i] !in Elements(ordered);
        var p := g.Parents(c)[i];
        assert g.BackEdge(p, c);
        EdgeIsParent(g, p, c);
      }
    }
  }

  lemma Finished(g: Graph, visited: map<int, nat>, ordered: seq<int>)
    requires g.Coherent() && Progress(g, visited, ordered, Elements(ordered), []) && ParentsFirst(g, ordered)
    ensures |ordered| == |g.nodes| <==> g.Acyclic()
    ensures |ordered| == |g.nodes| ==> g.IsTopologicalOrder(ordered)
  {
    forall c ensures c in ordered ==> c in g.nodes {
      assert PlacedWhenReady(g, visited, ordered, c);
    }
    DistinctSize(ordered);
    SubsetSize(Elements(ordered), g.nodes);
    if |ordered| == |g.nodes| {
      forall n ensures g.Lists(ordered, n) {
        assert n in Elements(ordered) <==> n in ordered;
      }
      forall i, j | 0 <= i < |ordered| && 0 <= j < |ordered| && g.Edge(ordered[i], ordered[j]) ensures i < j {
        EdgeIsParent(g, ordered[i], ordered[j]);
        assert ordered[i] in ordered[..j];
      }
      OrderMeansAcyclic(g, ordered);
    } else {
      Leftover(g, visited, ordered);
      assert Elements(ordered) + (g.nodes - Elements(ordered)) == g.nodes;
      LeftoverMeansCycle(g, g.nodes - Elements(ordered));
    }
  }

  /** The front of the queue can be ordered next. */
  lemma NextInOrder(g: Graph, visited: map<int, nat>, ordered: seq<int>, q: seq<int>)
    requires q != [] && Progress(g, visited, ordered + q, Elements(ordered), []) && ParentsFirst(g, ordered)
    ensures q[0] !in ordered && q[0] in g.nodes && ParentsFirst(g, ordered + [q[0]])
    ensures ordered + q == ordered + [q[0]] + q[1..]
    ensures g.nodes - Elements(ordered + [q[0]]) < g.nodes - Elements(ordered)
  {
    var front, next := q[0], ordered + [q[0]];
    assert (ordered + q)[|ordered|] == front;
    assert front in ordered + q;
    assert PlacedWhenReady(g, visited, ordered + q, front);
    ReadyMeansParentsDone(g, visited, ordered + q, Elements(ordered), front);
    assert front !in ordered by {
      assert forall i | 0 <= i < |ordered| :: (ordered + q)[i] == ordered[i];
    }
    forall i, p | 0 <= i < |next| && g.BackEdge(p, next[i]) ensures p in next[..i] {
      assert next[..i] == ordered[..i];
    }
    assert front in Elements(next) && front in g.nodes - Elements(ordered);
    assert forall x | x in Elements(ordered) :: x in Elements(next);
  }

  /** What the loop of the sort keeps, provided the ids survive in the 32-bit variable. */
  ghost predicate Sorting(g: Graph, w: Work, ordered: seq<int>) {
    SmallIds(g) ==> Progress(g, w.visited, ordered + w.queue, Elements(ordered), []) && ParentsFirst(g, ordered)
  }

  lemma SortingStep(g: Graph, w: Work, ordered: seq<int>)
    requires g.Coherent() && w.queue != [] && Sorting(g, w, ordered) && ToInt32(w.queue[0]) in g.forward
    ensures var front := ToInt32(w.queue[0]);
            Sorting(g, Visit(g, g.Children(front), w.(queue := w.queue[1..])), ordered + [front])
  {
    if SmallIds(g) {
      NextInOrder(g, w.visited, ordered, w.queue);
      var front := w.queue[0];
      assert KeepsId(front);
      var rest, deps := w.(queue := w.queue[1..]), g.Children(front);
      VisitProgress(g, front, |deps|, rest, ordered);
      assert deps[..|deps|] == deps;
      var u := Visit(g, deps, rest);
      AllVisited(g, u.visited, ordered + [front] + u.queue, ordered, front);
    }
  }

  /** A node of a graph with small ids is found under the value of the 32-bit variable. */
  lemma FrontFound(g: Graph, w: Work, ordered: seq<int>)
    requires g.Closed() && w.queue != [] && Sorting(g, w, ordered) && SmallIds(g)
    ensures ToInt32(w.queue[0]) in g.forward
  {
    NextInOrder(g, w.visited, ordered, w.queue);
    assert KeepsId(w.queue[0]) && g.HasLists(w.queue[0]);
  }

  /** An order that lists every node has only ids that fit in 32 bits, because it holds nothing else. */
  lemma OnlySmallIds(g: Graph, ordered: seq<int>)
    requires g.Closed() && g.IsTopologicalOrder(ordered) && AllSmall(ordered)
    ensures SmallIds(g) && g.Acyclic()
  {
    OrderMeansAcyclic(g, ordered);
    forall n ensures n in g.nodes ==> KeepsId(n) {
      assert g.Lists(ordered, n);
    }
  }

  /**
   Kahn's algorithm. It always stops, and it returns an order of all nodes if and only if the graph is acyclic and its
   ids fit in 32 bits; with such ids a failed check means a cycle. None is a failed check or lookup.
   */
  method TopologicalSort(g: Graph) returns (r: Option<seq<int>>)
    requires g.Coherent()
    ensures r.Some? && g.IsTopologicalOrder(r.value) <==> g.Acyclic() && SmallIds(g)
    ensures SmallIds(g) ==> (r.Some? <==> g.Acyclic())
    ensures r.Some? ==> AllSmall(r.value)
  {
    var ordered: seq<int> := [];
    ghost var popped: seq<int> := [];
    var roots := Roots(g);
    var w := Work(roots, map[]);
    if g.nodes == {} {
      assert [] + roots == [] by {
        if roots != [] {
          NextInOrder(g, w.visited, [], roots);
        }
      }
      Finished(g, w.visited, []);
      return Some([]);
    }
    if roots == [] {
      assert [] + roots == [];
      Finished(g, w.visited, []);
      return None;
    }
    ProgressPlacedOnce(g, w.visited, [] + roots, Elements([]));
    while w.queue != []
      invariant PlacedOnce(g, w.visited, popped + w.queue) && Sorting(g, w, ordered)
      invariant AllSmall(ordered)
      decreases g.nodes - Elements(popped)
    {
      PopShrinks(g, w.visited, popped, w.queue);
      var front := ToInt32(w.queue[0]);
      if front !in g.forward {
        if SmallIds(g) {
          FrontFound(g, w, ordered);
        }
        return None;
      }
      SortingStep(g, w, ordered);
      ChildrenIn(g, front);
      popped := popped + [w.queue[0]];
      VisitPlacedOnce(g, g.Children(front), w.(queue := w.queue[1..]), popped);
      w := VisitChildren(g, g.Children(front), w.(queue := w.queue[1..]));
      ordered := ordered + [front];
    }
    r := if |ordered| == |g.nodes| then Some(ordered) else None;
    Sorted(g, w, ordered);
  }

  lemma ChildrenIn(g: Graph, n: int)
    requires g.Closed()
    ensures AllIn(g.Children(n), g.nodes)
  {
    forall i | 0 <= i < |g.Children(n)| ensures g.Children(n)[i] in g.nodes {
      assert g.Edge(n, g.Children(n)[i]);
    }
  }

  lemma Sorted(g: Graph, w: Work, ordered: seq<int>)
    requires g.Coherent() && w.queue == [] && Sorting(g, w, ordered) && AllSmall(ordered)
    ensures |ordered| == |g.nodes| && g.IsTopologicalOrder(ordered) <==> g.Acyclic() && SmallIds(g)
    ensures SmallIds(g) ==> (|ordered| == |g.nodes| <==> g.Acyclic())
  {
    if SmallIds(g) {
      assert ordered + w.queue == ordered;
      Finished(g, w.visited, ordered);
    } else if g.IsTopologicalOrder(ordered) {
      OnlySmallIds(g, ordered);
    }
  }
}
