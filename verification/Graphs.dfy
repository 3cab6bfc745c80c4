/** The value of a plan DAG: its nodes, ordered adjacency lists in both directions, and an index of the edges. */
module Graphs {

  datatype Graph = Graph(nodes: set<int>, forward: map<int, seq<int>>, reverse: map<int, seq<int>>,
                         edgeMap: map<int, set<int>>) {
    function Children(n: int): seq<int> { if n in forward then forward[n] else [] }

    function Parents(n: int): seq<int> { if n in reverse then reverse[n] else [] }

    predicate Indexed(p: int, c: int) { p in edgeMap && c in edgeMap[p] }

    ghost predicate Edge(p: int, c: int) { c in Children(p) }

    ghost predicate BackEdge(p: int, c: int) { p in Parents(c) }

    ghost predicate HasLists(n: int) { n in nodes ==> n in forward && n in reverse }

    /** Edges join nodes, and every node has its two lists. */
    ghost predicate Closed() {
      && (forall n :: HasLists(n))
      && (forall p, c | Edge(p, c) :: p in nodes && c in nodes)
      && (forall p, c | BackEdge(p, c) :: p in nodes && c in nodes)
    }

    /** The two lists are transposes of each other, parallel edges counted. */
    ghost predicate Symmetric() {
      forall p, c :: SameMultiplicity(p, c)
    }

    ghost predicate SameMultiplicity(p: int, c: int) {
      multiset(Children(p))[c] == multiset(Parents(c))[p]
    }

    ghost predicate Coherent() { Closed() && Symmetric() }

    /** A walk along edges; a single node is a walk. */
    ghost predicate IsWalk(w: seq<int>) {
      w != [] && forall i | 0 <= i < |w| - 1 :: Edge(w[i], w[i + 1])
    }

    ghost predicate IsCycle(w: seq<int>) {
      IsWalk(w) && |w| >= 2 && w[0] == w[|w| - 1]
    }

    ghost predicate Acyclic() {
      forall w :: !IsCycle(w)
    }

    /** `order` lists every node once, each edge leading forward. */
    ghost predicate IsTopologicalOrder(order: seq<int>) {
      && Distinct(order)
      && (forall n :: Lists(order, n))
      && (forall i, j | 0 <= i < |order| && 0 <= j < |order| && Edge(order[i], order[j]) :: i < j)
    }

    ghost predicate Lists(order: seq<int>, n: int) { n in order <==> n in nodes }
  }

  ghost predicate Distinct<T>(s: seq<T>) {
    forall i, j | 0 <= i < j < |s| :: s[i] != s[j]
  }

  function Elements<T(==)>(s: seq<T>): set<T> {
    set x | x in s
  }

  lemma SomeElement(s: set<int>)
    ensures s == {} || exists n :: n in s
  {
    if forall n :: n !in s {
      assert s == {};
    }
  }

  /** The next element when iterating over a set, in no particular order. */
  method Pick(s: set<int>) returns (n: int)
    requires s != {}
    ensures n in s
  {
    SomeElement(s);
    n :| n in s;
  }

  lemma {:induction false} DistinctSize<T>(s: seq<T>)
    requires Distinct(s)
    ensures |Elements(s)| == |s|
  {
    if s != [] {
      var init, last := s[..|s| - 1], s[|s| - 1];
      DistinctSize(init);
      assert last !in init;
      assert Elements(s) == Elements(init) + {last};
    }
  }

  lemma SubsetSize<T>(a: set<T>, b: set<T>)
    requires a <= b
    ensures |a| <= |b| && (|a| == |b| ==> a == b)
  {
    assert b == a + (b - a);
    assert |b| == |a| + |b - a|;
  }

  /** A list longer than the set it draws from repeats an element. */
  lemma Pigeonhole(s: seq<int>, universe: set<int>)
    requires |s| > |universe| && AllIn(s, universe)
    ensures exists i, j :: 0 <= i < j < |s| && s[i] == s[j]
  {
    if Distinct(s) {
      DistinctSize(s);
      SubsetSize(Elements(s), universe);
    }
  }

  lemma EdgeIsParent(g: Graph, p: int, c: int)
    requires g.Symmetric()
    ensures g.Edge(p, c) <==> g.BackEdge(p, c)
  {
    assert g.SameMultiplicity(p, c);
    assert c in multiset(g.Children(p)) <==> p in multiset(g.Parents(c));
  }

  // ---- A topological order exists only in an acyclic graph ----

  lemma {:induction false} WalkForward(g: Graph, order: seq<int>, w: seq<int>, a: nat, b: nat)
    requires g.Closed() && g.IsTopologicalOrder(order) && g.IsWalk(w) && |w| >= 2
    requires a < |order| && b < |order| && order[a] == w[0] && order[b] == w[|w| - 1]
    ensures a < b
    decreases |w|
  {
    assert g.Edge(w[0], w[1]);
    if |w| > 2 {
      assert g.Lists(order, w[1]);
      var m :| 0 <= m < |order| && order[m] == w[1];
      forall i | 0 <= i < |w| - 2 ensures g.Edge(w[1..][i], w[1..][i + 1]) {
        assert g.Edge(w[i + 1], w[i + 1 + 1]);
      }
      WalkForward(g, order, w[1..], m, b);
    }
  }

  lemma OrderMeansAcyclic(g: Graph, order: seq<int>)
    requires g.Closed() && g.IsTopologicalOrder(order)
    ensures g.Acyclic()
  {
    forall w ensures !g.IsCycle(w) {
      if g.IsCycle(w) {
        assert g.Edge(w[0], w[1]);
        assert g.Lists(order, w[0]);
        var a :| 0 <= a < |order| && order[a] == w[0];
        WalkForward(g, order, w, a, a);
      }
    }
  }

  // ---- Nodes that all have a parent among themselves contain a cycle ----

  ghost predicate AllIn(s: seq<int>, d: set<int>) {
    forall i | 0 <= i < |s| :: s[i] in d
  }

  ghost predicate HasParentIn(g: Graph, left: set<int>, c: int) {
    c in left ==> exists p :: p in left && g.Edge(p, c)
  }

  lemma WalkCons(g: Graph, p: int, w: seq<int>)
    requires g.IsWalk(w) && g.Edge(p, w[0])
    ensures g.IsWalk([p] + w)
  {
    var v := [p] + w;
    forall i | 0 <= i < |v| - 1 ensures g.Edge(v[i], v[i + 1]) {
      if i > 0 {
        assert g.Edge(w[i - 1], w[i - 1 + 1]);
      }
    }
  }

  lemma {:induction false} WalkBack(g: Graph, left: set<int>, n: nat) returns (w: seq<int>)
    requires left != {} && forall c :: HasParentIn(g, left, c)
    ensures g.IsWalk(w) && |w| == n + 1 && AllIn(w, left)
  {
    if n == 0 {
      SomeElement(left);
      var c :| c in left;
      w := [c];
    } else {
      var rest := WalkBack(g, left, n - 1);
      assert rest[0] in left;
      assert HasParentIn(g, left, rest[0]);
      var p :| p in left && g.Edge(p, rest[0]);
      w := [p] + rest;
      WalkCons(g, p, rest);
    }
  }

  lemma CutOut(g: Graph, w: seq<int>, i: nat, j: nat)
    requires g.IsWalk(w) && i < j < |w| && w[i] == w[j]
    ensures g.IsCycle(w[i..j + 1])
  {
    var v := w[i..j + 1];
    forall h | 0 <= h < |v| - 1 ensures g.Edge(v[h], v[h + 1]) {
      assert g.Edge(w[i + h], w[i + h + 1]);
    }
  }

  lemma LeftoverMeansCycle(g: Graph, left: set<int>)
    requires left != {} && forall c :: HasParentIn(g, left, c)
    ensures !g.Acyclic()
  {
    var w := WalkBack(g, left, |left|);
    Pigeonhole(w, left);
    var i, j :| 0 <= i < j < |w| && w[i] == w[j];
    CutOut(g, w, i, j);
  }

  // ---- Counting how many entries of a list lie in a set ----

  ghost function CountIn(s: seq<int>, d: set<int>): nat {
    if s == [] then 0 else CountIn(s[..|s| - 1], d) + if s[|s| - 1] in d then 1 else 0
  }

  lemma MultisetSnoc(s: seq<int>, x: int)
    requires s != []
    ensures multiset(s)[x] == multiset(s[..|s| - 1])[x] + if s[|s| - 1] == x then 1 else 0
  {
    assert s == s[..|s| - 1] + [s[|s| - 1]];
  }

  lemma {:induction false} CountInAdd(s: seq<int>, d: set<int>, x: int)
    requires x !in d
    ensures CountIn(s, d + {x}) == CountIn(s, d) + multiset(s)[x]
  {
    if s != [] {
      CountInAdd(s[..|s| - 1], d, x);
      MultisetSnoc(s, x);
    }
  }

  lemma {:induction false} CountInAll(s: seq<int>, d: set<int>)
    ensures CountIn(s, d) <= |s|
    ensures CountIn(s, d) == |s| <==> AllIn(s, d)
  {
    if s != [] {
      var init := s[..|s| - 1];
      CountInAll(init, d);
      assert AllIn(s, d) <==> AllIn(init, d) && s[|s| - 1] in d by {
        assert forall i | 0 <= i < |init| :: init[i] == s[i];
      }
    }
  }

  lemma {:induction false} CountInNone(s: seq<int>)
    ensures CountIn(s, {}) == 0
  {
    if s != [] {
      CountInNone(s[..|s| - 1]);
    }
  }
}
