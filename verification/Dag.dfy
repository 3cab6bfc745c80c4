/** The mutable plan DAG: edits of the adjacency lists and of the edge index, and what they keep. */
module Dag {
  import opened Graphs

  datatype Arc = Arc(from: int, to: int)

  /** A node of the serialized form. */
  datatype DagNode = DagNode(id: int, sortedChildren: seq<int>, sortedParents: seq<int>)

  /** The reference view of a graph: a set of nodes and a set of arcs. */
  datatype Plain = Plain(nodes: set<int>, arcs: set<Arc>) {
    ghost function Without(n: int): Plain {
      Plain(nodes - {n}, set a | a in arcs && a.from != n && a.to != n)
    }
  }

  // ---- List edits ----

  /** Find an element and erase it. */
  function Erase(s: seq<int>, x: int): seq<int> {
    if s == [] then [] else if s[0] == x then s[1..] else [s[0]] + Erase(s[1..], x)
  }

  ghost predicate Erases(s: seq<int>, x: int, y: int) { y in Erase(s, x) <==> y in s && y != x }

  lemma {:induction false} EraseSpec(s: seq<int>, x: int)
    requires Distinct(s)
    ensures Distinct(Erase(s, x))
    ensures forall y :: Erases(s, x, y)
  {
    if s != [] {
      EraseSpec(s[1..], x);
      assert s == [s[0]] + s[1..];
      assert s[0] !in s[1..];
      forall y ensures Erases(s, x, y) {
        assert Erases(s[1..], x, y);
      }
      assert Erases(s[1..], x, s[0]);
    }
  }

  /** The first occurrence goes, and the others stay in their order. */
  lemma {:induction false} EraseFirst(s: seq<int>, x: int) returns (i: nat)
    requires x in s
    ensures i < |s| && s[i] == x && x !in s[..i] && Erase(s, x) == s[..i] + s[i + 1..]
  {
    if s[0] == x {
      i := 0;
    } else {
      assert s == [s[0]] + s[1..];
      var j := EraseFirst(s[1..], x);
      i := j + 1;
      assert s[..i] == [s[0]] + s[1..][..j] && s[1..][j + 1..] == s[i + 1..];
    }
  }

  lemma {:induction false} EraseAbsent(s: seq<int>, x: int)
    requires x !in s
    ensures Erase(s, x) == s
  {
    if s != [] {
      EraseAbsent(s[1..], x);
    }
  }

  function Replace(s: seq<int>, x: int, y: int): (r: seq<int>)
    ensures |r| == |s| && forall i | 0 <= i < |s| :: r[i] == if s[i] == x then y else s[i]
  {
    if s == [] then [] else [if s[0] == x then y else s[0]] + Replace(s[1..], x, y)
  }

  lemma {:induction false} ReplaceAbsent(s: seq<int>, x: int, y: int)
    requires x !in s
    ensures Replace(s, x, y) == s
  {
    if s != [] {
      ReplaceAbsent(s[1..], x, y);
    }
  }

  ghost predicate Replaces(s: seq<int>, x: int, y: int, z: int) {
    z in Replace(s, x, y) <==> (z in s && z != x) || (x in s && z == y)
  }

  lemma ReplaceSpec(s: seq<int>, x: int, y: int)
    requires Distinct(s) && (x == y || y !in s)
    ensures Distinct(Replace(s, x, y))
    ensures forall z :: Replaces(s, x, y, z)
  {
    var r := Replace(s, x, y);
    forall z ensures Replaces(s, x, y, z) {
      if z in s && z != x {
        var i :| 0 <= i < |s| && s[i] == z;
        assert r[i] == z;
      }
      if x in s && z == y {
        var i :| 0 <= i < |s| && s[i] == x;
        assert r[i] == z;
      }
    }
  }

  lemma DistinctAppend(s: seq<int>, x: int)
    requires Distinct(s)
    ensures Distinct(s + [x]) <==> x !in s
  {
    if x in s {
      var i :| 0 <= i < |s| && s[i] == x;
      assert (s + [x])[i] == (s + [x])[|s|];
    }
  }

  // ---- What a coherent graph shows ----

  ghost predicate ArcShown(g: Graph, a: Plain, p: int, c: int) {
    (g.Edge(p, c) <==> Arc(p, c) in a.arcs) && (g.BackEdge(p, c) <==> Arc(p, c) in a.arcs)
  }

  ghost predicate EntryIs(g: Graph, entries: set<Arc>, p: int, c: int) {
    g.Indexed(p, c) <==> Arc(p, c) in entries
  }

  ghost predicate SimpleLists(g: Graph, n: int) {
    g.HasLists(n) && Distinct(g.Children(n)) && Distinct(g.Parents(n))
  }

  ghost predicate WithinNodes(a: Plain, p: int, c: int) {
    Arc(p, c) in a.arcs ==> p in a.nodes && c in a.nodes
  }

  /** The lists are duplicate-free, transposes of each other, and hold exactly the arcs. */
  ghost predicate Shows(g: Graph, a: Plain) {
    && g.nodes == a.nodes
    && (forall n :: SimpleLists(g, n))
    && (forall p, c :: ArcShown(g, a, p, c))
    && (forall p, c :: WithinNodes(a, p, c))
  }

  /** What the edge index holds. */
  ghost predicate Indexes(g: Graph, entries: set<Arc>) {
    forall p, c :: EntryIs(g, entries, p, c)
  }

  /** The index holds the arcs, and besides them the entries of arcs that are gone. */
  ghost predicate IndexesWith(g: Graph, a: Plain, stale: set<Arc>) {
    a.arcs !! stale && Indexes(g, a.arcs + stale)
  }

  lemma {:induction false} DistinctMultiplicity(s: seq<int>, x: int)
    requires Distinct(s)
    ensures multiset(s)[x] == if x in s then 1 else 0
  {
    if s != [] {
      MultisetSnoc(s, x);
      DistinctMultiplicity(s[..|s| - 1], x);
      assert s == s[..|s| - 1] + [s[|s| - 1]];
    }
  }

  /** Such a graph is coherent, so sorting and dependency search apply to it. */
  lemma ShowsCoherent(g: Graph, a: Plain)
    requires Shows(g, a)
    ensures g.Coherent()
  {
    forall n ensures g.HasLists(n) {
      assert SimpleLists(g, n);
    }
    forall p, c
      ensures (g.Edge(p, c) || g.BackEdge(p, c) ==> p in g.nodes && c in g.nodes) && g.SameMultiplicity(p, c)
    {
      assert ArcShown(g, a, p, c) && WithinNodes(a, p, c) && SimpleLists(g, p) && SimpleLists(g, c);
      DistinctMultiplicity(g.Children(p), c);
      DistinctMultiplicity(g.Parents(c), p);
    }
  }

  // ---- Edits of a graph value ----

  function WithChildren(g: Graph, p: int, cs: seq<int>): Graph { g.(forward := g.forward[p := cs]) }

  function WithParents(g: Graph, c: int, ps: seq<int>): Graph { g.(reverse := g.reverse[c := ps]) }

  function Entry(edgeMap: map<int, set<int>>, p: int): set<int> { if p in edgeMap then edgeMap[p] else {} }

  /** The arcs after an edit of the edge from `p` to `c`. */
  ghost function Added(a: Plain, p: int, c: int): Plain { a.(arcs := a.arcs + {Arc(p, c)}) }

  ghost function Removed(a: Plain, p: int, c: int): Plain { a.(arcs := a.arcs - {Arc(p, c)}) }

  /** Replacing the two lists of one edge by lists that show `b` makes the graph show `b`. */
  lemma EditShows(g: Graph, a: Plain, b: Plain, p: int, c: int, cs: seq<int>, ps: seq<int>)
    requires Shows(g, a) && b.nodes == a.nodes && ((p in a.nodes && c in a.nodes) || b.arcs <= a.arcs)
    requires Distinct(cs) && forall x :: ChildListed(b, p, cs, x)
    requires Distinct(ps) && forall x :: ParentListed(b, c, ps, x)
    requires forall x, y | x != p || y != c :: SameArc(a, b, x, y)
    ensures Shows(WithParents(WithChildren(g, p, cs), c, ps), b)
  {
    var h := WithParents(WithChildren(g, p, cs), c, ps);
    forall n ensures SimpleLists(h, n) {
      assert SimpleLists(g, n);
    }
    forall x, y ensures ArcShown(h, b, x, y) && WithinNodes(b, x, y) {
      assert ArcShown(g, a, x, y) && WithinNodes(a, x, y);
      assert ChildListed(b, p, cs, y) && ParentListed(b, c, ps, x);
      if x != p || y != c {
        assert SameArc(a, b, x, y);
      }
    }
  }

  ghost predicate ChildListed(b: Plain, p: int, cs: seq<int>, x: int) { x in cs <==> Arc(p, x) in b.arcs }

  ghost predicate ParentListed(b: Plain, c: int, ps: seq<int>, x: int) { x in ps <==> Arc(x, c) in b.arcs }

  ghost predicate SameArc(a: Plain, b: Plain, x: int, y: int) { Arc(x, y) in a.arcs <==> Arc(x, y) in b.arcs }

  lemma AddShows(g: Graph, a: Plain, p: int, c: int)
    requires Shows(g, a) && p in a.nodes && c in a.nodes && Arc(p, c) !in a.arcs
    ensures Shows(WithParents(WithChildren(g, p, g.Children(p) + [c]), c, g.Parents(c) + [p]), Added(a, p, c))
  {
    var cs, ps, b := g.Children(p) + [c], g.Parents(c) + [p], Added(a, p, c);
    assert SimpleLists(g, p) && SimpleLists(g, c) && ArcShown(g, a, p, c);
    DistinctAppend(g.Children(p), c);
    DistinctAppend(g.Parents(c), p);
    forall x ensures ChildListed(b, p, cs, x) && ParentListed(b, c, ps, x) {
      assert ArcShown(g, a, p, x) && ArcShown(g, a, x, c);
    }
    EditShows(g, a, b, p, c, cs, ps);
  }

  lemma RemoveShows(g: Graph, a: Plain, p: int, c: int)
    requires Shows(g, a)
    ensures Shows(WithParents(WithChildren(g, p, Erase(g.Children(p), c)), c, Erase(g.Parents(c), p)), Removed(a, p, c))
    ensures forall x :: ChildListed(Removed(a, p, c), p, Erase(g.Children(p), c), x)
  {
    var cs, ps, b := Erase(g.Children(p), c), Erase(g.Parents(c), p), Removed(a, p, c);
    assert SimpleLists(g, p) && SimpleLists(g, c);
    EraseSpec(g.Children(p), c);
    EraseSpec(g.Parents(c), p);
    forall x ensures ChildListed(b, p, cs, x) && ParentListed(b, c, ps, x) {
      assert ArcShown(g, a, p, x) && ArcShown(g, a, x, c);
      assert Erases(g.Children(p), c, x) && Erases(g.Parents(c), p, x);
    }
    EditShows(g, a, b, p, c, cs, ps);
  }

  ghost function ChildReplaced(a: Plain, p: int, x: int, y: int): Plain { Added(Removed(a, p, x), p, y) }

  ghost function ParentReplaced(a: Plain, c: int, x: int, y: int): Plain { Added(Removed(a, x, c), y, c) }

  /** The graph after replacing child `x` of `p` by `y` in the lists. */
  function ReplaceChild(g: Graph, p: int, x: int, y: int): Graph {
    var h := WithParents(WithChildren(g, p, Replace(g.Children(p), x, y)), x, Erase(g.Parents(x), p));
    WithParents(h, y, h.Parents(y) + [p])
  }

  function ReplaceParent(g: Graph, c: int, x: int, y: int): Graph {
    var h := WithChildren(WithParents(g, c, Replace(g.Parents(c), x, y)), x, Erase(g.Children(x), c));
    WithChildren(h, y, h.Children(y) + [c])
  }

  ghost predicate MayReplaceChild(a: Plain, p: int, x: int, y: int) {
    && p in a.nodes && x in a.nodes && y in a.nodes && Arc(p, x) in a.arcs && (x == y || Arc(p, y) !in a.arcs)
  }

  ghost predicate MayReplaceParent(a: Plain, c: int, x: int, y: int) {
    && c in a.nodes && x in a.nodes && y in a.nodes && Arc(x, c) in a.arcs && (x == y || Arc(y, c) !in a.arcs)
  }

  lemma ReplaceChildLists(g: Graph, a: Plain, p: int, x: int, y: int, n: int)
    requires Shows(g, a) && MayReplaceChild(a, p, x, y)
    ensures SimpleLists(ReplaceChild(g, p, x, y), n)
  {
    assert SimpleLists(g, p) && SimpleLists(g, x) && SimpleLists(g, y) && SimpleLists(g, n);
    assert ArcShown(g, a, p, x) && ArcShown(g, a, p, y);
    ReplaceSpec(g.Children(p), x, y);
    EraseSpec(g.Parents(x), p);
    assert Erases(g.Parents(x), p, p);
    DistinctAppend(if x == y then Erase(g.Parents(x), p) else g.Parents(y), p);
  }

  lemma ReplaceChildArc(g: Graph, a: Plain, p: int, x: int, y: int, q: int, c: int)
    requires Shows(g, a) && MayReplaceChild(a, p, x, y)
    ensures ArcShown(ReplaceChild(g, p, x, y), ChildReplaced(a, p, x, y), q, c)
    ensures WithinNodes(ChildReplaced(a, p, x, y), q, c)
  {
    assert SimpleLists(g, p) && SimpleLists(g, x) && ArcShown(g, a, p, x) && ArcShown(g, a, p, y);
    ReplaceSpec(g.Children(p), x, y);
    EraseSpec(g.Parents(x), p);
    assert ArcShown(g, a, q, c) && WithinNodes(a, q, c);
    assert Replaces(g.Children(p), x, y, c) && Erases(g.Parents(x), p, q);
  }

  lemma ReplaceChildShows(g: Graph, a: Plain, p: int, x: int, y: int)
    requires Shows(g, a) && MayReplaceChild(a, p, x, y)
    ensures Shows(ReplaceChild(g, p, x, y), ChildReplaced(a, p, x, y))
  {
    var h, b := ReplaceChild(g, p, x, y), ChildReplaced(a, p, x, y);
    forall n ensures SimpleLists(h, n) {
      ReplaceChildLists(g, a, p, x, y, n);
    }
    forall q, c ensures ArcShown(h, b, q, c) && WithinNodes(b, q, c) {
      ReplaceChildArc(g, a, p, x, y, q, c);
    }
  }

  lemma ReplaceParentLists(g: Graph, a: Plain, c: int, x: int, y: int, n: int)
    requires Shows(g, a) && MayReplaceParent(a, c, x, y)
    ensures SimpleLists(ReplaceParent(g, c, x, y), n)
  {
    assert SimpleLists(g, c) && SimpleLists(g, x) && SimpleLists(g, y) && SimpleLists(g, n);
    assert ArcShown(g, a, x, c) && ArcShown(g, a, y, c);
    ReplaceSpec(g.Parents(c), x, y);
    EraseSpec(g.Children(x), c);
    assert Erases(g.Children(x), c, c);
    DistinctAppend(if x == y then Erase(g.Children(x), c) else g.Children(y), c);
  }

  lemma ReplaceParentArc(g: Graph, a: Plain, c: int, x: int, y: int, p: int, d: int)
    requires Shows(g, a) && MayReplaceParent(a, c, x, y)
    ensures ArcShown(ReplaceParent(g, c, x, y), ParentReplaced(a, c, x, y), p, d)
    ensures WithinNodes(ParentReplaced(a, c, x, y), p, d)
  {
    assert SimpleLists(g, c) && SimpleLists(g, x) && ArcShown(g, a, x, c) && ArcShown(g, a, y, c);
    ReplaceSpec(g.Parents(c), x, y);
    EraseSpec(g.Children(x), c);
    assert ArcShown(g, a, p, d) && WithinNodes(a, p, d);
    assert Replaces(g.Parents(c), x, y, p) && Erases(g.Children(x), c, d);
  }

  lemma ReplaceParentShows(g: Graph, a: Plain, c: int, x: int, y: int)
    requires Shows(g, a) && MayReplaceParent(a, c, x, y)
    ensures Shows(ReplaceParent(g, c, x, y), ParentReplaced(a, c, x, y))
  {
    var h, b := ReplaceParent(g, c, x, y), ParentReplaced(a, c, x, y);
    forall n ensures SimpleLists(h, n) {
      ReplaceParentLists(g, a, c, x, y, n);
    }
    forall p, d ensures ArcShown(h, b, p, d) && WithinNodes(b, p, d) {
      ReplaceParentArc(g, a, c, x, y, p, d);
    }
  }

  /** Replacing an absent child, or by a child already present, breaks the lists. */
  lemma ReplaceChildBreaks(g: Graph, a: Plain, p: int, x: int, y: int, b: Plain)
    requires Shows(g, a) && !(Arc(p, x) in a.arcs && (x == y || Arc(p, y) !in a.arcs))
    ensures !Shows(ReplaceChild(g, p, x, y), b)
  {
    var h := ReplaceChild(g, p, x, y);
    assert SimpleLists(g, y) && ArcShown(g, a, p, x) && ArcShown(g, a, p, y);
    if Arc(p, x) !in a.arcs {
      ReplaceAbsent(g.Children(p), x, y);
      EraseAbsent(g.Parents(x), p);
    }
    assert h.Parents(y) == g.Parents(y) + [p];
    DistinctAppend(g.Parents(y), p);
    assert h.BackEdge(p, y);
    assert !SimpleLists(h, y) || !ArcShown(h, b, p, y);
  }

  lemma ReplaceParentBreaks(g: Graph, a: Plain, c: int, x: int, y: int, b: Plain)
    requires Shows(g, a) && !(Arc(x, c) in a.arcs && (x == y || Arc(y, c) !in a.arcs))
    ensures !Shows(ReplaceParent(g, c, x, y), b)
  {
    var h := ReplaceParent(g, c, x, y);
    assert SimpleLists(g, y) && ArcShown(g, a, x, c) && ArcShown(g, a, y, c);
    if Arc(x, c) !in a.arcs {
      ReplaceAbsent(g.Parents(c), x, y);
      EraseAbsent(g.Children(x), c);
    }
    assert h.Children(y) == g.Children(y) + [c];
    DistinctAppend(g.Children(y), c);
    assert h.Edge(y, c);
    assert !SimpleLists(h, y) || !ArcShown(h, b, y, c);
  }

  // ---- The index ----

  /** The stale entries that are left when row `p` is rebuilt from the list of children. */
  ghost function Cleared(stale: set<Arc>, p: int): set<Arc> { set s | s in stale && s.from != p }

  /** Replacing one row of the index. */
  lemma RowIndexes(g: Graph, was: set<Arc>, now: set<Arc>, p: int, row: set<int>)
    requires Indexes(g, was) && forall x :: RowListed(now, p, row, x)
    requires forall x, y | x != p :: SameEntry(was, now, x, y)
    ensures Indexes(g.(edgeMap := g.edgeMap[p := row]), now)
  {
    var h := g.(edgeMap := g.edgeMap[p := row]);
    forall x, y ensures EntryIs(h, now, x, y) {
      assert EntryIs(g, was, x, y);
      if x == p {
        assert RowListed(now, p, row, y);
      } else {
        assert SameEntry(was, now, x, y);
      }
    }
  }

  ghost predicate RowListed(entries: set<Arc>, p: int, row: set<int>, x: int) { x in row <==> Arc(p, x) in entries }

  ghost predicate SameEntry(was: set<Arc>, now: set<Arc>, x: int, y: int) { Arc(x, y) in was <==> Arc(x, y) in now }

  lemma AddIndexes(g: Graph, a: Plain, stale: set<Arc>, p: int, c: int)
    requires IndexesWith(g, a, stale)
    ensures IndexesWith(g.(edgeMap := g.edgeMap[p := Entry(g.edgeMap, p) + {c}]), Added(a, p, c), stale - {Arc(p, c)})
  {
    var row := Entry(g.edgeMap, p) + {c};
    var was, now := a.arcs + stale, Added(a, p, c).arcs + (stale - {Arc(p, c)});
    forall x ensures RowListed(now, p, row, x) {
      assert EntryIs(g, was, p, x);
    }
    RowIndexes(g, was, now, p, row);
  }

  /** A row rebuilt from the list of children. */
  lemma RebuiltIndexes(g: Graph, a: Plain, stale: set<Arc>, b: Plain, p: int)
    requires IndexesWith(g, a, stale) && Shows(g, b)
    requires forall x, y | x != p :: SameArc(a, b, x, y)
    ensures IndexesWith(g.(edgeMap := g.edgeMap[p := Elements(g.Children(p))]), b, Cleared(stale, p))
  {
    var row := Elements(g.Children(p));
    var was, now := a.arcs + stale, b.arcs + Cleared(stale, p);
    forall x ensures RowListed(now, p, row, x) {
      assert ArcShown(g, b, p, x);
      assert g.Edge(p, x) <==> x in row;
    }
    forall x, y | x != p ensures SameEntry(was, now, x, y) {
      assert SameArc(a, b, x, y);
    }
    forall s | s in Cleared(stale, p) ensures s !in b.arcs {
      assert s == Arc(s.from, s.to) && SameArc(a, b, s.from, s.to);
    }
    RowIndexes(g, was, now, p, row);
  }

  lemma SameIndex(g: Graph, h: Graph, a: Plain, stale: set<Arc>)
    requires g.edgeMap == h.edgeMap && IndexesWith(g, a, stale)
    ensures IndexesWith(h, a, stale)
  {
    forall p, c ensures EntryIs(h, a.arcs + stale, p, c) {
      assert EntryIs(g, a.arcs + stale, p, c);
    }
  }

  lemma SameLists(g: Graph, h: Graph, a: Plain)
    requires g.nodes == h.nodes && g.forward == h.forward && g.reverse == h.reverse && Shows(g, a)
    ensures Shows(h, a)
  {
    forall n ensures SimpleLists(h, n) {
      assert SimpleLists(g, n);
    }
    forall p, c ensures ArcShown(h, a, p, c) {
      assert ArcShown(g, a, p, c);
    }
  }

  // ---- Edits of lists and index together ----

  /** The graph shows the arcs, and its index holds them and some stale entries. */
  ghost predicate Holds(g: Graph, a: Plain, stale: set<Arc>) {
    Shows(g, a) && IndexesWith(g, a, stale)
  }

  function EdgeAdded(g: Graph, p: int, c: int): Graph {
    WithParents(WithChildren(g, p, g.Children(p) + [c]), c, g.Parents(c) + [p])
      .(edgeMap := g.edgeMap[p := Entry(g.edgeMap, p) + {c}])
  }

  lemma AddHolds(g: Graph, a: Plain, stale: set<Arc>, p: int, c: int)
    requires Holds(g, a, stale) && p in a.nodes && c in a.nodes && Arc(p, c) !in a.arcs
    ensures Holds(EdgeAdded(g, p, c), Added(a, p, c), stale - {Arc(p, c)})
  {
    var h := EdgeAdded(g, p, c);
    AddShows(g, a, p, c);
    SameLists(h.(edgeMap := g.edgeMap), h, Added(a, p, c));
    AddIndexes(g, a, stale, p, c);
    SameIndex(g.(edgeMap := h.edgeMap), h, Added(a, p, c), stale - {Arc(p, c)});
  }

  /** The lists `h` show `b` and row `p` is rebuilt from them. */
  lemma RebuiltHolds(g: Graph, a: Plain, stale: set<Arc>, h: Graph, b: Plain, p: int)
    requires Holds(g, a, stale) && Shows(h, b) && h.edgeMap == g.edgeMap
    requires forall x, y | x != p :: SameArc(a, b, x, y)
    ensures Holds(h.(edgeMap := h.edgeMap[p := Elements(h.Children(p))]), b, Cleared(stale, p))
  {
    SameIndex(g, h, a, stale);
    RebuiltIndexes(h, a, stale, b, p);
    SameLists(h, h.(edgeMap := h.edgeMap[p := Elements(h.Children(p))]), b);
  }

  function EdgeDeleted(g: Graph, p: int, c: int): Graph {
    WithParents(WithChildren(g, p, Erase(g.Children(p), c)), c, Erase(g.Parents(c), p))
      .(edgeMap := g.edgeMap[p := Elements(Erase(g.Children(p), c))])
  }

  lemma DeleteHolds(g: Graph, a: Plain, stale: set<Arc>, p: int, c: int)
    requires Holds(g, a, stale)
    ensures Holds(EdgeDeleted(g, p, c), Removed(a, p, c), Cleared(stale, p))
  {
    RemoveShows(g, a, p, c);
    var h := WithParents(WithChildren(g, p, Erase(g.Children(p), c)), c, Erase(g.Parents(c), p));
    RebuiltHolds(g, a, stale, h, Removed(a, p, c), p);
  }

  function ChildEdgeReplaced(g: Graph, p: int, x: int, y: int): Graph {
    ReplaceChild(g, p, x, y).(edgeMap := g.edgeMap[p := Elements(Replace(g.Children(p), x, y))])
  }

  lemma ReplaceChildHolds(g: Graph, a: Plain, stale: set<Arc>, p: int, x: int, y: int)
    requires Holds(g, a, stale) && MayReplaceChild(a, p, x, y)
    ensures Holds(ChildEdgeReplaced(g, p, x, y), ChildReplaced(a, p, x, y), Cleared(stale, p))
  {
    ReplaceChildShows(g, a, p, x, y);
    RebuiltHolds(g, a, stale, ReplaceChild(g, p, x, y), ChildReplaced(a, p, x, y), p);
  }

  /** One row of the index is rebuilt and one extended. */
  function ParentEdgeReplaced(g: Graph, c: int, x: int, y: int): Graph {
    var rebuilt := g.edgeMap[x := Elements(Erase(g.Children(x), c))];
    ReplaceParent(g, c, x, y).(edgeMap := rebuilt[y := Entry(rebuilt, y) + {c}])
  }

  lemma ReplaceParentHolds(g: Graph, a: Plain, stale: set<Arc>, c: int, x: int, y: int)
    requires Holds(g, a, stale) && MayReplaceParent(a, c, x, y)
    ensures Holds(ParentEdgeReplaced(g, c, x, y), ParentReplaced(a, c, x, y), Cleared(stale, x) - {Arc(y, c)})
  {
    var h := ParentEdgeReplaced(g, c, x, y);
    ReplaceParentShows(g, a, c, x, y);
    SameLists(ReplaceParent(g, c, x, y), h, ParentReplaced(a, c, x, y));
    DeleteHolds(g, a, stale, x, c);
    AddIndexes(EdgeDeleted(g, x, c), Removed(a, x, c), Cleared(stale, x), y, c);
    SameIndex(EdgeDeleted(g, x, c).(edgeMap := h.edgeMap), h, ParentReplaced(a, c, x, y),
      Cleared(stale, x) - {Arc(y, c)});
  }

  function NodeAdded(g: Graph, n: int): Graph {
    g.(nodes := g.nodes + {n}, forward := g.forward[n := []], reverse := g.reverse[n := []])
  }

  lemma NodeAddedShows(g: Graph, a: Plain, n: int)
    requires Shows(g, a) && n !in g.nodes
    ensures Shows(NodeAdded(g, n), Plain(a.nodes + {n}, a.arcs))
  {
    var h, b := NodeAdded(g, n), Plain(a.nodes + {n}, a.arcs);
    forall m ensures SimpleLists(h, m) {
      assert SimpleLists(g, m);
    }
    forall p, c ensures ArcShown(h, b, p, c) && WithinNodes(b, p, c) {
      assert ArcShown(g, a, p, c) && WithinNodes(a, p, c);
    }
  }

  lemma NodeAddedHolds(g: Graph, a: Plain, stale: set<Arc>, n: int)
    requires Holds(g, a, stale) && n !in g.nodes
    ensures Holds(NodeAdded(g, n), Plain(a.nodes + {n}, a.arcs), stale)
  {
    NodeAddedShows(g, a, n);
    SameIndex(g, NodeAdded(g, n), a, stale);
    assert IndexesWith(NodeAdded(g, n), Plain(a.nodes + {n}, a.arcs), stale);
  }

  // ---- Deleting a node ----

  /** Row `p` of the index has lost its entry after `k` parents were unlinked: the first parent's entry stays. */
  ghost predicate CutRow(ps: seq<int>, k: nat, p: int) {
    exists i :: 1 <= i <= k && i < |ps| && ps[i] == p
  }

  ghost predicate RowCut(g: Graph, h: Graph, ps: seq<int>, k: nat, to: int, p: int, c: int) {
    h.Indexed(p, c) <==> g.Indexed(p, c) && !(c == to && CutRow(ps, k, p))
  }

  /** The lists of `n` after the first `k` parents of `to` were unlinked from it. */
  ghost predicate ListsCut(g: Graph, h: Graph, ps: seq<int>, k: nat, to: int, n: int)
    requires k <= |ps|
  {
    && h.Children(n) == (if n in ps[..k] then Erase(g.Children(n), to) else g.Children(n))
    && (n != to ==> h.Parents(n) == g.Parents(n))
    && (g.HasLists(n) ==> h.HasLists(n))
  }

  lemma TakeMember(ps: seq<int>, k: nat, n: int)
    requires Distinct(ps) && k < |ps|
    ensures n in ps[..k + 1] <==> n in ps[..k] || n == ps[k]
    ensures ps[k] !in ps[..k]
  {
    assert ps[..k + 1] == ps[..k] + [ps[k]];
  }

  lemma CutNext(ps: seq<int>, k: nat, p: int)
    requires 0 < k <= |ps|
    ensures CutRow(ps, k, p) <==> CutRow(ps, k - 1, p) || (k < |ps| && ps[k] == p)
  {
    if CutRow(ps, k - 1, p) {
      var i :| 1 <= i <= k - 1 && i < |ps| && ps[i] == p;
      assert 1 <= i <= k && ps[i] == p;
    }
    if k < |ps| && ps[k] == p {
      assert 1 <= k <= k && ps[k] == p;
    }
  }

  ghost predicate CutUpTo(g: Graph, h: Graph, ps: seq<int>, k: nat, to: int) {
    && k <= |ps| && h.nodes == g.nodes && h.Parents(to) == ps[k..]
    && (forall n :: ListsCut(g, h, ps, k, to, n))
    && (forall p, c :: RowCut(g, h, ps, k, to, p, c))
  }

  /** Before any parent is unlinked; looking up the list of `to` creates it. */
  lemma CutNothing(g: Graph, to: int)
    ensures CutUpTo(g, g.(reverse := g.reverse[to := g.Parents(to)]), g.Parents(to), 0, to)
  {
    var h, ps := g.(reverse := g.reverse[to := g.Parents(to)]), g.Parents(to);
    forall n ensures ListsCut(g, h, ps, 0, to, n) {
    }
    forall p, c ensures RowCut(g, h, ps, 0, to, p, c) {
    }
  }

  /** The graph after unlinking the first remaining parent. */
  ghost function Unlink(h: Graph, to: int): Graph
    requires h.Parents(to) != []
  {
    var p, rest := h.Parents(to)[0], h.Parents(to)[1..];
    var index := if rest == [] then h.edgeMap else h.edgeMap[rest[0] := Entry(h.edgeMap, rest[0]) - {to}];
    Graph(h.nodes, h.forward[p := Erase(h.Children(p), to)], h.reverse[to := rest], index)
  }

  lemma CutStep(g: Graph, h: Graph, ps: seq<int>, k: nat, to: int)
    requires CutUpTo(g, h, ps, k, to) && h.Parents(to) != [] && Distinct(ps)
    ensures CutUpTo(g, Unlink(h, to), ps, k + 1, to)
  {
    var u, j := Unlink(h, to), k + 1;
    assert ps[k..][1..] == ps[j..];
    forall n ensures ListsCut(g, u, ps, j, to, n) {
      assert ListsCut(g, h, ps, k, to, n);
      TakeMember(ps, k, n);
    }
    forall p, c ensures RowCut(g, u, ps, j, to, p, c) {
      assert RowCut(g, h, ps, k, to, p, c);
      CutNext(ps, j, p);
    }
  }

  /** `h` is `g` without the edges into `to`, except for what the index keeps. */
  ghost predicate ParentsCut(g: Graph, h: Graph, to: int) {
    && h.nodes == g.nodes
    && (forall n :: ListsWithoutChild(g, h, to, n))
    && (forall p, c :: RowCut(g, h, g.Parents(to), |g.Parents(to)|, to, p, c))
  }

  ghost predicate ListsWithoutChild(g: Graph, h: Graph, to: int, n: int) {
    && h.Children(n) == Erase(g.Children(n), to)
    && h.Parents(n) == (if n == to then [] else g.Parents(n))
    && (g.HasLists(n) ==> h.HasLists(n))
  }

  lemma AllCut(g: Graph, h: Graph, a: Plain, ps: seq<int>, to: int)
    requires Shows(g, a) && ps == g.Parents(to) && CutUpTo(g, h, ps, |ps|, to)
    ensures ParentsCut(g, h, to)
  {
    forall n ensures ListsWithoutChild(g, h, to, n) {
      assert ListsCut(g, h, ps, |ps|, to, n) && ArcShown(g, a, n, to);
      assert ps[..|ps|] == ps;
      if n !in ps {
        assert !g.BackEdge(n, to) && !g.Edge(n, to);
        EraseAbsent(g.Children(n), to);
      }
    }
  }

  ghost predicate ListsDropped(g: Graph, h: Graph, cs: seq<int>, k: nat, from: int, n: int)
    requires k <= |cs|
  {
    && h.Parents(n) == (if n in cs[..k] then Erase(g.Parents(n), from) else g.Parents(n))
    && (n != from ==> h.Children(n) == g.Children(n))
    && (g.HasLists(n) ==> h.HasLists(n))
  }

  ghost predicate DroppedUpTo(g: Graph, h: Graph, cs: seq<int>, k: nat, from: int) {
    && k <= |cs| && h.nodes == g.nodes && h.edgeMap == g.edgeMap && h.Children(from) == cs[k..]
    && (forall n :: ListsDropped(g, h, cs, k, from, n))
  }

  /** The graph after unlinking the first remaining child. */
  ghost function Drop(h: Graph, from: int): Graph
    requires h.Children(from) != []
  {
    var c := h.Children(from)[0];
    h.(reverse := h.reverse[c := Erase(h.Parents(c), from)], forward := h.forward[from := h.Children(from)[1..]])
  }

  lemma DropStep(g: Graph, h: Graph, cs: seq<int>, k: nat, from: int)
    requires DroppedUpTo(g, h, cs, k, from) && h.Children(from) != [] && Distinct(cs)
    ensures DroppedUpTo(g, Drop(h, from), cs, k + 1, from)
  {
    var u, j := Drop(h, from), k + 1;
    assert cs[k..][1..] == cs[j..];
    forall n ensures ListsDropped(g, u, cs, j, from, n) {
      assert ListsDropped(g, h, cs, k, from, n);
      TakeMember(cs, k, n);
    }
  }

  ghost predicate ListsWithoutParent(g: Graph, h: Graph, cs: seq<int>, from: int, n: int) {
    && h.Parents(n) == (if n in cs then Erase(g.Parents(n), from) else g.Parents(n))
    && h.Children(n) == (if n == from then [] else g.Children(n))
    && (g.HasLists(n) ==> h.HasLists(n))
  }

  lemma AllDropped(g: Graph, h: Graph, cs: seq<int>, from: int)
    requires cs == g.Children(from) && DroppedUpTo(g, h, cs, |cs|, from)
    ensures ChildrenCut(g, h.(edgeMap := h.edgeMap - {from}), from)
  {
    var u := h.(edgeMap := h.edgeMap - {from});
    forall n ensures ListsWithoutParent(g, u, cs, from, n) {
      assert ListsDropped(g, h, cs, |cs|, from, n);
      assert cs[..|cs|] == cs;
    }
  }

  /** `h` is `g` without the edges out of `from`, in the lists and in the index. */
  ghost predicate ChildrenCut(g: Graph, h: Graph, from: int) {
    && h.nodes == g.nodes
    && (forall n :: ListsWithoutParent(g, h, g.Children(from), from, n))
    && h.edgeMap == g.edgeMap - {from}
  }

  /** The stale entries after the deletion of `n`, which leaves that of its first parent behind. */
  ghost function LeftBehind(stale: set<Arc>, ps: seq<int>, n: int): set<Arc> {
    Cleared(stale, n) + if ps != [] && ps[0] != n then {Arc(ps[0], n)} else {}
  }

  lemma DeletedLists(g: Graph, h: Graph, u: Graph, a: Plain, n: int, m: int)
    requires Shows(g, a) && ParentsCut(g, h, n) && ChildrenCut(h, u, n)
    ensures u.Children(m) == (if m == n then [] else Erase(g.Children(m), n))
    ensures u.Parents(m) == (if m == n then [] else Erase(g.Parents(m), n))
    ensures g.HasLists(m) ==> u.HasLists(m)
  {
    assert ListsWithoutChild(g, h, n, m) && ListsWithoutChild(g, h, n, n);
    assert ListsWithoutParent(h, u, h.Children(n), n, m);
    assert SimpleLists(g, n) && ArcShown(g, a, n, m);
    EraseSpec(g.Children(n), n);
    assert Erases(g.Children(n), n, m);
    assert g.Edge(n, m) <==> g.BackEdge(n, m);
    if !g.Edge(n, m) && m != n {
      EraseAbsent(g.Parents(m), n);
    }
  }

  lemma DeletedShows(g: Graph, h: Graph, u: Graph, a: Plain, n: int)
    requires Shows(g, a) && ParentsCut(g, h, n) && ChildrenCut(h, u, n)
    ensures Shows(u.(nodes := u.nodes - {n}), a.Without(n))
    ensures forall m :: ListsErased(g, u.(nodes := u.nodes - {n}), n, m)
  {
    var v, b := u.(nodes := u.nodes - {n}), a.Without(n);
    forall m ensures ListsErased(g, v, n, m) {
      DeletedLists(g, h, u, a, n, m);
    }
    forall m ensures SimpleLists(v, m) {
      assert SimpleLists(g, m);
      DeletedLists(g, h, u, a, n, m);
      EraseSpec(g.Children(m), n);
      EraseSpec(g.Parents(m), n);
    }
    forall p, c ensures ArcShown(v, b, p, c) && WithinNodes(b, p, c) {
      assert ArcShown(g, a, p, c) && WithinNodes(a, p, c) && SimpleLists(g, p) && SimpleLists(g, c);
      DeletedLists(g, h, u, a, n, p);
      DeletedLists(g, h, u, a, n, c);
      EraseSpec(g.Children(p), n);
      EraseSpec(g.Parents(c), n);
      assert Erases(g.Children(p), n, c) && Erases(g.Parents(c), n, p);
    }
  }

  lemma CutRowIff(ps: seq<int>, p: int)
    requires Distinct(ps)
    ensures CutRow(ps, |ps|, p) <==> p in ps && p != ps[0]
  {
    if p in ps && p != ps[0] {
      var i :| 0 <= i < |ps| && ps[i] == p;
      assert 1 <= i <= |ps|;
    }
  }

  ghost predicate ListsErased(g: Graph, v: Graph, n: int, m: int) {
    && v.Children(m) == (if m == n then [] else Erase(g.Children(m), n))
    && v.Parents(m) == (if m == n then [] else Erase(g.Parents(m), n))
  }

  lemma DeletedEntry(g: Graph, h: Graph, u: Graph, a: Plain, stale: set<Arc>, n: int, p: int, c: int)
    requires Holds(g, a, stale) && ParentsCut(g, h, n) && ChildrenCut(h, u, n)
    ensures EntryIs(u, a.Without(n).arcs + LeftBehind(stale, g.Parents(n), n), p, c)
  {
    var ps := g.Parents(n);
    assert EntryIs(g, a.arcs + stale, p, c) && ArcShown(g, a, p, n) && SimpleLists(g, n);
    assert RowCut(g, h, ps, |ps|, n, p, c);
    CutRowIff(ps, p);
    assert g.BackEdge(p, n) <==> p in ps;
    assert u.Indexed(p, c) <==> p != n && h.Indexed(p, c);
  }

  lemma DeletedHolds(g: Graph, h: Graph, u: Graph, a: Plain, stale: set<Arc>, n: int)
    requires Holds(g, a, stale) && ParentsCut(g, h, n) && ChildrenCut(h, u, n)
    ensures Holds(u.(nodes := u.nodes - {n}), a.Without(n), LeftBehind(stale, g.Parents(n), n))
    ensures forall m :: ListsErased(g, u.(nodes := u.nodes - {n}), n, m)
  {
    DeletedShows(g, h, u, a, n);
    var v, b, left := u.(nodes := u.nodes - {n}), a.Without(n), LeftBehind(stale, g.Parents(n), n);
    forall p, c ensures EntryIs(v, b.arcs + left, p, c) {
      DeletedEntry(g, h, u, a, stale, n, p, c);
    }
  }

  // ---- The serialized form ----

  ghost predicate NodeRead(g: Graph, node: DagNode) {
    && node.id in g.nodes && node.id in g.forward && node.id in g.reverse
    && g.Children(node.id) == node.sortedChildren && g.Parents(node.id) == node.sortedParents
    && Entry(g.edgeMap, node.id) == Elements(node.sortedChildren)
  }

  ghost predicate Mentions(dag: seq<DagNode>, n: int) { exists i :: 0 <= i < |dag| && dag[i].id == n }

  ghost predicate OnlyMentioned(g: Graph, dag: seq<DagNode>, n: int) {
    (n in g.nodes ==> Mentions(dag, n)) &&
      (!Mentions(dag, n) ==> g.Children(n) == [] && g.Parents(n) == [] && Entry(g.edgeMap, n) == {})
  }

  /** The graph holds the serialized nodes and nothing else. */
  ghost predicate IsRead(g: Graph, dag: seq<DagNode>) {
    (forall i | 0 <= i < |dag| :: NodeRead(g, dag[i])) && (forall n :: OnlyMentioned(g, dag, n))
  }

  lemma MentionsNext(dag: seq<DagNode>, i: nat, n: int)
    requires i < |dag|
    ensures Mentions(dag[..i + 1], n) <==> Mentions(dag[..i], n) || dag[i].id == n
  {
    var a, b := dag[..i], dag[..i + 1];
    if Mentions(a, n) {
      var j :| 0 <= j < |a| && a[j].id == n;
      assert b[j].id == n;
    }
    if dag[i].id == n {
      assert b[i].id == n;
    }
    if Mentions(b, n) && dag[i].id != n {
      var j :| 0 <= j < |b| && b[j].id == n;
      assert a[j].id == n;
    }
  }

  ghost predicate DistinctIds(dag: seq<DagNode>) {
    forall i, j | 0 <= i < j < |dag| :: dag[i].id != dag[j].id
  }

  /** Whether the next node is already there tells whether its id occurred before. */
  lemma IdIsNew(g: Graph, dag: seq<DagNode>, i: nat)
    requires i < |dag| && IsRead(g, dag[..i]) && DistinctIds(dag[..i])
    ensures dag[i].id in g.nodes ==> !DistinctIds(dag)
    ensures dag[i].id !in g.nodes ==> DistinctIds(dag[..i + 1])
  {
    var a, b := dag[..i], dag[..i + 1];
    assert OnlyMentioned(g, a, dag[i].id);
    if dag[i].id in g.nodes {
      var j :| 0 <= j < |a| && a[j].id == dag[i].id;
      assert dag[j].id == dag[i].id;
    } else {
      forall j, k | 0 <= j < k < |b| ensures b[j].id != b[k].id {
        assert NodeRead(g, a[j]) && b[j] == a[j];
        if k < i {
          assert a[j].id != a[k].id && b[k] == a[k];
        }
      }
    }
  }

  ghost predicate RowAfter(was: map<int, set<int>>, now: map<int, set<int>>, n: int, children: seq<int>, p: int) {
    Entry(now, p) == Entry(was, p) + if p == n then Elements(children) else {}
  }

  lemma NotYetRead(g: Graph, dag: seq<DagNode>, i: nat)
    requires i < |dag| && IsRead(g, dag[..i]) && dag[i].id !in g.nodes
    ensures !Mentions(dag[..i], dag[i].id) && Entry(g.edgeMap, dag[i].id) == {}
  {
    var a := dag[..i];
    assert !Mentions(a, dag[i].id) by {
      forall j | 0 <= j < |a| ensures a[j].id != dag[i].id {
        assert NodeRead(g, a[j]);
      }
    }
    assert OnlyMentioned(g, a, dag[i].id);
  }

  lemma ReadNext(g: Graph, h: Graph, dag: seq<DagNode>, i: nat)
    requires i < |dag| && IsRead(g, dag[..i]) && dag[i].id !in g.nodes
    requires h.nodes == g.nodes + {dag[i].id}
    requires h.forward == g.forward[dag[i].id := dag[i].sortedChildren] &&
             h.reverse == g.reverse[dag[i].id := dag[i].sortedParents]
    requires forall p :: RowAfter(g.edgeMap, h.edgeMap, dag[i].id, dag[i].sortedChildren, p)
    ensures IsRead(h, dag[..i + 1])
  {
    var a, b := dag[..i], dag[..i + 1];
    NotYetRead(g, dag, i);
    forall j | 0 <= j < |b| ensures NodeRead(h, b[j]) {
      if j < i {
        assert a[j] == dag[j] == b[j] && NodeRead(g, a[j]);
      }
      assert RowAfter(g.edgeMap, h.edgeMap, dag[i].id, dag[i].sortedChildren, b[j].id);
    }
    forall n ensures OnlyMentioned(h, b, n) {
      assert OnlyMentioned(g, a, n) && RowAfter(g.edgeMap, h.edgeMap, dag[i].id, dag[i].sortedChildren, n);
      MentionsNext(dag, i, n);
    }
  }

  // ---- The DAG ----

  class DAG {
    var nodes: set<int>
    var forwardEdges: map<int, seq<int>>
    var reverseEdges: map<int, seq<int>>
    var forwardEdgesMap: map<int, set<int>>
    /** The reference view that the lists show, and the entries that the index holds besides its arcs. */
    ghost var plain: Plain
    ghost var stale: set<Arc>

    ghost function Value(): Graph
      reads this`nodes, this`forwardEdges, this`reverseEdges, this`forwardEdgesMap
    {
      Graph(nodes, forwardEdges, reverseEdges, forwardEdgesMap)
    }

    ghost predicate Valid()
      reads this
    {
      Holds(Value(), plain, stale)
    }

    constructor ()
      ensures Valid() && plain == Plain({}, {}) && stale == {} && Value() == Graph({}, map[], map[], map[])
    {
      nodes, forwardEdges, reverseEdges, forwardEdgesMap := {}, map[], map[], map[];
      plain, stale := Plain({}, {}), {};
    }

    function Children(n: int): seq<int>
      reads this`forwardEdges
    {
      if n in forwardEdges then forwardEdges[n] else []
    }

    function Parents(n: int): seq<int>
      reads this`reverseEdges
    {
      if n in reverseEdges then reverseEdges[n] else []
    }

    predicate HasNode(n: int)
      reads this`nodes
    {
      n in nodes
    }

    /** The index answers: for the arcs, and for the stale entries. */
    predicate HasEdge(p: int, c: int)
      reads this
      ensures Valid() ==> (HasEdge(p, c) <==> Arc(p, c) in plain.arcs || Arc(p, c) in stale)
    {
      assert Valid() ==> EntryIs(Value(), plain.arcs + stale, p, c);
      p in forwardEdgesMap && c in forwardEdgesMap[p]
    }

    method AddNode(n: int)
      requires !HasNode(n)
      modifies this
      ensures Value() == NodeAdded(old(Value()), n)
      ensures old(Valid()) ==> Valid()
      ensures plain == Plain(old(plain).nodes + {n}, old(plain).arcs) && stale == old(stale)
    {
      if Valid() {
        NodeAddedHolds(Value(), plain, stale, n);
      }
      nodes := nodes + {n};
      forwardEdges := forwardEdges[n := []];
      reverseEdges := reverseEdges[n := []];
      plain := Plain(plain.nodes + {n}, plain.arcs);
    }

    method AddForwardEdge(p: int, c: int)
      modifies this`forwardEdges, this`forwardEdgesMap
      ensures forwardEdges == old(forwardEdges)[p := old(Children(p)) + [c]]
      ensures forwardEdgesMap == old(forwardEdgesMap)[p := Entry(old(forwardEdgesMap), p) + {c}]
    {
      forwardEdges := forwardEdges[p := Children(p) + [c]];
      forwardEdgesMap := forwardEdgesMap[p := Entry(forwardEdgesMap, p) + {c}];
    }

    method AddReverseEdge(c: int, p: int)
      modifies this`reverseEdges
      ensures reverseEdges == old(reverseEdges)[c := old(Parents(c)) + [p]]
    {
      reverseEdges := reverseEdges[c := Parents(c) + [p]];
    }

    /** Adding an edge keeps the lists coherent exactly when the edge is new. */
    method AddEdge(p: int, c: int)
      requires Valid() && HasNode(p) && HasNode(c)
      modifies this
      ensures Value() == EdgeAdded(old(Value()), p, c)
      ensures Arc(p, c) !in old(plain).arcs ==>
                Valid() && plain == Added(old(plain), p, c) && stale == old(stale) - {Arc(p, c)}
      ensures Arc(p, c) in old(plain).arcs ==> forall b :: !Shows(Value(), b)
    {
      ghost var g, a := Value(), plain;
      AddForwardEdge(p, c);
      AddReverseEdge(c, p);
      if Arc(p, c) !in a.arcs {
        AddHolds(g, a, stale, p, c);
      } else {
        assert SimpleLists(g, p) && ArcShown(g, a, p, c);
        DistinctAppend(g.Children(p), c);
        assert !SimpleLists(Value(), p);
      }
      plain, stale := Added(plain, p, c), stale - {Arc(p, c)};
    }

    /** Deleting an edge, present or not. */
    method DeleteEdge(p: int, c: int)
      requires Valid()
      modifies this
      ensures Value() == EdgeDeleted(old(Value()), p, c)
      ensures Valid() && plain == Removed(old(plain), p, c) && stale == Cleared(old(stale), p)
    {
      DeleteHolds(Value(), plain, stale, p, c);
      forwardEdges := forwardEdges[p := Erase(Children(p), c)];
      forwardEdgesMap := forwardEdgesMap[p := Elements(Children(p))];
      reverseEdges := reverseEdges[c := Erase(Parents(c), p)];
      plain, stale := Removed(plain, p, c), Cleared(stale, p);
    }

    /** Replacing a child keeps the lists coherent exactly when the child was there and the new one was not. */
    method ReplaceChildEdge(p: int, x: int, y: int)
      requires Valid() && HasNode(p) && HasNode(x) && HasNode(y)
      modifies this
      ensures Value() == ChildEdgeReplaced(old(Value()), p, x, y)
      ensures Arc(p, x) in old(plain).arcs && (x == y || Arc(p, y) !in old(plain).arcs) ==>
                Valid() && plain == ChildReplaced(old(plain), p, x, y) && stale == Cleared(old(stale), p)
      ensures !(Arc(p, x) in old(plain).arcs && (x == y || Arc(p, y) !in old(plain).arcs)) ==>
                forall b :: !Shows(Value(), b)
    {
      ghost var g, a, s := Value(), plain, stale;
      forwardEdges := forwardEdges[p := Replace(Children(p), x, y)];
      forwardEdgesMap := forwardEdgesMap[p := Elements(Children(p))];
      reverseEdges := reverseEdges[x := Erase(Parents(x), p)];
      AddReverseEdge(y, p);
      plain, stale := ChildReplaced(plain, p, x, y), Cleared(stale, p);
      assert Value() == ChildEdgeReplaced(g, p, x, y);
      if Arc(p, x) in a.arcs && (x == y || Arc(p, y) !in a.arcs) {
        ReplaceChildHolds(g, a, s, p, x, y);
      } else {
        forall b ensures !Shows(Value(), b) {
          ReplaceChildBreaks(g, a, p, x, y, b);
          if Shows(Value(), b) {
            SameLists(Value(), ReplaceChild(g, p, x, y), b);
          }
        }
      }
    }

    method ReplaceParentEdge(c: int, x: int, y: int)
      requires Valid() && HasNode(c) && HasNode(x) && HasNode(y)
      modifies this
      ensures Value() == ParentEdgeReplaced(old(Value()), c, x, y)
      ensures Arc(x, c) in old(plain).arcs && (x == y || Arc(y, c) !in old(plain).arcs) ==>
                Valid() && plain == ParentReplaced(old(plain), c, x, y) && stale == Cleared(old(stale), x) - {Arc(y, c)}
      ensures !(Arc(x, c) in old(plain).arcs && (x == y || Arc(y, c) !in old(plain).arcs)) ==>
                forall b :: !Shows(Value(), b)
    {
      ghost var g, a, s := Value(), plain, stale;
      reverseEdges := reverseEdges[c := Replace(Parents(c), x, y)];
      forwardEdges := forwardEdges[x := Erase(Children(x), c)];
      forwardEdgesMap := forwardEdgesMap[x := Elements(Children(x))];
      AddForwardEdge(y, c);
      plain, stale := ParentReplaced(plain, c, x, y), Cleared(stale, x) - {Arc(y, c)};
      assert Value() == ParentEdgeReplaced(g, c, x, y);
      if Arc(x, c) in a.arcs && (x == y || Arc(y, c) !in a.arcs) {
        ReplaceParentHolds(g, a, s, c, x, y);
      } else {
        forall b ensures !Shows(Value(), b) {
          ReplaceParentBreaks(g, a, c, x, y, b);
          if Shows(Value(), b) {
            SameLists(Value(), ReplaceParent(g, c, x, y), b);
          }
        }
      }
    }

    /** Unlink the first remaining parent; the entry that leaves the index is that of the parent behind it. */
    method UnlinkFirstParent(to: int)
      requires Parents(to) != []
      modifies this`forwardEdges, this`reverseEdges, this`forwardEdgesMap
      ensures Value() == Unlink(old(Value()), to)
    {
      var p := reverseEdges[to][0];
      forwardEdges := forwardEdges[p := Erase(Children(p), to)];
      reverseEdges := reverseEdges[to := reverseEdges[to][1..]];
      if reverseEdges[to] != [] {
        var q := reverseEdges[to][0];
        forwardEdgesMap := forwardEdgesMap[q := Entry(forwardEdgesMap, q) - {to}];
      }
    }

    method DeleteParentEdges(to: int)
      requires Valid()
      modifies this`forwardEdges, this`reverseEdges, this`forwardEdgesMap
      ensures ParentsCut(old(Value()), Value(), to)
    {
      ghost var g, ps := Value(), Parents(to);
      assert SimpleLists(g, to);
      CutNothing(g, to);
      reverseEdges := reverseEdges[to := Parents(to)];
      ghost var k := 0;
      while Parents(to) != []
        invariant CutUpTo(g, Value(), ps, k, to)
        decreases |ps| - k
      {
        CutStep(g, Value(), ps, k, to);
        UnlinkFirstParent(to);
        k := k + 1;
      }
      AllCut(g, Value(), plain, ps, to);
    }

    /** Unlink the first remaining child. */
    method DropFirstChild(from: int)
      requires Children(from) != []
      modifies this`forwardEdges, this`reverseEdges
      ensures Value() == Drop(old(Value()), from)
    {
      var c := forwardEdges[from][0];
      reverseEdges := reverseEdges[c := Erase(Parents(c), from)];
      forwardEdges := forwardEdges[from := forwardEdges[from][1..]];
    }

    method DeleteDependentEdges(from: int)
      requires forall n :: Distinct(Children(n))
      modifies this`forwardEdges, this`reverseEdges, this`forwardEdgesMap
      ensures ChildrenCut(old(Value()), Value(), from)
    {
      ghost var g, cs := Value(), Children(from);
      forwardEdges := forwardEdges[from := Children(from)];
      ghost var k := 0;
      while Children(from) != []
        invariant DroppedUpTo(g, Value(), cs, k, from)
        decreases |cs| - k
      {
        DropStep(g, Value(), cs, k, from);
        DropFirstChild(from);
        k := k + 1;
      }
      ghost var h := Value();
      forwardEdgesMap := forwardEdgesMap - {from};
      AllDropped(g, h, cs, from);
    }

    /**
     Deleting a node keeps the lists. The index keeps the entry of the first parent, so it has one more stale entry
     unless there was no parent or the first parent was the node itself.
     */
    method DeleteNode(n: int)
      requires Valid()
      modifies this
      ensures Valid() && plain == old(plain).Without(n) && stale == LeftBehind(old(stale), old(Parents(n)), n)
      ensures forall m :: ListsErased(old(Value()), Value(), n, m)
      ensures old(stale) == {} ==> (stale == {} <==> old(Parents(n)) == [] || old(Parents(n))[0] == n)
    {
      ghost var g, a := Value(), plain;
      DeleteParentEdges(n);
      ghost var h := Value();
      forall m ensures Distinct(Children(m)) {
        assert ListsWithoutChild(g, h, n, m) && SimpleLists(g, m);
        EraseSpec(g.Children(m), n);
      }
      DeleteDependentEdges(n);
      DeletedHolds(g, h, Value(), a, stale, n);
      nodes := nodes - {n};
      plain, stale := a.Without(n), LeftBehind(stale, g.Parents(n), n);
      assert stale != {} || old(Parents(n)) == [] || old(Parents(n))[0] == n by {
        assert old(Parents(n)) != [] && old(Parents(n))[0] != n ==> Arc(old(Parents(n))[0], n) in stale;
      }
    }

    method InitChildren(n: int, children: seq<int>)
      requires n in forwardEdges && forwardEdges[n] == []
      modifies this`forwardEdges, this`forwardEdgesMap
      ensures forwardEdges == old(forwardEdges)[n := children]
      ensures forall p :: RowAfter(old(forwardEdgesMap), forwardEdgesMap, n, children, p)
    {
      assert old(forwardEdges)[n := []] == old(forwardEdges);
      for i := 0 to |children|
        invariant forwardEdges == old(forwardEdges)[n := children[..i]]
        invariant forall p :: RowAfter(old(forwardEdgesMap), forwardEdgesMap, n, children[..i], p)
      {
        assert children[..i + 1] == children[..i] + [children[i]];
        assert Elements(children[..i + 1]) == Elements(children[..i]) + {children[i]};
        ghost var index, next := forwardEdgesMap, children[..i + 1];
        AddForwardEdge(n, children[i]);
        forall p ensures RowAfter(old(forwardEdgesMap), forwardEdgesMap, n, next, p) {
          assert RowAfter(old(forwardEdgesMap), index, n, children[..i], p);
        }
      }
      assert children[..|children|] == children;
    }

    method InitParents(n: int, parents: seq<int>)
      requires n in reverseEdges && reverseEdges[n] == []
      modifies this`reverseEdges
      ensures reverseEdges == old(reverseEdges)[n := parents]
    {
      assert old(reverseEdges)[n := []] == old(reverseEdges);
      for i := 0 to |parents|
        invariant reverseEdges == old(reverseEdges)[n := parents[..i]]
      {
        assert parents[..i + 1] == parents[..i] + [parents[i]];
        AddReverseEdge(n, parents[i]);
      }
      assert parents[..|parents|] == parents;
    }

    /** Read one node of the serialized form. */
    method InitNode(node: DagNode)
      requires !HasNode(node.id)
      modifies this
      ensures nodes == old(nodes) + {node.id}
      ensures forwardEdges == old(forwardEdges)[node.id := node.sortedChildren]
      ensures reverseEdges == old(reverseEdges)[node.id := node.sortedParents]
      ensures forall p :: RowAfter(old(forwardEdgesMap), forwardEdgesMap, node.id, node.sortedChildren, p)
    {
      AddNode(node.id);
      InitChildren(node.id, node.sortedChildren);
      InitParents(node.id, node.sortedParents);
    }

    /** Read a serialized graph into an empty one; the check that a node is new fails if an id occurs twice. */
    method Init(dag: seq<DagNode>) returns (ok: bool)
      requires nodes == {} && forwardEdges == map[] && reverseEdges == map[] && forwardEdgesMap == map[]
      modifies this
      ensures ok <==> DistinctIds(dag)
      ensures ok ==> IsRead(Value(), dag)
    {
      for i := 0 to |dag|
        invariant IsRead(Value(), dag[..i]) && DistinctIds(dag[..i])
      {
        ghost var g := Value();
        IdIsNew(g, dag, i);
        if HasNode(dag[i].id) {
          return false;
        }
        NotYetRead(g, dag, i);
        InitNode(dag[i]);
        ReadNext(g, Value(), dag, i);
      }
      assert dag[..|dag|] == dag;
      return true;
    }
  }
}
