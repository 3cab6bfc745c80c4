/** Whole histories of a DAG: any sequence of edits, and the trip through the serialized form. */
module DagRuns {
  import opened Basics
  import opened Graphs
  import opened Dag
  import opened TopologicalSorting

  // ---- Any sequence of edits ----

  datatype Edit =
    | AddNode(n: int)
    | DeleteNode(n: int)
    | AddEdge(p: int, c: int)
    | DeleteEdge(p: int, c: int)
    | ReplaceChildEdge(p: int, was: int, now: int)
    | ReplaceParentEdge(c: int, was: int, now: int)
  {
    /**
     The edit is one that its caller may ask for: nodes exist, and edges are added or replaced only where that makes
     sense.
     */
    ghost predicate Allowed(a: Plain) {
      match this
      case AddNode(n) => n !in a.nodes
      case AddEdge(p, c) => p in a.nodes && c in a.nodes && Arc(p, c) !in a.arcs
      case ReplaceChildEdge(p, was, now) => MayReplaceChild(a, p, was, now)
      case ReplaceParentEdge(c, was, now) => MayReplaceParent(a, c, was, now)
      case _ => true
    }

    ghost function Result(a: Plain): Plain {
      match this
      case AddNode(n) => Plain(a.nodes + {n}, a.arcs)
      case DeleteNode(n) => a.Without(n)
      case AddEdge(p, c) => Added(a, p, c)
      case DeleteEdge(p, c) => Removed(a, p, c)
      case ReplaceChildEdge(p, was, now) => ChildReplaced(a, p, was, now)
      case ReplaceParentEdge(c, was, now) => ParentReplaced(a, c, was, now)
    }

    /** The parents of `m` in order after the edit, from those before it. */
    ghost function ParentsAfter(ps: seq<int>, m: int): seq<int> {
      match this
      case AddNode(n) => if m == n then [] else ps
      case DeleteNode(n) => if m == n then [] else Erase(ps, n)
      case AddEdge(p, c) => if m == c then ps + [p] else ps
      case DeleteEdge(p, c) => if m == c then Erase(ps, p) else ps
      case ReplaceChildEdge(p, was, now) => (if m == was then Erase(ps, p) else ps) + if m == now then [p] else []
      case ReplaceParentEdge(c, was, now) => if m == c then Replace(ps, was, now) else ps
    }

    /** The children of `m` in order after the edit, from those before it. */
    ghost function ChildrenAfter(cs: seq<int>, m: int): seq<int> {
      match this
      case AddNode(n) => if m == n then [] else cs
      case DeleteNode(n) => if m == n then [] else Erase(cs, n)
      case AddEdge(p, c) => if m == p then cs + [c] else cs
      case DeleteEdge(p, c) => if m == p then Erase(cs, c) else cs
      case ReplaceChildEdge(p, was, now) => if m == p then Replace(cs, was, now) else cs
      case ReplaceParentEdge(c, was, now) => (if m == was then Erase(cs, c) else cs) + if m == now then [c] else []
    }

    /** The stale index entries after the edit; `ps` are the parents of the node if one is deleted. */
    ghost function StaleAfter(stale: set<Arc>, ps: seq<int>): set<Arc> {
      match this
      case AddNode(n) => stale
      case DeleteNode(n) => LeftBehind(stale, ps, n)
      case AddEdge(p, c) => stale - {Arc(p, c)}
      case DeleteEdge(p, c) => Cleared(stale, p)
      case ReplaceChildEdge(p, was, now) => Cleared(stale, p)
      case ReplaceParentEdge(c, was, now) => Cleared(stale, was) - {Arc(now, c)}
    }

    /** The edit rebuilds or removes row `p` of the index, or makes the entry for `c` in it right. */
    predicate Settles(p: int, c: int) {
      match this
      case AddNode(n) => false
      case DeleteNode(n) => n == p
      case AddEdge(q, d) => q == p && d == c
      case DeleteEdge(q, d) => q == p
      case ReplaceChildEdge(q, was, now) => q == p
      case ReplaceParentEdge(d, was, now) => was == p || (now == p && d == c)
    }
  }

  /** The nodes and arcs after some edits of the empty graph. */
  ghost function After(edits: seq<Edit>): Plain {
    if edits == [] then Plain({}, {}) else edits[|edits| - 1].Result(After(edits[..|edits| - 1]))
  }

  /** The parents of a node in order after some edits of the empty graph. */
  ghost function ParentOrder(edits: seq<Edit>, m: int): seq<int> {
    if edits == [] then [] else edits[|edits| - 1].ParentsAfter(ParentOrder(edits[..|edits| - 1], m), m)
  }

  /** The children of a node in order after some edits of the empty graph. */
  ghost function ChildOrder(edits: seq<Edit>, m: int): seq<int> {
    if edits == [] then [] else edits[|edits| - 1].ChildrenAfter(ChildOrder(edits[..|edits| - 1], m), m)
  }

  /** The index entries without an arc after some edits of the empty graph. */
  ghost function Stale(edits: seq<Edit>): set<Arc> {
    if edits == [] then {} else
      var init, last := edits[..|edits| - 1], edits[|edits| - 1];
      last.StaleAfter(Stale(init), if last.DeleteNode? then ParentOrder(init, last.n) else [])
  }

  /** Edit `i` deletes `c` and leaves the index entry of its first parent `p` behind. */
  ghost predicate Leaves(edits: seq<Edit>, i: nat, p: int, c: int)
    requires i < |edits|
  {
    edits[i] == DeleteNode(c) && p != c && var ps := ParentOrder(edits[..i], c); ps != [] && ps[0] == p
  }

  /** Edit `i` leaves the entry behind, and no later edit settles it. */
  ghost predicate LeftSince(edits: seq<Edit>, i: nat, p: int, c: int)
    requires i < |edits|
  {
    Leaves(edits, i, p, c) && forall j | i < j < |edits| :: !edits[j].Settles(p, c)
  }

  lemma LeftSinceSnoc(edits: seq<Edit>, i: nat, p: int, c: int)
    requires i < |edits| - 1
    ensures LeftSince(edits, i, p, c) <==>
            LeftSince(edits[..|edits| - 1], i, p, c) && !edits[|edits| - 1].Settles(p, c)
  {
    var init := edits[..|edits| - 1];
    assert init[..i] == edits[..i];
    assert forall j | i < j < |init| :: edits[j] == init[j];
  }

  /** An entry is stale exactly when the deletion of its child left it behind and no later edit settled it. */
  lemma {:induction false} StaleExactly(edits: seq<Edit>, p: int, c: int)
    ensures Arc(p, c) in Stale(edits) <==> exists i :: 0 <= i < |edits| && LeftSince(edits, i, p, c)
  {
    if edits != [] {
      var n := |edits| - 1;
      StaleExactly(edits[..n], p, c);
      if Arc(p, c) in Stale(edits[..n]) {
        var i :| 0 <= i < n && LeftSince(edits[..n], i, p, c);
        LeftSinceSnoc(edits, i, p, c);
      }
      if i :| 0 <= i < |edits| && LeftSince(edits, i, p, c) {
        if i < n {
          LeftSinceSnoc(edits, i, p, c);
        }
      }
      assert Leaves(edits, n, p, c) <==> LeftSince(edits, n, p, c);
      assert Arc(p, c) in Stale(edits) <==>
             Leaves(edits, n, p, c) || (Arc(p, c) in Stale(edits[..n]) && !edits[n].Settles(p, c));
    }
  }

  ghost predicate AllowedAt(edits: seq<Edit>, i: nat)
    requires i < |edits|
  {
    edits[i].Allowed(After(edits[..i]))
  }

  ghost predicate ListsMove(g: Graph, h: Graph, edit: Edit, m: int) {
    && h.Parents(m) == edit.ParentsAfter(g.Parents(m), m)
    && h.Children(m) == edit.ChildrenAfter(g.Children(m), m)
  }

  /** The graph after an edit other than the deletion of a node. */
  ghost function Edited(g: Graph, edit: Edit): Graph
    requires !edit.DeleteNode?
  {
    match edit
    case AddNode(n) => NodeAdded(g, n)
    case AddEdge(p, c) => EdgeAdded(g, p, c)
    case DeleteEdge(p, c) => EdgeDeleted(g, p, c)
    case ReplaceChildEdge(p, was, now) => ChildEdgeReplaced(g, p, was, now)
    case ReplaceParentEdge(c, was, now) => ParentEdgeReplaced(g, c, was, now)
  }

  lemma ReplacedLists(g: Graph, edit: Edit, m: int)
    requires edit.ReplaceChildEdge? || edit.ReplaceParentEdge?
    ensures ListsMove(g, Edited(g, edit), edit, m)
  {
  }

  lemma EditedLists(g: Graph, edit: Edit, m: int)
    requires !edit.DeleteNode?
    ensures ListsMove(g, Edited(g, edit), edit, m)
  {
    if edit.ReplaceChildEdge? || edit.ReplaceParentEdge? {
      ReplacedLists(g, edit, m);
    }
  }

  method ApplyEdge(d: DAG, edit: Edit)
    requires d.Valid() && edit.Allowed(d.plain) && !edit.DeleteNode? && !edit.AddNode?
    modifies d
    ensures d.Valid() && d.plain == edit.Result(old(d.plain)) && d.stale == edit.StaleAfter(old(d.stale), [])
    ensures d.Value() == Edited(old(d.Value()), edit)
  {
    match edit
    case AddEdge(p, c) => d.AddEdge(p, c);
    case DeleteEdge(p, c) => d.DeleteEdge(p, c);
    case ReplaceChildEdge(p, was, now) => d.ReplaceChildEdge(p, was, now);
    case ReplaceParentEdge(c, was, now) => d.ReplaceParentEdge(c, was, now);
  }

  method Apply(d: DAG, edit: Edit)
    requires d.Valid() && edit.Allowed(d.plain)
    modifies d
    ensures d.Valid() && d.plain == edit.Result(old(d.plain))
    ensures d.stale == edit.StaleAfter(old(d.stale), if edit.DeleteNode? then old(d.Parents(edit.n)) else [])
    ensures forall m :: ListsMove(old(d.Value()), d.Value(), edit, m)
  {
    ghost var g := d.Value();
    if edit.DeleteNode? {
      d.DeleteNode(edit.n);
      forall m ensures ListsMove(g, d.Value(), edit, m) {
        assert ListsErased(g, d.Value(), edit.n, m);
      }
    } else {
      if edit.AddNode? {
        d.AddNode(edit.n);
      } else {
        ApplyEdge(d, edit);
      }
      forall m ensures ListsMove(g, d.Value(), edit, m) {
        EditedLists(g, edit, m);
      }
    }
  }

  ghost predicate OrderIs(g: Graph, edits: seq<Edit>, m: int) {
    g.Parents(m) == ParentOrder(edits, m) && g.Children(m) == ChildOrder(edits, m)
  }

  /**
   After any allowed edits the two lists show exactly the arcs that the edits leave, with parents and children in
   the order of the edits, and the index holds exactly those arcs and the stale entries.
   */
  method RunEdits(edits: seq<Edit>) returns (g: Graph)
    requires forall i | 0 <= i < |edits| :: AllowedAt(edits, i)
    ensures Shows(g, After(edits)) && g.Coherent() && forall m :: OrderIs(g, edits, m)
    ensures After(edits).arcs !! Stale(edits) && Indexes(g, After(edits).arcs + Stale(edits))
  {
    var d := new DAG();
    for i := 0 to |edits|
      invariant d.Valid() && d.plain == After(edits[..i]) && d.stale == Stale(edits[..i])
      invariant forall m :: OrderIs(d.Value(), edits[..i], m)
    {
      ghost var before, next := d.Value(), edits[..i + 1];
      assert AllowedAt(edits, i);
      assert next[..i] == edits[..i];
      assert edits[i].DeleteNode? ==> OrderIs(before, edits[..i], edits[i].n);
      Apply(d, edits[i]);
      forall m ensures OrderIs(d.Value(), next, m) {
        assert OrderIs(before, edits[..i], m) && ListsMove(before, d.Value(), edits[i], m);
      }
    }
    assert edits[..|edits|] == edits;
    g := Graph(d.nodes, d.forwardEdges, d.reverseEdges, d.forwardEdgesMap);
    ShowsCoherent(g, d.plain);
  }

  lemma OneMore(edits: seq<Edit>, edit: Edit)
    requires (forall i | 0 <= i < |edits| :: AllowedAt(edits, i)) && edit.Allowed(After(edits))
    ensures forall i | 0 <= i < |edits + [edit]| :: AllowedAt(edits + [edit], i)
    ensures After(edits + [edit]) == edit.Result(After(edits))
    ensures forall m :: ParentOrder(edits + [edit], m) == edit.ParentsAfter(ParentOrder(edits, m), m)
    ensures Stale(edits + [edit]) ==
            edit.StaleAfter(Stale(edits), if edit.DeleteNode? then ParentOrder(edits, edit.n) else [])
  {
    var all := edits + [edit];
    assert all[..|edits|] == edits;
    forall i | 0 <= i < |all| ensures AllowedAt(all, i) {
      if i < |edits| {
        assert all[..i] == edits[..i] && AllowedAt(edits, i);
      }
    }
  }

  /** After a node is deleted and added again, the index reports an edge that the lists do not have. */
  method StaleEdge() returns (edits: seq<Edit>, g: Graph)
    ensures forall i | 0 <= i < |edits| :: AllowedAt(edits, i)
    ensures Shows(g, Plain({1, 2}, {})) && g.Indexed(1, 2)
  {
    edits := [];
    OneMore(edits, AddNode(1));
    edits := edits + [AddNode(1)];
    OneMore(edits, AddNode(2));
    edits := edits + [AddNode(2)];
    OneMore(edits, AddEdge(1, 2));
    edits := edits + [AddEdge(1, 2)];
    assert ParentOrder(edits, 2) == [1];
    OneMore(edits, DeleteNode(2));
    edits := edits + [DeleteNode(2)];
    assert After(edits) == Plain({1}, {}) && Arc(1, 2) in Stale(edits);
    OneMore(edits, AddNode(2));
    edits := edits + [AddNode(2)];
    g := RunEdits(edits);
    assert After(edits) == Plain({1, 2}, {}) && EntryIs(g, After(edits).arcs + Stale(edits), 1, 2);
  }

  // ---- Through the serialized form ----

  /** The elements outside a set, in order. */
  ghost function Kept(s: seq<int>, ignore: set<int>): seq<int> {
    if s == [] then []
    else if s[|s| - 1] in ignore then Kept(s[..|s| - 1], ignore)
    else Kept(s[..|s| - 1], ignore) + [s[|s| - 1]]
  }

  lemma KeptNext(s: seq<int>, ignore: set<int>, i: nat)
    requires i < |s|
    ensures Kept(s[..i + 1], ignore) == Kept(s[..i], ignore) + if s[i] in ignore then [] else [s[i]]
  {
    assert s[..i + 1][..i] == s[..i];
  }

  ghost predicate Keeps(s: seq<int>, ignore: set<int>, x: int) { x in Kept(s, ignore) <==> x in s && x !in ignore }

  lemma {:induction false} KeptSpec(s: seq<int>, ignore: set<int>)
    ensures forall x :: Keeps(s, ignore, x)
    ensures Distinct(s) ==> Distinct(Kept(s, ignore))
    ensures ignore == {} ==> Kept(s, ignore) == s
  {
    if s != [] {
      var init, last := s[..|s| - 1], s[|s| - 1];
      KeptSpec(init, ignore);
      assert s == init + [last];
      forall x ensures Keeps(s, ignore, x) {
        assert Keeps(init, ignore, x);
      }
      if Distinct(s) {
        assert last !in init && Keeps(init, ignore, last);
      }
    }
  }

  method KeepOutside(s: seq<int>, ignore: set<int>) returns (r: seq<int>)
    ensures r == Kept(s, ignore)
  {
    r := [];
    for i := 0 to |s|
      invariant r == Kept(s[..i], ignore)
    {
      KeptNext(s, ignore, i);
      if s[i] !in ignore {
        r := r + [s[i]];
      }
    }
    assert s[..|s|] == s;
  }

  ghost predicate Serialized(g: Graph, ignore: set<int>, node: DagNode, n: int) {
    node == DagNode(n, Kept(g.Children(n), ignore), Kept(g.Parents(n), ignore))
  }

  /** The serialized nodes are those of `ids`, in order. */
  ghost predicate SerializedAll(g: Graph, ignore: set<int>, dag: seq<DagNode>, ids: seq<int>) {
    |dag| == |ids| && forall i | 0 <= i < |dag| :: Serialized(g, ignore, dag[i], ids[i])
  }

  /** Serialize the nodes outside `ignore` in the order of the sort, which fails on a cycle. */
  method ToProto(g: Graph, ignore: set<int>) returns (r: Option<seq<DagNode>>, ghost order: seq<int>)
    requires g.Coherent()
    ensures r.Some? ==> SerializedAll(g, ignore, r.value, Kept(order, ignore))
    ensures r.Some? && g.IsTopologicalOrder(order) <==> g.Acyclic() && SmallIds(g)
    ensures SmallIds(g) ==> (r.Some? <==> g.Acyclic())
    ensures AllSmall(order)
  {
    order := [];
    var sorted := TopologicalSort(g);
    if sorted.None? {
      return None, [];
    }
    order := sorted.value;
    var dag: seq<DagNode> := [];
    for i := 0 to |sorted.value|
      invariant SerializedAll(g, ignore, dag, Kept(order[..i], ignore))
    {
      var n := sorted.value[i];
      KeptNext(order, ignore, i);
      if n !in ignore {
        var parents := KeepOutside(g.Parents(n), ignore);
        var children := KeepOutside(g.Children(n), ignore);
        dag := dag + [DagNode(n, children, parents)];
      }
    }
    assert order[..|order|] == order;
    r := Some(dag);
  }

  /** The subgraph of `g` on the nodes outside `ignore`, with the order of children and parents kept. */
  ghost predicate Induced(g: Graph, ignore: set<int>, h: Graph) {
    && h.nodes == g.nodes - ignore
    && (forall n :: InducedAt(g, ignore, h, n))
  }

  ghost predicate InducedAt(g: Graph, ignore: set<int>, h: Graph, n: int) {
    && h.HasLists(n)
    && h.Children(n) == (if n in ignore then [] else Kept(g.Children(n), ignore))
    && h.Parents(n) == (if n in ignore then [] else Kept(g.Parents(n), ignore))
    && Entry(h.edgeMap, n) == Elements(h.Children(n))
  }

  lemma IdsDistinct(g: Graph, ignore: set<int>, dag: seq<DagNode>, order: seq<int>)
    requires g.IsTopologicalOrder(order) && SerializedAll(g, ignore, dag, Kept(order, ignore))
    ensures DistinctIds(dag)
    ensures forall n :: Mentions(dag, n) <==> n in g.nodes && n !in ignore
  {
    var ids := Kept(order, ignore);
    KeptSpec(order, ignore);
    forall i, j | 0 <= i < j < |dag| ensures dag[i].id != dag[j].id {
      assert Serialized(g, ignore, dag[i], ids[i]) && Serialized(g, ignore, dag[j], ids[j]);
    }
    forall n ensures Mentions(dag, n) <==> n in g.nodes && n !in ignore {
      assert Keeps(order, ignore, n) && g.Lists(order, n);
      if Mentions(dag, n) {
        var i :| 0 <= i < |dag| && dag[i].id == n;
        assert Serialized(g, ignore, dag[i], ids[i]);
      }
      if n in ids {
        var i :| 0 <= i < |ids| && ids[i] == n;
        assert Serialized(g, ignore, dag[i], ids[i]);
      }
    }
  }

  lemma ReadIsInduced(g: Graph, ignore: set<int>, dag: seq<DagNode>, order: seq<int>, h: Graph)
    requires g.Closed() && g.IsTopologicalOrder(order) && SerializedAll(g, ignore, dag, Kept(order, ignore)) &&
             IsRead(h, dag)
    ensures Induced(g, ignore, h)
  {
    IdsDistinct(g, ignore, dag, order);
    forall n ensures InducedAt(g, ignore, h, n) {
      assert OnlyMentioned(h, dag, n);
      if Mentions(dag, n) {
        var i :| 0 <= i < |dag| && dag[i].id == n;
        assert NodeRead(h, dag[i]) && Serialized(g, ignore, dag[i], Kept(order, ignore)[i]);
      } else if n !in ignore {
        NoLists(g, n);
      }
    }
    forall n ensures n in h.nodes <==> n in g.nodes - ignore {
      assert OnlyMentioned(h, dag, n);
      if Mentions(dag, n) {
        var i :| 0 <= i < |dag| && dag[i].id == n;
        assert NodeRead(h, dag[i]);
      }
    }
  }

  lemma NoLists(g: Graph, n: int)
    requires g.Closed() && n !in g.nodes
    ensures g.Children(n) == [] && g.Parents(n) == []
  {
    if g.Children(n) != [] {
      assert g.Edge(n, g.Children(n)[0]);
    }
    if g.Parents(n) != [] {
      assert g.BackEdge(g.Parents(n)[0], n);
    }
  }

  /** What is read back has only ids that fit in 32 bits. */
  lemma ReadSmall(g: Graph, ignore: set<int>, dag: seq<DagNode>, order: seq<int>, h: Graph)
    requires AllSmall(order) && SerializedAll(g, ignore, dag, Kept(order, ignore)) && IsRead(h, dag)
    ensures SmallIds(h)
  {
    var ids := Kept(order, ignore);
    KeptSpec(order, ignore);
    forall n ensures n in h.nodes ==> KeepsId(n) {
      assert OnlyMentioned(h, dag, n) && Keeps(order, ignore, n);
      if Mentions(dag, n) {
        var i :| 0 <= i < |dag| && dag[i].id == n;
        assert Serialized(g, ignore, dag[i], ids[i]) && ids[i] in ids;
      }
    }
  }

  /**
   Serializing and reading back yields the induced subgraph of an acyclic graph whose ids fit in 32 bits; with nothing
   ignored, the graph comes back if and only if it is such a graph. None is a failed check or lookup.
   */
  method RoundTrip(g: Graph, ignore: set<int>) returns (r: Option<Graph>)
    requires g.Coherent()
    ensures SmallIds(g) ==> (r.Some? <==> g.Acyclic()) && (r.Some? ==> Induced(g, ignore, r.value))
    ensures ignore == {} ==> (r.Some? && Induced(g, {}, r.value) <==> g.Acyclic() && SmallIds(g))
  {
    var dag, order := ToProto(g, ignore);
    if dag.None? {
      return None;
    }
    var d := new DAG();
    var ok := d.Init(dag.value);
    if SmallIds(g) {
      IdsDistinct(g, ignore, dag.value, order);
    }
    if !ok {
      return None;
    }
    ReadSmall(g, ignore, dag.value, order, d.Value());
    if SmallIds(g) {
      ReadIsInduced(g, ignore, dag.value, order, d.Value());
    }
    r := Some(Graph(d.nodes, d.forwardEdges, d.reverseEdges, d.forwardEdgesMap));
  }

  lemma InducedByNothing(g: Graph, h: Graph, p: int, c: int)
    requires g.Closed() && Induced(g, {}, h)
    ensures h.nodes == g.nodes && h.Children(p) == g.Children(p) && h.Parents(p) == g.Parents(p)
    ensures h.Indexed(p, c) <==> g.Edge(p, c)
  {
    assert InducedAt(g, {}, h, p);
    KeptSpec(g.Children(p), {});
    KeptSpec(g.Parents(p), {});
    assert c in Entry(h.edgeMap, p) <==> c in h.Children(p);
  }

  /** The induced subgraph has exactly the edges between nodes outside `ignore`, in lists and index. */
  lemma InducedEdges(g: Graph, ignore: set<int>, h: Graph, p: int, c: int)
    requires g.Closed() && Induced(g, ignore, h)
    ensures h.Edge(p, c) <==> g.Edge(p, c) && p !in ignore && c !in ignore
    ensures h.BackEdge(p, c) <==> g.BackEdge(p, c) && p !in ignore && c !in ignore
    ensures h.Indexed(p, c) <==> h.Edge(p, c)
  {
    assert InducedAt(g, ignore, h, p) && InducedAt(g, ignore, h, c);
    KeptSpec(g.Children(p), ignore);
    KeptSpec(g.Parents(c), ignore);
    assert Keeps(g.Children(p), ignore, c) && Keeps(g.Parents(c), ignore, p);
    assert c in Entry(h.edgeMap, p) <==> c in h.Children(p);
  }
}
