/** The coloured depth-first search that collects the dependencies of a node. */
module TransitiveDependencies {
  import opened Basics
  import opened Graphs

  datatype VisitStatus = VisitStarted | VisitComplete

  datatype Visit = Visit(status: VisitStatus, node: int)

  datatype NodeColor = White | Gray | Black

  function Color(colors: map<int, NodeColor>, n: int): NodeColor {
    if n in colors then colors[n] else White
  }

  /** A node is reached from another over one or more edges. */
  ghost predicate Reaches(g: Graph, a: int, b: int) {
    exists w :: Leads(g, w, a, b)
  }

  ghost predicate Leads(g: Graph, w: seq<int>, a: int, b: int) {
    g.IsWalk(w) && |w| >= 2 && w[0] == a && w[|w| - 1] == b
  }

  /** A cycle lies in what is reachable from `root`, itself included. */
  ghost predicate CycleReachable(g: Graph, root: int) {
    exists n :: OnCycle(g, root, n)
  }

  ghost predicate OnCycle(g: Graph, root: int, n: int) {
    (n == root || Reaches(g, root, n)) && Reaches(g, n, n)
  }

  // ---- Walks ----

  lemma WalkSnoc(g: Graph, w: seq<int>, c: int)
    requires g.IsWalk(w) && g.Edge(w[|w| - 1], c)
    ensures g.IsWalk(w + [c])
  {
    var v := w + [c];
    forall i | 0 <= i < |v| - 1 ensures g.Edge(v[i], v[i + 1]) {
      if i < |w| - 1 {
        assert g.Edge(w[i], w[i + 1]);
      }
    }
  }

  lemma ReachStep(g: Graph, root: int, n: int, c: int)
    requires (n == root || Reaches(g, root, n)) && g.Edge(n, c)
    ensures Reaches(g, root, c)
  {
    if n == root {
      var w := [n];
      WalkSnoc(g, w, c);
      assert Leads(g, w + [c], root, c);
    } else {
      var w: seq<int> :| Leads(g, w, root, n);
      WalkSnoc(g, w, c);
      assert Leads(g, w + [c], root, c);
    }
  }

  // ---- The stack ----

  /** The nodes whose visit is in progress, oldest first. */
  ghost function InProgress(s: seq<Visit>): seq<int> {
    if s == [] then []
    else if s[|s| - 1].status == VisitComplete then InProgress(s[..|s| - 1]) + [s[|s| - 1].node]
    else InProgress(s[..|s| - 1])
  }

  /** Entry `i` of the stack is a child of the innermost visit in progress below it. */
  ghost predicate Hangs(g: Graph, root: int, s: seq<Visit>, i: nat)
    requires i < |s|
  {
    if i == 0 then s[0].node == root
    else InProgress(s[..i]) != [] && g.Edge(InProgress(s[..i])[|InProgress(s[..i])| - 1], s[i].node)
  }

  ghost predicate Chained(g: Graph, root: int, s: seq<Visit>) {
    forall i | 0 <= i < |s| :: Hangs(g, root, s, i)
  }

  lemma InProgressSnoc(s: seq<Visit>, v: Visit)
    ensures InProgress(s + [v]) == if v.status == VisitComplete then InProgress(s) + [v.node] else InProgress(s)
  {
    assert (s + [v])[..|s|] == s;
  }

  ghost predicate Completes(s: seq<Visit>, i: nat, n: int)
    requires i < |s|
  {
    s[i] == Visit(VisitComplete, n)
  }

  ghost predicate OnStack(s: seq<Visit>, n: int) {
    exists i :: 0 <= i < |s| && s[i].node == n
  }

  lemma {:induction false} InProgressIff(s: seq<Visit>, n: int)
    ensures n in InProgress(s) <==> exists i :: 0 <= i < |s| && Completes(s, i, n)
  {
    if s != [] {
      var init, last := s[..|s| - 1], s[|s| - 1];
      assert s == init + [last];
      InProgressIff(init, n);
      InProgressSnoc(init, last);
      forall i | 0 <= i < |init| ensures Completes(s, i, n) <==> Completes(init, i, n) {
      }
      assert Completes(s, |init|, n) <==> last == Visit(VisitComplete, n);
    }
  }

  /** The visits in progress form a walk from the root to the innermost one. */
  lemma {:induction false} InProgressIsWalk(g: Graph, root: int, s: seq<Visit>)
    requires Chained(g, root, s)
    ensures InProgress(s) != [] ==> g.IsWalk(InProgress(s)) && InProgress(s)[0] == root
  {
    if s != [] {
      var init, last := s[..|s| - 1], s[|s| - 1];
      ChainedPop(g, root, s);
      InProgressIsWalk(g, root, init);
      assert Hangs(g, root, s, |init|);
      if last.status == VisitComplete && init != [] {
        WalkSnoc(g, InProgress(init), last.node);
      }
    }
  }

  lemma ChainedPop(g: Graph, root: int, s: seq<Visit>)
    requires s != [] && Chained(g, root, s)
    ensures Chained(g, root, s[..|s| - 1])
  {
    var init := s[..|s| - 1];
    forall i | 0 <= i < |init| ensures Hangs(g, root, init, i) {
      assert Hangs(g, root, s, i);
      assert init[..i] == s[..i];
    }
  }

  lemma ChainedPush(g: Graph, root: int, s: seq<Visit>, v: Visit)
    requires Chained(g, root, s) && Hangs(g, root, s + [v], |s|)
    ensures Chained(g, root, s + [v])
  {
    var t := s + [v];
    forall i | 0 <= i < |t| ensures Hangs(g, root, t, i) {
      if i < |s| {
        assert Hangs(g, root, s, i);
        assert t[..i] == s[..i];
      }
    }
  }

  // ---- Finished nodes ----

  ghost predicate ChildrenEarlier(g: Graph, order: seq<int>, k: nat)
    requires k < |order|
  {
    forall c | g.Edge(order[k], c) :: c in order[..k]
  }

  /** Each node finished after all its children had. */
  ghost predicate FinishedAfterChildren(g: Graph, order: seq<int>) {
    forall k | 0 <= k < |order| :: ChildrenEarlier(g, order, k)
  }

  lemma {:induction false} WalkDown(g: Graph, order: seq<int>, w: seq<int>, k: nat) returns (m: nat)
    requires FinishedAfterChildren(g, order) && g.IsWalk(w) && |w| >= 2 && k < |order| && order[k] == w[0]
    ensures m < k && order[m] == w[|w| - 1]
    decreases |w|
  {
    assert g.Edge(w[0], w[1]) && ChildrenEarlier(g, order, k);
    m :| 0 <= m < k && order[m] == w[1];
    if |w| > 2 {
      forall i | 0 <= i < |w| - 2 ensures g.Edge(w[1..][i], w[1..][i + 1]) {
        assert g.Edge(w[i + 1], w[i + 1 + 1]);
      }
      m := WalkDown(g, order, w[1..], m);
    }
  }

  /** No cycle passes through a finished node. */
  lemma {:induction false} FinishedOffCycles(g: Graph, order: seq<int>, k: nat)
    requires FinishedAfterChildren(g, order) && k < |order|
    ensures !Reaches(g, order[k], order[k])
    decreases k
  {
    if Reaches(g, order[k], order[k]) {
      var w: seq<int> :| Leads(g, w, order[k], order[k]);
      var m := WalkDown(g, order, w, k);
      FinishedOffCycles(g, order, m);
    }
  }

  // ---- What holds throughout the search ----

  /** The state of the search, with the nodes finished so far in the order in which they first finished. */
  datatype Search = Search(stack: seq<Visit>, colors: map<int, NodeColor>, deps: set<int>, order: seq<int>)

  /** The children of `n` that have been looked at; of the node `cur` being expanded these are only `part`. */
  ghost function Seen(g: Graph, cur: int, part: seq<int>, n: int): seq<int> {
    if n == cur then part else g.Children(n)
  }

  ghost predicate SeenChild(g: Graph, cur: int, part: seq<int>, n: int, c: int) {
    c in Seen(g, cur, part, n)
  }

  /** Nothing above a visit in progress is the same node. */
  ghost predicate Apart(s: seq<Visit>, i: nat, j: nat)
    requires i < j < |s|
  {
    s[i].status == VisitComplete ==> s[i].node != s[j].node
  }

  /** A finished node is in progress again only momentarily. */
  ghost predicate AgainOnTop(s: seq<Visit>, order: seq<int>, i: nat)
    requires i < |s|
  {
    s[i].status == VisitComplete && s[i].node in order ==> i == |s| - 1
  }

  ghost predicate Above(s: seq<Visit>, i: nat, c: int) {
    exists j :: i < j < |s| && s[j].node == c
  }

  /** The children of a visit in progress are finished or are being taken care of above it. */
  ghost predicate Covered(g: Graph, s: seq<Visit>, order: seq<int>, cur: int, part: seq<int>, i: nat)
    requires i < |s|
  {
    s[i].status == VisitComplete && s[i].node !in order ==>
      forall c | SeenChild(g, cur, part, s[i].node, c) :: c in order || Above(s, i, c)
  }

  ghost predicate StackOk(g: Graph, root: int, s: seq<Visit>, order: seq<int>, cur: int, part: seq<int>) {
    && Chained(g, root, s)
    && (forall i, j | 0 <= i < j < |s| :: Apart(s, i, j))
    && (forall i | 0 <= i < |s| :: AgainOnTop(s, order, i))
    && (forall i | 0 <= i < |s| :: Covered(g, s, order, cur, part, i))
    && FinishedAfterChildren(g, order)
    && (s == [] <==> root in order)
  }

  ghost predicate ColorOk(x: Search, n: int) {
    && (Color(x.colors, n) == Gray <==> n in InProgress(x.stack))
    && (Color(x.colors, n) == Black ==> n in x.order)
    && (n in x.order ==> Color(x.colors, n) != White)
  }

  ghost predicate DepOk(g: Graph, root: int, x: Search, n: int) {
    && (n in x.deps ==> Reaches(g, root, n) && (Color(x.colors, n) != White || OnStack(x.stack, n)))
    && (Color(x.colors, n) != White || OnStack(x.stack, n) ==> n == root || n in x.deps)
  }

  ghost predicate ChildOk(g: Graph, x: Search, cur: int, part: seq<int>, n: int, c: int) {
    Color(x.colors, n) != White && SeenChild(g, cur, part, n, c) ==> c in x.deps
  }

  ghost predicate Inv(g: Graph, root: int, x: Search, cur: int, part: seq<int>) {
    && StackOk(g, root, x.stack, x.order, cur, part)
    && (forall n :: ColorOk(x, n))
    && (forall n :: DepOk(g, root, x, n))
    && (forall n, c :: ChildOk(g, x, cur, part, n, c))
  }

  lemma InitialInv(g: Graph, root: int, x: Search)
    requires x == Search([Visit(VisitStarted, root)], map[], {}, [])
    ensures Inv(g, root, x, root, g.Children(root))
  {
    assert InProgress(x.stack) == InProgress([]) by {
      assert x.stack[..0] == [];
    }
  }

  // ---- A visit completes ----

  lemma CompleteStack(g: Graph, root: int, s: seq<Visit>, order: seq<int>, cur: int)
    requires s != [] && s[|s| - 1].status == VisitComplete
    requires StackOk(g, root, s, order, cur, g.Children(cur))
    ensures StackOk(g, root, s[..|s| - 1], Finish(order, s[|s| - 1].node), cur, g.Children(cur))
  {
    var t, n, part := s[..|s| - 1], s[|s| - 1].node, g.Children(cur);
    var done := Finish(order, n);
    ChainedPop(g, root, s);
    forall i, j | 0 <= i < j < |t| ensures Apart(t, i, j) {
      assert Apart(s, i, j);
    }
    forall i | 0 <= i < |t| ensures AgainOnTop(t, done, i) {
      assert Apart(s, i, |t|) && AgainOnTop(s, order, i);
    }
    forall i | 0 <= i < |t| ensures Covered(g, t, done, cur, part, i) {
      assert Covered(g, s, order, cur, part, i);
      forall c | t[i].status == VisitComplete && t[i].node !in done && SeenChild(g, cur, part, t[i].node, c)
        ensures c in done || Above(t, i, c)
      {
        if c !in order {
          assert Above(s, i, c);
          var j :| i < j < |s| && s[j].node == c;
          assert j < |t| ==> t[j].node == c;
        }
      }
    }
    CompleteOrder(g, s, order, cur);
    CompleteRoot(g, root, s, order, cur);
  }

  ghost function Finish(order: seq<int>, n: int): seq<int> {
    if n in order then order else order + [n]
  }

  lemma CompleteOrder(g: Graph, s: seq<Visit>, order: seq<int>, cur: int)
    requires s != [] && s[|s| - 1].status == VisitComplete && FinishedAfterChildren(g, order)
    requires Covered(g, s, order, cur, g.Children(cur), |s| - 1)
    ensures FinishedAfterChildren(g, Finish(order, s[|s| - 1].node))
  {
    var n := s[|s| - 1].node;
    var done := Finish(order, n);
    forall k | 0 <= k < |done| ensures ChildrenEarlier(g, done, k) {
      if k < |order| {
        assert ChildrenEarlier(g, order, k);
        assert done[..k] == order[..k];
      } else {
        assert done[..k] == order;
        forall c | g.Edge(n, c) ensures c in order {
          assert SeenChild(g, cur, g.Children(cur), n, c);
          assert !Above(s, |s| - 1, c);
        }
      }
    }
  }

  lemma CompleteRoot(g: Graph, root: int, s: seq<Visit>, order: seq<int>, cur: int)
    requires s != [] && s[|s| - 1].status == VisitComplete
    requires StackOk(g, root, s, order, cur, g.Children(cur))
    ensures s[..|s| - 1] == [] <==> root in Finish(order, s[|s| - 1].node)
  {
    assert Hangs(g, root, s, 0);
    if |s| > 1 {
      BottomInProgress(g, root, s);
      assert Apart(s, 0, |s| - 1);
    }
  }

  /** The root stays in progress under everything else. */
  lemma BottomInProgress(g: Graph, root: int, s: seq<Visit>)
    requires |s| > 1 && Chained(g, root, s)
    ensures s[0] == Visit(VisitComplete, root)
  {
    assert Hangs(g, root, s, 0) && Hangs(g, root, s, 1);
    InProgressSnoc([], s[0]);
    assert [] + [s[0]] == s[..1];
  }

  lemma CompleteColors(g: Graph, root: int, x: Search, y: Search, cur: int, n: int)
    requires x.stack != [] && x.stack[|x.stack| - 1] == Visit(VisitComplete, n)
    requires Inv(g, root, x, cur, g.Children(cur))
    requires y == Search(x.stack[..|x.stack| - 1], x.colors[n := Black], x.deps, Finish(x.order, n))
    ensures Inv(g, root, y, cur, g.Children(cur))
  {
    var top := |x.stack| - 1;
    assert x.stack == y.stack + [x.stack[top]];
    InProgressSnoc(y.stack, x.stack[top]);
    CompleteStack(g, root, x.stack, x.order, cur);
    forall m ensures ColorOk(y, m) && DepOk(g, root, y, m) {
      assert ColorOk(x, m) && DepOk(g, root, x, m);
      if m == n {
        InProgressIff(y.stack, n);
        forall i | 0 <= i < |y.stack| ensures !Completes(y.stack, i, n) {
          assert Apart(x.stack, i, top);
        }
      }
      StackPop(x.stack, m);
    }
    forall m, c ensures ChildOk(g, y, cur, g.Children(cur), m, c) {
      assert ChildOk(g, x, cur, g.Children(cur), m, c);
      assert ColorOk(x, m);
    }
  }

  lemma StackPop(s: seq<Visit>, m: int)
    requires s != []
    ensures OnStack(s, m) <==> OnStack(s[..|s| - 1], m) || s[|s| - 1].node == m
  {
    var t := s[..|s| - 1];
    if OnStack(s, m) && s[|s| - 1].node != m {
      var i :| 0 <= i < |s| && s[i].node == m;
      assert t[i].node == m;
    }
    if OnStack(t, m) {
      var i :| 0 <= i < |t| && t[i].node == m;
      assert s[i].node == m;
    }
  }

  // ---- A visit starts ----

  lemma StartStack(g: Graph, root: int, s: seq<Visit>, order: seq<int>, cur: int, n: int)
    requires s != [] && s[|s| - 1] == Visit(VisitStarted, n)
    requires StackOk(g, root, s, order, cur, g.Children(cur))
    ensures StackOk(g, root, s[..|s| - 1] + [Visit(VisitComplete, n)], order, n, [])
  {
    var init, top := s[..|s| - 1], |s| - 1;
    var t := init + [Visit(VisitComplete, n)];
    ChainedPop(g, root, s);
    assert Hangs(g, root, s, top);
    assert t[..top] == init;
    ChainedPush(g, root, init, Visit(VisitComplete, n));
    forall i, j | 0 <= i < j < |t| ensures Apart(t, i, j) {
      assert Apart(s, i, j);
    }
    forall i | 0 <= i < |t| ensures AgainOnTop(t, order, i) && Covered(g, t, order, n, [], i) {
      assert AgainOnTop(s, order, i) && Covered(g, s, order, cur, g.Children(cur), i);
      if i < top {
        assert Apart(s, i, top);
        forall c | t[i].status == VisitComplete && t[i].node !in order && SeenChild(g, n, [], t[i].node, c)
          ensures c in order || Above(t, i, c)
        {
          assert SeenChild(g, cur, g.Children(cur), s[i].node, c);
          SameNodes(s, t, i, c);
        }
      }
    }
  }

  lemma SameNodes(s: seq<Visit>, t: seq<Visit>, i: nat, c: int)
    requires |s| == |t| && forall j | 0 <= j < |s| :: s[j].node == t[j].node
    ensures Above(s, i, c) ==> Above(t, i, c)
    ensures OnStack(s, c) <==> OnStack(t, c)
  {
    if Above(s, i, c) {
      var j :| i < j < |s| && s[j].node == c;
      assert t[j].node == c;
    }
    if OnStack(s, c) {
      var j :| 0 <= j < |s| && s[j].node == c;
      assert t[j].node == c;
    }
    if OnStack(t, c) {
      var j :| 0 <= j < |t| && t[j].node == c;
      assert s[j].node == c;
    }
  }

  lemma StartColors(g: Graph, root: int, x: Search, y: Search, n: int, m: int)
    requires x.stack != [] && x.stack[|x.stack| - 1] == Visit(VisitStarted, n)
    requires y == Search(x.stack[..|x.stack| - 1] + [Visit(VisitComplete, n)], x.colors[n := Gray], x.deps, x.order)
    requires InProgress(y.stack) == InProgress(x.stack) + [n]
    requires ColorOk(x, m) && DepOk(g, root, x, m)
    ensures ColorOk(y, m) && DepOk(g, root, y, m)
  {
    SameNodes(x.stack, y.stack, 0, m);
    StackPop(x.stack, m);
  }

  lemma StartVisit(g: Graph, root: int, x: Search, y: Search, cur: int, n: int)
    requires x.stack != [] && x.stack[|x.stack| - 1] == Visit(VisitStarted, n)
    requires Inv(g, root, x, cur, g.Children(cur))
    requires y == Search(x.stack[..|x.stack| - 1] + [Visit(VisitComplete, n)], x.colors[n := Gray], x.deps, x.order)
    ensures Inv(g, root, y, n, [])
  {
    var init := x.stack[..|x.stack| - 1];
    StartStack(g, root, x.stack, x.order, cur, n);
    assert x.stack == init + [Visit(VisitStarted, n)];
    InProgressSnoc(init, Visit(VisitStarted, n));
    InProgressSnoc(init, Visit(VisitComplete, n));
    forall m ensures ColorOk(y, m) && DepOk(g, root, y, m) {
      StartColors(g, root, x, y, n, m);
    }
    forall m, c ensures ChildOk(g, y, n, [], m, c) {
      assert ChildOk(g, x, cur, g.Children(cur), m, c);
    }
  }

  // ---- A child is looked at ----

  /** The innermost visit in progress is that of `n`. */
  ghost predicate Expands(s: seq<Visit>, n: int) {
    InProgress(s) != [] && InProgress(s)[|InProgress(s)| - 1] == n
  }

  lemma AboveGrows(s: seq<Visit>, v: Visit, i: nat, c: int)
    ensures Above(s, i, c) ==> Above(s + [v], i, c)
    ensures i < |s| && v.node == c ==> Above(s + [v], i, c)
  {
    var t := s + [v];
    if Above(s, i, c) {
      var j :| i < j < |s| && s[j].node == c;
      assert t[j].node == c;
    }
    assert t[|s|] == v;
  }

  lemma NoneAgain(s: seq<Visit>, order: seq<int>, n: int, i: nat)
    requires i < |s| && Expands(s, n) && n !in order && AgainOnTop(s, order, i)
    ensures s[i].status == VisitComplete ==> s[i].node !in order
  {
    if s[|s| - 1].status == VisitComplete {
      assert InProgress(s)[|InProgress(s)| - 1] == s[|s| - 1].node;
    }
  }

  lemma PushCovered(g: Graph, s: seq<Visit>, order: seq<int>, n: int, part: seq<int>, c: int, i: nat)
    requires i < |s| && Covered(g, s, order, n, part, i)
    ensures Covered(g, s + [Visit(VisitStarted, c)], order, n, part + [c], i)
  {
    var v := Visit(VisitStarted, c);
    var t := s + [v];
    forall d | t[i].status == VisitComplete && t[i].node !in order && SeenChild(g, n, part + [c], t[i].node, d)
      ensures d in order || Above(t, i, d)
    {
      assert SeenChild(g, n, part, s[i].node, d) || d == c;
      AboveGrows(s, v, i, d);
    }
  }

  lemma PushApart(s: seq<Visit>, c: int)
    requires c !in InProgress(s) && forall i, j | 0 <= i < j < |s| :: Apart(s, i, j)
    ensures var t := s + [Visit(VisitStarted, c)]; forall i, j | 0 <= i < j < |t| :: Apart(t, i, j)
  {
    var t := s + [Visit(VisitStarted, c)];
    InProgressIff(s, c);
    forall i, j | 0 <= i < j < |t| ensures Apart(t, i, j) {
      if j < |s| {
        assert Apart(s, i, j);
      } else {
        assert !Completes(s, i, c);
      }
    }
  }

  lemma PushStack(g: Graph, root: int, s: seq<Visit>, order: seq<int>, n: int, part: seq<int>, c: int)
    requires StackOk(g, root, s, order, n, part) && Expands(s, n) && n !in order && g.Edge(n, c) && c !in InProgress(s)
    ensures StackOk(g, root, s + [Visit(VisitStarted, c)], order, n, part + [c])
  {
    var v := Visit(VisitStarted, c);
    var t := s + [v];
    assert t[..|s|] == s;
    ChainedPush(g, root, s, v);
    PushApart(s, c);
    forall i | 0 <= i < |t| ensures AgainOnTop(t, order, i) && Covered(g, t, order, n, part + [c], i) {
      if i < |s| {
        assert AgainOnTop(s, order, i) && Covered(g, s, order, n, part, i);
        NoneAgain(s, order, n, i);
        PushCovered(g, s, order, n, part, c, i);
      }
    }
  }

  lemma PushChild(g: Graph, root: int, x: Search, y: Search, n: int, part: seq<int>, c: int)
    requires Inv(g, root, x, n, part) && Expands(x.stack, n) && g.Edge(n, c) && Color(x.colors, c) == White &&
             n !in x.order
    requires y == Search(x.stack + [Visit(VisitStarted, c)], x.colors, x.deps + {c}, x.order)
    ensures Inv(g, root, y, n, part + [c]) && Expands(y.stack, n)
  {
    var v := Visit(VisitStarted, c);
    assert ColorOk(x, c) && ColorOk(x, n) && DepOk(g, root, x, n);
    assert n in InProgress(x.stack);
    PushStack(g, root, x.stack, x.order, n, part, c);
    InProgressSnoc(x.stack, v);
    ReachStep(g, root, n, c);
    assert y.stack[..|y.stack| - 1] == x.stack;
    forall m ensures ColorOk(y, m) && DepOk(g, root, y, m) {
      assert ColorOk(x, m) && DepOk(g, root, x, m);
      StackPop(y.stack, m);
    }
    forall m, d ensures ChildOk(g, y, n, part + [c], m, d) {
      assert ChildOk(g, x, n, part, m, d);
      assert SeenChild(g, n, part + [c], m, d) ==> SeenChild(g, n, part, m, d) || d == c;
    }
  }

  lemma SkipChild(g: Graph, root: int, x: Search, n: int, part: seq<int>, c: int)
    requires Inv(g, root, x, n, part) && Expands(x.stack, n) && Color(x.colors, c) == Black
    ensures Inv(g, root, x, n, part + [c])
  {
    assert ColorOk(x, c) && DepOk(g, root, x, c);
    assert x.stack != [];
    forall i | 0 <= i < |x.stack| ensures Covered(g, x.stack, x.order, n, part + [c], i) {
      assert Covered(g, x.stack, x.order, n, part, i);
      forall d | x.stack[i].status == VisitComplete && x.stack[i].node !in x.order &&
        SeenChild(g, n, part + [c], x.stack[i].node, d)
        ensures d in x.order || Above(x.stack, i, d)
      {
        assert SeenChild(g, n, part, x.stack[i].node, d) || d == c;
      }
    }
    forall m, d ensures ChildOk(g, x, n, part + [c], m, d) {
      assert ChildOk(g, x, n, part, m, d);
      assert SeenChild(g, n, part + [c], m, d) ==> SeenChild(g, n, part, m, d) || d == c;
    }
  }

  /** A child that is in progress closes a cycle. */
  lemma CycleFound(g: Graph, root: int, x: Search, n: int, part: seq<int>, c: int)
    requires Inv(g, root, x, n, part) && Expands(x.stack, n) && g.Edge(n, c) && Color(x.colors, c) == Gray
    ensures CycleReachable(g, root)
  {
    assert ColorOk(x, c);
    InProgressIsWalk(g, root, x.stack);
    var w := InProgress(x.stack);
    var i :| 0 <= i < |w| && w[i] == c;
    SubWalk(g, w, i, |w|);
    WalkSnoc(g, w[i..], c);
    assert Leads(g, w[i..] + [c], c, c);
    if i > 0 {
      SubWalk(g, w, 0, i + 1);
      assert Leads(g, w[0..i + 1], root, c);
    }
    assert OnCycle(g, root, c);
  }

  lemma SubWalk(g: Graph, w: seq<int>, a: nat, b: nat)
    requires g.IsWalk(w) && a < b <= |w|
    ensures g.IsWalk(w[a..b])
  {
    var v := w[a..b];
    forall i | 0 <= i < |v| - 1 ensures g.Edge(v[i], v[i + 1]) {
      assert g.Edge(w[a + i], w[a + i + 1]);
    }
  }

  // ---- The search ends ----

  ghost predicate Done(g: Graph, root: int, x: Search, cur: int) {
    x.stack == [] && Inv(g, root, x, cur, g.Children(cur))
  }

  /** Every node on a walk from a coloured node is coloured. */
  lemma {:induction false} WalkColored(g: Graph, root: int, x: Search, cur: int, w: seq<int>)
    requires Done(g, root, x, cur) && g.IsWalk(w) && |w| >= 2 && Color(x.colors, w[0]) != White
    ensures w[|w| - 1] in x.deps && Color(x.colors, w[|w| - 1]) != White
  {
    var n, c := w[|w| - 2], w[|w| - 1];
    if |w| > 2 {
      SubWalk(g, w, 0, |w| - 1);
      WalkColored(g, root, x, cur, w[0..|w| - 1]);
    }
    assert g.Edge(w[|w| - 2], w[|w| - 2 + 1]);
    assert SeenChild(g, cur, g.Children(cur), n, c);
    assert ChildOk(g, x, cur, g.Children(cur), n, c);
    assert DepOk(g, root, x, c);
  }

  lemma ReachedColored(g: Graph, root: int, x: Search, cur: int, n: int)
    requires Done(g, root, x, cur) && Reaches(g, root, n)
    ensures n in x.deps && Color(x.colors, n) != White
  {
    var w: seq<int> :| Leads(g, w, root, n);
    assert ColorOk(x, root);
    WalkColored(g, root, x, cur, w);
  }

  lemma SearchComplete(g: Graph, root: int, x: Search, cur: int)
    requires Done(g, root, x, cur)
    ensures forall n :: n in x.deps <==> Reaches(g, root, n)
    ensures !CycleReachable(g, root)
  {
    forall n ensures n in x.deps <==> Reaches(g, root, n) {
      assert DepOk(g, root, x, n);
      if Reaches(g, root, n) {
        ReachedColored(g, root, x, cur, n);
      }
    }
    forall n ensures !OnCycle(g, root, n) {
      if n == root || Reaches(g, root, n) {
        assert ColorOk(x, root) && ColorOk(x, n);
        if n != root {
          ReachedColored(g, root, x, cur, n);
        }
        var k :| 0 <= k < |x.order| && x.order[k] == n;
        FinishedOffCycles(g, x.order, k);
      }
    }
  }

  // ---- The search ----

  ghost function Unvisited(g: Graph, root: int, colors: map<int, NodeColor>): set<int> {
    set n | n in g.nodes + {root} && Color(colors, n) == White
  }

  ghost function StartedCount(s: seq<Visit>): nat {
    if s == [] then 0 else StartedCount(s[..|s| - 1]) + if s[|s| - 1].status == VisitStarted then 1 else 0
  }

  lemma TopNode(g: Graph, root: int, x: Search, cur: int)
    requires g.Closed() && x.stack != [] && Inv(g, root, x, cur, g.Children(cur))
    ensures x.stack[|x.stack| - 1].node in g.nodes + {root}
  {
    assert Hangs(g, root, x.stack, |x.stack| - 1);
  }

  lemma CompleteMeasure(g: Graph, root: int, x: Search, n: int)
    requires x.stack != [] && x.stack[|x.stack| - 1] == Visit(VisitComplete, n) && ColorOk(x, n)
    ensures Unvisited(g, root, x.colors[n := Black]) == Unvisited(g, root, x.colors)
    ensures StartedCount(x.stack[..|x.stack| - 1]) == StartedCount(x.stack)
  {
    InProgressIff(x.stack, n);
    assert Completes(x.stack, |x.stack| - 1, n);
  }

  /** Starting a visit leaves fewer nodes unvisited, or the node was finished already. */
  lemma StartMeasure(g: Graph, root: int, x: Search, cur: int, n: int)
    requires g.Closed() && x.stack != [] && x.stack[|x.stack| - 1] == Visit(VisitStarted, n)
    requires Inv(g, root, x, cur, g.Children(cur))
    ensures if n in x.order then Unvisited(g, root, x.colors[n := Gray]) == Unvisited(g, root, x.colors)
            else Unvisited(g, root, x.colors[n := Gray]) < Unvisited(g, root, x.colors)
    ensures StartedCount(x.stack[..|x.stack| - 1] + [Visit(VisitComplete, n)]) == StartedCount(x.stack) - 1
  {
    var top, init := |x.stack| - 1, x.stack[..|x.stack| - 1];
    assert (init + [Visit(VisitComplete, n)])[..top] == init;
    assert ColorOk(x, n);
    InProgressIff(x.stack, n);
    forall i | 0 <= i < |x.stack| ensures !Completes(x.stack, i, n) {
      if i < top {
        assert Apart(x.stack, i, top);
      }
    }
    TopNode(g, root, x, cur);
    if n !in x.order {
      assert n in Unvisited(g, root, x.colors);
    }
  }

  /** A finished node that is visited again has no unvisited child. */
  lemma NothingLeft(g: Graph, root: int, x: Search, n: int, part: seq<int>, c: int)
    requires Inv(g, root, x, n, part) && n in x.order && g.Edge(n, c)
    ensures Color(x.colors, c) != White
  {
    var k :| 0 <= k < |x.order| && x.order[k] == n;
    assert ChildrenEarlier(g, x.order, k);
    assert ColorOk(x, c);
  }

  /** Look at the children of `n`; `ok` is false when one of them is in progress. */
  method Expand(g: Graph, n: int, stack: seq<Visit>, colors: map<int, NodeColor>, depList: set<int>, ghost root: int,
                ghost order: seq<int>)
    returns (ok: bool, stack': seq<Visit>, depList': set<int>)
    requires Inv(g, root, Search(stack, colors, depList, order), n, []) && Expands(stack, n)
    ensures !ok ==> CycleReachable(g, root)
    ensures ok ==> Inv(g, root, Search(stack', colors, depList', order), n, g.Children(n))
    ensures ok && n in order ==> stack' == stack
  {
    ok, stack', depList' := true, stack, depList;
    var deps := g.Children(n);
    for j := 0 to |deps|
      invariant Inv(g, root, Search(stack', colors, depList', order), n, deps[..j]) && Expands(stack', n)
      invariant n in order ==> stack' == stack
    {
      var dep := deps[j];
      ghost var x := Search(stack', colors, depList', order);
      assert g.Edge(n, dep);
      assert deps[..j + 1] == deps[..j] + [dep];
      if Color(colors, dep) == Gray {
        CycleFound(g, root, x, n, deps[..j], dep);
        ok := false;
        return;
      }
      if Color(colors, dep) == White {
        if n in order {
          NothingLeft(g, root, x, n, deps[..j], dep);
        }
        stack' := stack' + [Visit(VisitStarted, dep)];
        depList' := depList' + {dep};
        PushChild(g, root, x, Search(stack', colors, depList', order), n, deps[..j], dep);
      } else {
        SkipChild(g, root, x, n, deps[..j], dep);
      }
    }
    assert deps[..|deps|] == deps;
  }

  /** The nodes that `root` depends on, or a failed check if a cycle is found. */
  method TransitiveDepsFrom(g: Graph, root: int) returns (r: Option<set<int>>)
    requires g.Closed()
    ensures r.None? <==> CycleReachable(g, root)
    ensures r.Some? ==> forall n :: n in r.value <==> Reaches(g, root, n)
  {
    var stack := [Visit(VisitStarted, root)];
    var depList: set<int> := {};
    var colors: map<int, NodeColor> := map[];
    ghost var order: seq<int> := [];
    ghost var cur := root;
    InitialInv(g, root, Search(stack, colors, depList, order));
    while stack != []
      invariant Inv(g, root, Search(stack, colors, depList, order), cur, g.Children(cur))
      decreases Unvisited(g, root, colors), StartedCount(stack), |stack|
    {
      ghost var x := Search(stack, colors, depList, order);
      var top := stack[|stack| - 1];
      var rest := stack[..|stack| - 1];
      var n := top.node;
      assert ColorOk(x, n);
      if top.status == VisitComplete {
        assert top == Visit(VisitComplete, n);
        CompleteMeasure(g, root, x, n);
        stack, colors, order := rest, colors[n := Black], Finish(order, n);
        CompleteColors(g, root, x, Search(stack, colors, depList, order), cur, n);
      } else {
        assert top == Visit(VisitStarted, n);
        StartMeasure(g, root, x, cur, n);
        ghost var was := cur;
        stack, colors, cur := rest + [Visit(VisitComplete, n)], colors[n := Gray], n;
        StartVisit(g, root, x, Search(stack, colors, depList, order), was, n);
        InProgressSnoc(rest, Visit(VisitComplete, n));
        var ok;
        ok, stack, depList := Expand(g, n, stack, colors, depList, root, order);
        if !ok {
          return None;
        }
      }
    }
    SearchComplete(g, root, Search(stack, colors, depList, order), cur);
    return Some(depList);
  }
}
