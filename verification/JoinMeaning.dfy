/**
 What a join means, on the left and the right table and by the name of the join type: as a multiset, the pairs of rows
 that agree on all conditions, and the rows without a partner that the type keeps.
 */
module JoinMeaning {
  import opened Basics
  import opened RowBatches
  import opened JoinSpec

  // ---- Sums over the rows of a table ----

  ghost function Sum(rows: seq<Row>, f: Row -> multiset<Row>): multiset<Row> {
    if rows == [] then multiset{} else Sum(rows[..|rows| - 1], f) + f(rows[|rows| - 1])
  }

  lemma {:induction false} SumSame(rows: seq<Row>, f: Row -> multiset<Row>, g: Row -> multiset<Row>)
    requires forall r | r in rows :: f(r) == g(r)
    ensures Sum(rows, f) == Sum(rows, g)
  {
    if rows != [] {
      SumSame(rows[..|rows| - 1], f, g);
    }
  }

  lemma {:induction false} SumNothing(rows: seq<Row>)
    ensures Sum(rows, r => multiset{}) == multiset{}
  {
    if rows != [] {
      SumNothing(rows[..|rows| - 1]);
    }
  }

  lemma {:induction false} SumPlus(rows: seq<Row>, f: Row -> multiset<Row>, g: Row -> multiset<Row>)
    ensures Sum(rows, r => f(r) + g(r)) == Sum(rows, f) + Sum(rows, g)
  {
    if rows != [] {
      SumPlus(rows[..|rows| - 1], f, g);
    }
  }

  lemma {:induction false} SumAppend(a: seq<Row>, b: seq<Row>, f: Row -> multiset<Row>)
    ensures Sum(a + b, f) == Sum(a, f) + Sum(b, f)
  {
    if b == [] {
      assert a + b == a;
    } else {
      assert (a + b)[..|a + b| - 1] == a + b[..|b| - 1];
      SumAppend(a, b[..|b| - 1], f);
    }
  }

  lemma Occurs(s: seq<Row>, x: Row) returns (i: nat)
    requires x in multiset(s)
    ensures i < |s| && s[i] == x
  {
    i :| 0 <= i < |s| && s[i] == x;
  }

  lemma WithoutOne(s: seq<Row>, i: nat)
    requires i < |s|
    ensures multiset(s[..i] + s[i + 1..]) == multiset(s) - multiset{s[i]}
  {
    assert s == s[..i] + [s[i]] + s[i + 1..];
  }

  lemma SumOne(x: Row, f: Row -> multiset<Row>)
    ensures Sum([x], f) == f(x)
  {
  }

  lemma SumAround(a: seq<Row>, x: Row, b: seq<Row>, f: Row -> multiset<Row>)
    ensures Sum(a + ([x] + b), f) == Sum(a + b, f) + f(x)
  {
    SumAppend(a, b, f);
    SumAppend(a, [x] + b, f);
    SumAppend([x], b, f);
    SumOne(x, f);
  }

  lemma SumWithoutOne(s: seq<Row>, i: nat, f: Row -> multiset<Row>)
    requires i < |s|
    ensures Sum(s, f) == Sum(s[..i] + s[i + 1..], f) + f(s[i])
  {
    assert s == s[..i] + ([s[i]] + s[i + 1..]);
    SumAround(s[..i], s[i], s[i + 1..], f);
  }

  lemma {:induction false} SumPermutation(a: seq<Row>, b: seq<Row>, f: Row -> multiset<Row>)
    requires multiset(a) == multiset(b)
    ensures Sum(a, f) == Sum(b, f)
  {
    if a == [] {
      assert |multiset(b)| == 0;
    } else {
      var n := |a| - 1;
      var i := Occurs(b, a[n]) by {
        assert a[n] in multiset(a);
      }
      var rest := b[..i] + b[i + 1..];
      WithoutOne(a, n);
      WithoutOne(b, i);
      SumWithoutOne(b, i, f);
      assert a[..n] + a[n + 1..] == a[..n];
      SumPermutation(a[..n], rest, f);
    }
  }

  lemma {:induction false} SumKept(rows: seq<Row>, keep: Row -> bool, f: Row -> multiset<Row>)
    ensures Sum(Kept(rows, keep), f) == Sum(rows, r => if keep(r) then f(r) else multiset{})
  {
    if rows != [] {
      var init, last := rows[..|rows| - 1], rows[|rows| - 1];
      SumKept(init, keep, f);
      SumAppend(Kept(init, keep), if keep(last) then [last] else [], f);
      assert Sum([last], f) == f(last);
    }
  }

  // ---- The meaning ----

  /** The two rows agree on every condition. */
  ghost predicate Agree(plan: JoinPlan, l: Row, r: Row) {
    forall i | 0 <= i < |plan.conditions| ::
      At(l, plan.conditions[i].leftColumn) == At(r, plan.conditions[i].rightColumn)
  }

  /** The output row of a pair of rows, if they agree. */
  ghost function Pair(plan: JoinPlan, l: Row, r: Row): multiset<Row> {
    if Agree(plan, l, r) then multiset{plan.OutRow(Some(l), Some(r))} else multiset{}
  }

  ghost function PairsOfLeft(plan: JoinPlan, l: Row, rights: seq<Row>): multiset<Row> {
    Sum(rights, r => Pair(plan, l, r))
  }

  /** An output row for every pair of rows that agree. */
  ghost function Matched(plan: JoinPlan, lefts: seq<Row>, rights: seq<Row>): multiset<Row> {
    Sum(lefts, l => PairsOfLeft(plan, l, rights))
  }

  /** An output row for every left row that agrees with no right row. */
  ghost function LonelyLefts(plan: JoinPlan, lefts: seq<Row>, rights: seq<Row>): multiset<Row> {
    Sum(lefts, l =>
      if exists r :: r in rights && Agree(plan, l, r) then multiset{} else multiset{plan.OutRow(Some(l), None)})
  }

  /** An output row for every right row that agrees with no left row. */
  ghost function LonelyRights(plan: JoinPlan, lefts: seq<Row>, rights: seq<Row>): multiset<Row> {
    Sum(rights, r =>
      if exists l :: l in lefts && Agree(plan, l, r) then multiset{} else multiset{plan.OutRow(None, Some(r))})
  }

  /** What a type of join keeps of the pairs and of the rows without a partner. */
  ghost function ByType(joinType: JoinType, pairs: multiset<Row>, lefts: multiset<Row>, rights: multiset<Row>)
    : multiset<Row>
  {
    match joinType
    case INNER => pairs
    case LEFT_OUTER => pairs + lefts
    case FULL_OUTER => pairs + lefts + rights
    case UNKNOWN => multiset{}
  }

  ghost function Meaning(plan: JoinPlan, lefts: seq<Row>, rights: seq<Row>): multiset<Row> {
    ByType(plan.joinType, Matched(plan, lefts, rights), LonelyLefts(plan, lefts, rights),
      LonelyRights(plan, lefts, rights))
  }

  /** Output column `i` of a pair: the named column of the left or the right row, or the default of its type. */
  lemma OutColumn(plan: JoinPlan, l: Option<Row>, r: Option<Row>, i: nat)
    requires plan.Valid() && i < |plan.outputColumns|
    ensures var c, v := plan.outputColumns[i], plan.OutRow(l, r).cols[i];
            && (c.parent == 0 && l.Some? ==> v == At(l.value, c.column))
            && (c.parent == 1 && r.Some? ==> v == At(r.value, c.column))
            && (c.parent == 0 && l.None? ==> v == if plan.leftTypes[c.column] == STRING then Str("") else Fixed(0))
            && (c.parent == 1 && r.None? ==> v == if plan.rightTypes[c.column] == STRING then Str("") else Fixed(0))
  {
  }

  // ---- The nested loop has this meaning ----

  /** The rows agree, given as a row of the ordering table and a row of the other one. */
  ghost predicate Partners(plan: JoinPlan, p: Row, b: Row) {
    if plan.OrderedByLeft() then Agree(plan, p, b) else Agree(plan, b, p)
  }

  lemma KeysAgree(plan: JoinPlan, p: Row, b: Row)
    ensures plan.ProbeKey(p) == plan.BuildKey(b) <==> Partners(plan, p, b)
  {
    var x, y := plan.ProbeKey(p).vals, plan.BuildKey(b).vals;
    if Partners(plan, p, b) {
      forall i | 0 <= i < |x| ensures x[i] == y[i] {
        assert At(if plan.OrderedByLeft() then p else b, plan.conditions[i].leftColumn) ==
               At(if plan.OrderedByLeft() then b else p, plan.conditions[i].rightColumn);
      }
      assert x == y;
    }
    if plan.ProbeKey(p) == plan.BuildKey(b) {
      forall i | 0 <= i < |plan.conditions|
        ensures At(if plan.OrderedByLeft() then p else b, plan.conditions[i].leftColumn) ==
                At(if plan.OrderedByLeft() then b else p, plan.conditions[i].rightColumn)
      {
        assert x[i] == y[i];
      }
    }
  }

  ghost function PairTerm(plan: JoinPlan, p: Row, b: Row): multiset<Row> {
    if Partners(plan, p, b) then multiset{plan.PairRow(Some(p), Some(b))} else multiset{}
  }

  ghost function PairsOfProbe(plan: JoinPlan, p: Row, builds: seq<Row>): multiset<Row> {
    Sum(builds, b => PairTerm(plan, p, b))
  }

  lemma {:induction false} PairsSum(plan: JoinPlan, p: Option<Row>, builds: seq<Row>)
    ensures multiset(plan.Pairs(p, builds)) == Sum(builds, b => multiset{plan.PairRow(p, Some(b))})
  {
    if builds != [] {
      var init, last := builds[..|builds| - 1], builds[|builds| - 1];
      PairsSum(plan, p, init);
      assert plan.Pairs(p, builds) == plan.Pairs(p, init) + [plan.PairRow(p, Some(last))];
    }
  }

  lemma MatchesSum(plan: JoinPlan, p: Row, builds: seq<Row>)
    ensures multiset(plan.Pairs(Some(p), plan.Matches(builds, plan.ProbeKey(p)))) ==
            PairsOfProbe(plan, p, builds)
  {
    var k := plan.ProbeKey(p);
    MatchesAreKept(plan, builds, k);
    PairsSum(plan, Some(p), plan.Matches(builds, k));
    var f := b => multiset{plan.PairRow(Some(p), Some(b))};
    SumKept(builds, b => plan.BuildKey(b) == k, f);
    forall b ensures plan.BuildKey(b) == k <==> Partners(plan, p, b) {
      KeysAgree(plan, p, b);
    }
    SumSame(builds, b => if (b => plan.BuildKey(b) == k)(b) then f(b) else multiset{}, b => PairTerm(plan, p, b));
  }

  ghost predicate HasPartner(plan: JoinPlan, p: Row, builds: seq<Row>) {
    exists b :: b in builds && Partners(plan, p, b)
  }

  lemma {:induction false} NoMatches(plan: JoinPlan, p: Row, builds: seq<Row>)
    ensures plan.Matches(builds, plan.ProbeKey(p)) == [] <==> !HasPartner(plan, p, builds)
  {
    if builds != [] {
      var init, last := builds[..|builds| - 1], builds[|builds| - 1];
      NoMatches(plan, p, init);
      KeysAgree(plan, p, last);
      assert builds == init + [last];
      if HasPartner(plan, p, init) {
        var b :| b in init && Partners(plan, p, b);
        assert b in builds;
      }
      if Partners(plan, p, last) {
        assert last in builds;
      }
    }
  }

  ghost function LonelyProbe(plan: JoinPlan, p: Row, builds: seq<Row>): multiset<Row> {
    if HasPartner(plan, p, builds) then multiset{} else multiset{plan.PairRow(Some(p), None)}
  }

  ghost function LonelyBuild(plan: JoinPlan, probes: seq<Row>, b: Row): multiset<Row> {
    if exists p :: p in probes && Partners(plan, p, b) then multiset{} else multiset{plan.PairRow(None, Some(b))}
  }

  ghost function AllPairs(plan: JoinPlan, probes: seq<Row>, builds: seq<Row>): multiset<Row> {
    Sum(probes, p => PairsOfProbe(plan, p, builds))
  }

  ghost function LonelyProbes(plan: JoinPlan, probes: seq<Row>, builds: seq<Row>): multiset<Row> {
    Sum(probes, p => LonelyProbe(plan, p, builds))
  }

  ghost function LonelyBuilds(plan: JoinPlan, probes: seq<Row>, builds: seq<Row>): multiset<Row> {
    Sum(builds, b => LonelyBuild(plan, probes, b))
  }

  /** What one row of the ordering table contributes. */
  lemma JoinOneSum(plan: JoinPlan, p: Row, builds: seq<Row>)
    ensures multiset(plan.JoinOne(p, builds)) ==
            PairsOfProbe(plan, p, builds) +
            if plan.KeepsUnmatched(plan.OrderedByLeft()) then LonelyProbe(plan, p, builds) else multiset{}
  {
    MatchesSum(plan, p, builds);
    NoMatches(plan, p, builds);
  }

  lemma {:induction false} LoopSum(plan: JoinPlan, probes: seq<Row>, builds: seq<Row>)
    ensures multiset(plan.NestedLoop(probes, builds)) ==
            AllPairs(plan, probes, builds) +
            if plan.KeepsUnmatched(plan.OrderedByLeft()) then LonelyProbes(plan, probes, builds)
            else multiset{}
  {
    if probes != [] {
      LoopSum(plan, probes[..|probes| - 1], builds);
      JoinOneSum(plan, probes[|probes| - 1], builds);
    }
  }

  lemma {:induction false} ProbesPartner(plan: JoinPlan, probes: seq<Row>, b: Row)
    ensures plan.ProbesKey(probes, plan.BuildKey(b)) <==> exists p :: p in probes && Partners(plan, p, b)
  {
    if probes != [] {
      var init, last := probes[..|probes| - 1], probes[|probes| - 1];
      ProbesPartner(plan, init, b);
      KeysAgree(plan, last, b);
      assert probes == init + [last] && last in probes;
      if p :| p in init && Partners(plan, p, b) {
        assert p in probes;
      }
    }
  }

  lemma UnmatchedSum(plan: JoinPlan, ks: seq<Key>, probes: seq<Row>, builds: seq<Row>)
    requires plan.ListsUnmatchedKeys(ks, probes, builds)
    ensures multiset(plan.Unmatched(ks, builds)) == LonelyBuilds(plan, probes, builds)
  {
    var rows, rest := Gather(plan, ks, builds), NeverProbed(plan, probes, builds);
    UnmatchedExactlyOnce(plan, ks, probes, builds);
    PairsSum(plan, None, rows);
    SumPermutation(rows, rest, b => multiset{plan.PairRow(None, Some(b))});
    NeverProbedSum(plan, probes, builds);
  }

  lemma NeverProbedSum(plan: JoinPlan, probes: seq<Row>, builds: seq<Row>)
    ensures Sum(NeverProbed(plan, probes, builds), b => multiset{plan.PairRow(None, Some(b))}) ==
            LonelyBuilds(plan, probes, builds)
  {
    var f := b => multiset{plan.PairRow(None, Some(b))};
    var keep := row => !plan.ProbesKey(probes, plan.BuildKey(row));
    SumKept(builds, keep, f);
    forall b ensures (if keep(b) then f(b) else multiset{}) == LonelyBuild(plan, probes, b) {
      ProbesPartner(plan, probes, b);
    }
    SumSame(builds, b => if keep(b) then f(b) else multiset{}, b => LonelyBuild(plan, probes, b));
  }

  /** The nested loop followed by the partnerless rows of the other table, as a multiset. */
  lemma JoinSum(plan: JoinPlan, out: seq<Row>, probes: seq<Row>, builds: seq<Row>)
    requires plan.IsJoin(out, probes, builds)
    ensures multiset(out) ==
            AllPairs(plan, probes, builds) +
            (if plan.KeepsUnmatched(plan.OrderedByLeft()) then LonelyProbes(plan, probes, builds)
             else multiset{}) +
            (if plan.KeepsUnmatched(!plan.OrderedByLeft()) then LonelyBuilds(plan, probes, builds)
             else multiset{})
  {
    LoopSum(plan, probes, builds);
    if plan.KeepsUnmatched(!plan.OrderedByLeft()) {
      var ks :| plan.IsJoinWith(ks, out, probes, builds);
      UnmatchedSum(plan, ks, probes, builds);
    }
  }

  ghost function PairsOfRight(plan: JoinPlan, lefts: seq<Row>, r: Row): multiset<Row> {
    Sum(lefts, l => Pair(plan, l, r))
  }

  /** The pairs listed by the right table are the pairs listed by the left table. */
  lemma {:induction false} MatchedByRight(plan: JoinPlan, lefts: seq<Row>, rights: seq<Row>)
    ensures Sum(rights, r => PairsOfRight(plan, lefts, r)) == Matched(plan, lefts, rights)
  {
    if lefts == [] {
      SumSame(rights, r => PairsOfRight(plan, lefts, r), r => multiset{});
      SumNothing(rights);
    } else {
      var init, last := lefts[..|lefts| - 1], lefts[|lefts| - 1];
      MatchedByRight(plan, init, rights);
      var f, g := r => PairsOfRight(plan, init, r), r => Pair(plan, last, r);
      SumPlus(rights, f, g);
      SumSame(rights, r => PairsOfRight(plan, lefts, r), r => f(r) + g(r));
    }
  }

  ghost predicate SamePairs(plan: JoinPlan, p: Row, builds: seq<Row>) {
    PairsOfProbe(plan, p, builds) ==
    if plan.OrderedByLeft() then PairsOfLeft(plan, p, builds) else PairsOfRight(plan, builds, p)
  }

  lemma MatchedByProbe(plan: JoinPlan, probes: seq<Row>, builds: seq<Row>)
    ensures AllPairs(plan, probes, builds) ==
            if plan.OrderedByLeft() then Matched(plan, probes, builds) else Matched(plan, builds, probes)
  {
    forall p ensures SamePairs(plan, p, builds) {
      if plan.OrderedByLeft() {
        SumSame(builds, b => PairTerm(plan, p, b), b => Pair(plan, p, b));
      } else {
        SumSame(builds, b => PairTerm(plan, p, b), b => Pair(plan, b, p));
      }
    }
    if plan.OrderedByLeft() {
      ByProbe(plan, probes, builds, p => PairsOfLeft(plan, p, builds));
    } else {
      ByProbe(plan, probes, builds, p => PairsOfRight(plan, builds, p));
      MatchedByRight(plan, builds, probes);
    }
  }

  lemma ByProbe(plan: JoinPlan, probes: seq<Row>, builds: seq<Row>, f: Row -> multiset<Row>)
    requires forall p :: SamePairs(plan, p, builds)
    requires forall p ::
               f(p) == if plan.OrderedByLeft() then PairsOfLeft(plan, p, builds) else PairsOfRight(plan, builds, p)
    ensures AllPairs(plan, probes, builds) == Sum(probes, f)
  {
    var g := p => PairsOfProbe(plan, p, builds);
    forall p | p in probes ensures g(p) == f(p) {
      assert SamePairs(plan, p, builds);
    }
    SumSame(probes, g, f);
  }

  lemma LonelyByName(plan: JoinPlan, probes: seq<Row>, builds: seq<Row>)
    ensures LonelyProbes(plan, probes, builds) ==
            if plan.OrderedByLeft() then LonelyLefts(plan, probes, builds) else LonelyRights(plan, builds, probes)
    ensures LonelyBuilds(plan, probes, builds) ==
            if plan.OrderedByLeft() then LonelyRights(plan, probes, builds) else LonelyLefts(plan, builds, probes)
  {
    if plan.OrderedByLeft() {
      SumSame(probes, p => LonelyProbe(plan, p, builds), l =>
        if exists r :: r in builds && Agree(plan, l, r) then multiset{} else multiset{plan.OutRow(Some(l), None)});
      SumSame(builds, b => LonelyBuild(plan, probes, b), r =>
        if exists l :: l in probes && Agree(plan, l, r) then multiset{} else multiset{plan.OutRow(None, Some(r))});
    } else {
      SumSame(probes, p => LonelyProbe(plan, p, builds), r =>
        if exists l :: l in builds && Agree(plan, l, r) then multiset{} else multiset{plan.OutRow(None, Some(r))});
      SumSame(builds, b => LonelyBuild(plan, probes, b), l =>
        if exists r :: r in probes && Agree(plan, l, r) then multiset{} else multiset{plan.OutRow(Some(l), None)});
    }
  }

  lemma TypeKeeps(plan: JoinPlan, byLeft: bool, pairs: multiset<Row>, probes: multiset<Row>, builds: multiset<Row>)
    requires plan.joinType != UNKNOWN
    ensures pairs + (if plan.KeepsUnmatched(byLeft) then probes else multiset{}) +
            (if plan.KeepsUnmatched(!byLeft) then builds else multiset{}) ==
            if byLeft then ByType(plan.joinType, pairs, probes, builds)
            else ByType(plan.joinType, pairs, builds, probes)
  {
  }

  /** A join result holds exactly the rows that the join type names, whichever table is probed. */
  lemma JoinMeans(plan: JoinPlan, out: seq<Row>, probes: seq<Row>, builds: seq<Row>)
    requires plan.IsJoin(out, probes, builds) && plan.joinType != UNKNOWN
    ensures multiset(out) ==
            if plan.orderByTime && plan.timeParent == 0 then Meaning(plan, probes, builds)
            else Meaning(plan, builds, probes)
  {
    JoinSum(plan, out, probes, builds);
    MatchedByProbe(plan, probes, builds);
    LonelyByName(plan, probes, builds);
    TypeKeeps(plan, plan.OrderedByLeft(), AllPairs(plan, probes, builds), LonelyProbes(plan, probes, builds),
      LonelyBuilds(plan, probes, builds));
  }
}
