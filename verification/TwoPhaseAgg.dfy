/**
 Two-phase aggregation preserves meaning: agents fold their own rows and serialize the states, and another agent
 merges the partial states in whatever order they arrive; the result is that of aggregating all rows at once.
 */
module TwoPhaseAgg {
  import opened Basics
  import opened RowBatches
  import opened AggSpec

  // ---- Grouping respects permutations and concatenation ----

  lemma RowsOfSnoc<S(!new)>(plan: AggPlan<S>, rows: seq<Row>, row: Row, k: Key)
    ensures plan.RowsOf(rows + [row], k) == if plan.GroupKey(row) == k then plan.RowsOf(rows, k) + [row]
            else plan.RowsOf(rows, k)
  {
    assert (rows + [row])[..|rows|] == rows;
  }

  lemma {:induction false} RowsOfAppend<S(!new)>(plan: AggPlan<S>, a: seq<Row>, b: seq<Row>, k: Key)
    ensures plan.RowsOf(a + b, k) == plan.RowsOf(a, k) + plan.RowsOf(b, k)
  {
    if b == [] {
      assert a + b == a;
    } else {
      var init, last := b[..|b| - 1], b[|b| - 1];
      assert a + b == (a + init) + [last] && b == init + [last];
      RowsOfAppend(plan, a, init, k);
      RowsOfSnoc(plan, a + init, last, k);
      RowsOfSnoc(plan, init, last, k);
    }
  }

  /** A group of a permutation is a permutation of the group. */
  lemma {:induction false} RowsOfPermutation<S(!new)>(plan: AggPlan<S>, a: seq<Row>, b: seq<Row>, k: Key)
    requires multiset(a) == multiset(b)
    ensures multiset(plan.RowsOf(a, k)) == multiset(plan.RowsOf(b, k))
    decreases |a|
  {
    if a == [] {
      assert |multiset(b)| == 0;
    } else {
      var i := FindHead(a, b);
      RowsOfPermutation(plan, a[1..], b[..i] + b[i + 1..], k);
      RowsOfAppend(plan, [a[0]], a[1..], k);
      RowsOfAppend(plan, b[..i], b[i + 1..], k);
      RowsOfAppend(plan, b[..i] + [a[0]], b[i + 1..], k);
      RowsOfAppend(plan, b[..i], [a[0]], k);
    }
  }

  lemma {:induction false} ArgsListAppend<S(!new)>(expr: AggExpr<S>, a: seq<Row>, b: seq<Row>)
    ensures expr.ArgsList(a + b) == expr.ArgsList(a) + expr.ArgsList(b)
  {
    if b == [] {
      assert a + b == a;
    } else {
      var init := b[..|b| - 1];
      assert (a + b)[..|a + b| - 1] == a + init;
      ArgsListAppend(expr, a, init);
      Regroup(expr.ArgsList(a), expr.ArgsList(init), [expr.ArgsOf(b[|b| - 1])]);
    }
  }

  lemma {:induction false} ArgsListPermutation<S(!new)>(expr: AggExpr<S>, a: seq<Row>, b: seq<Row>)
    requires multiset(a) == multiset(b)
    ensures multiset(expr.ArgsList(a)) == multiset(expr.ArgsList(b))
    decreases |a|
  {
    if a == [] {
      assert |multiset(b)| == 0;
    } else {
      var i := FindHead(a, b);
      ArgsListPermutation(expr, a[1..], b[..i] + b[i + 1..]);
      ArgsListAppend(expr, [a[0]], a[1..]);
      ArgsListAppend(expr, b[..i], b[i + 1..]);
      ArgsListAppend(expr, b[..i] + [a[0]], b[i + 1..]);
      ArgsListAppend(expr, b[..i], [a[0]]);
    }
  }

  /** The state of a group, folded directly, does not depend on the order of the rows. */
  lemma DirectPermutation<S(!new)>(plan: AggPlan<S>, a: seq<Row>, b: seq<Row>, k: Key, i: nat)
    requires plan.partialAgg && i < |plan.values| && plan.values[i].uda.Lawful()
    requires multiset(a) == multiset(b)
    ensures plan.StateOf(i, plan.RowsOf(a, k)) == plan.StateOf(i, plan.RowsOf(b, k))
  {
    var expr := plan.values[i];
    RowsOfPermutation(plan, a, b, k);
    ArgsListPermutation(expr, plan.RowsOf(a, k), plan.RowsOf(b, k));
    FoldPermutation(expr.uda, expr.ArgsList(plan.RowsOf(a, k)), expr.ArgsList(plan.RowsOf(b, k)));
  }

  // ---- Merging serialized states ----

  /** Some inputs whose fold serializes to `part`, if there are any. */
  ghost function Source<S(!new)>(uda: Uda<S>, part: string): seq<Args> {
    if IsPart(uda, part) then
      var x :| Serializes(uda, x, part);
      x
    else []
  }

  ghost predicate Serializes<S(!new)>(uda: Uda<S>, x: seq<Args>, part: string) {
    uda.serialize(uda.Fold(x)) == part
  }

  ghost predicate IsPart<S(!new)>(uda: Uda<S>, part: string) {
    exists x :: Serializes(uda, x, part)
  }

  /** The inputs behind the partial states of some rows. */
  ghost function Sources<S(!new)>(plan: AggPlan<S>, i: nat, rows: seq<Row>): seq<Args>
    requires i < |plan.values|
  {
    if rows == [] then []
    else Sources(plan, i, rows[..|rows| - 1]) + Source(plan.values[i].uda, plan.PartOf(rows[|rows| - 1], i))
  }

  ghost predicate AreParts<S(!new)>(plan: AggPlan<S>, i: nat, rows: seq<Row>)
    requires i < |plan.values|
  {
    forall row | row in rows :: IsPart(plan.values[i].uda, plan.PartOf(row, i))
  }

  /** Merging partial states into a fresh instance folds all the inputs behind them. */
  lemma {:induction false} MergeIsFold<S(!new)>(plan: AggPlan<S>, i: nat, rows: seq<Row>)
    requires i < |plan.values| && plan.values[i].uda.Lawful() && AreParts(plan, i, rows) && rows != []
    ensures plan.MergeRows(i, plan.values[i].uda.made, rows) == plan.values[i].uda.Fold(Sources(plan, i, rows))
  {
    var uda := plan.values[i].uda;
    var init, last := rows[..|rows| - 1], rows[|rows| - 1];
    var x := Source(uda, plan.PartOf(last, i));
    assert last in rows;
    assert Serializes(uda, x, plan.PartOf(last, i));
    assert uda.Transfers(x);
    if init == [] {
      assert Sources(plan, i, rows) == [] + x == x;
    } else {
      MergeIsFold(plan, i, init);
      assert uda.Merges(Sources(plan, i, init), x);
    }
  }

  lemma {:induction false} SourcesAppend<S(!new)>(plan: AggPlan<S>, i: nat, a: seq<Row>, b: seq<Row>)
    requires i < |plan.values|
    ensures Sources(plan, i, a + b) == Sources(plan, i, a) + Sources(plan, i, b)
  {
    if b == [] {
      assert a + b == a;
    } else {
      var init := b[..|b| - 1];
      assert (a + b)[..|a + b| - 1] == a + init;
      SourcesAppend(plan, i, a, init);
      Regroup(Sources(plan, i, a), Sources(plan, i, init), Source(plan.values[i].uda, plan.PartOf(b[|b| - 1], i)));
    }
  }

  lemma {:induction false} SourcesPermutation<S(!new)>(plan: AggPlan<S>, i: nat, a: seq<Row>, b: seq<Row>)
    requires i < |plan.values| && multiset(a) == multiset(b)
    ensures multiset(Sources(plan, i, a)) == multiset(Sources(plan, i, b))
    decreases |a|
  {
    if a == [] {
      assert |multiset(b)| == 0;
    } else {
      var j := FindHead(a, b);
      SourcesPermutation(plan, i, a[1..], b[..j] + b[j + 1..]);
      SourcesAppend(plan, i, [a[0]], a[1..]);
      SourcesAppend(plan, i, b[..j], b[j + 1..]);
      SourcesAppend(plan, i, b[..j] + [a[0]], b[j + 1..]);
      SourcesAppend(plan, i, b[..j], [a[0]]);
    }
  }

  /** The merged state does not depend on the order in which the partial states arrive. */
  lemma MergePermutation<S(!new)>(plan: AggPlan<S>, i: nat, a: seq<Row>, b: seq<Row>)
    requires i < |plan.values| && plan.values[i].uda.Lawful() && AreParts(plan, i, a)
    requires multiset(a) == multiset(b)
    ensures plan.MergeRows(i, plan.values[i].uda.made, a) == plan.MergeRows(i, plan.values[i].uda.made, b)
  {
    if a == [] {
      assert |multiset(b)| == 0;
    } else {
      assert a[0] in multiset(b);
      forall row | row in b ensures row in a { assert row in multiset(b); }
      MergeIsFold(plan, i, a);
      MergeIsFold(plan, i, b);
      SourcesPermutation(plan, i, a, b);
      FoldPermutation(plan.values[i].uda, Sources(plan, i, a), Sources(plan, i, b));
    }
  }

  // ---- The two phases ----

  /** The rows of all agents. */
  ghost function Concat(parts: seq<seq<Row>>): seq<Row> {
    if parts == [] then [] else Concat(parts[..|parts| - 1]) + parts[|parts| - 1]
  }

  /** The plan of the agents: fold and serialize. */
  ghost predicate IsPartial<S(!new)>(plan: AggPlan<S>) {
    plan.partialAgg && !plan.finalizeResults && forall i | 0 <= i < |plan.values| :: plan.values[i].uda.Lawful()
  }

  /** The plan of the second phase: group by the leading columns, merge and finalize. */
  function FinalPlan<S(!new)>(plan: AggPlan<S>): AggPlan<S> {
    plan.(groups := seq(|plan.groups|, i => i), partialAgg := false, finalizeResults := true)
  }

  /** The plan of a single node doing the whole aggregation. */
  ghost function DirectPlan<S(!new)>(plan: AggPlan<S>): AggPlan<S> {
    plan.(finalizeResults := true)
  }

  lemma {:induction false} KeyWidth<S(!new)>(plan: AggPlan<S>, rows: seq<Row>, k: Key)
    requires plan.RowsOf(rows, k) != []
    ensures |k.vals| == |plan.groups|
  {
    if plan.GroupKey(rows[|rows| - 1]) != k { KeyWidth(plan, rows[..|rows| - 1], k); }
  }

  /** How the second phase reads a row of the first: the same key, and the serialized states. */
  lemma PartialRow<S(!new)>(plan: AggPlan<S>, k: Key, rows: seq<Row>)
    requires IsPartial(plan) && |k.vals| == |plan.groups|
    ensures FinalPlan(plan).GroupKey(plan.ResultRow(k, rows)) == k
    ensures forall i: nat | i < |plan.values| ::
      FinalPlan(plan).PartOf(plan.ResultRow(k, rows), i) ==
      plan.values[i].uda.serialize(plan.values[i].uda.Fold(plan.values[i].ArgsList(plan.RowsOf(rows, k))))
  {
    var final, row := FinalPlan(plan), plan.ResultRow(k, rows);
    assert forall i | 0 <= i < |plan.groups| :: final.GroupKey(row).vals[i] == row.cols[i] == k.vals[i];
    assert final.GroupKey(row).vals == k.vals;
  }

  lemma ResultRowsSnoc<S(!new)>(plan: AggPlan<S>, ks: seq<Key>, k: Key, window: seq<Row>)
    ensures plan.ResultRows(ks + [k], window) == plan.ResultRows(ks, window) + [plan.ResultRow(k, window)]
  {
    assert (ks + [k])[..|ks|] == ks;
  }

  /** A plan that reads the key of a result row where another plan put it. */
  ghost predicate ReadsKey<S(!new)>(plan: AggPlan<S>, final: AggPlan<S>, k: Key, rows: seq<Row>) {
    final.GroupKey(plan.ResultRow(k, rows)) == k
  }

  ghost predicate OneRow<S(!new)>(plan: AggPlan<S>, final: AggPlan<S>, ks: seq<Key>, rows: seq<Row>, k: Key) {
    final.RowsOf(plan.ResultRows(ks, rows), k) == if k in ks then [plan.ResultRow(k, rows)] else []
  }

  lemma OneRowNext<S(!new)>(plan: AggPlan<S>, final: AggPlan<S>, ks: seq<Key>, x: Key, rows: seq<Row>, k: Key)
    requires ReadsKey(plan, final, x, rows) && x !in ks && OneRow(plan, final, ks, rows, k)
    ensures OneRow(plan, final, ks + [x], rows, k)
  {
    ResultRowsSnoc(plan, ks, x, rows);
    RowsOfSnoc(final, plan.ResultRows(ks, rows), plan.ResultRow(x, rows), k);
  }

  /** Among the rows an agent sends, a group has at most one. */
  lemma {:induction false} OneRowPerGroup<S(!new)>(plan: AggPlan<S>, final: AggPlan<S>, ks: seq<Key>, n: nat,
                                                   rows: seq<Row>, k: Key)
    requires n <= |ks| && forall i, j | 0 <= i < j < |ks| :: ks[i] != ks[j]
    requires forall i | 0 <= i < |ks| :: ReadsKey(plan, final, ks[i], rows)
    ensures OneRow(plan, final, ks[..n], rows, k)
  {
    if n > 0 {
      OneRowPerGroup(plan, final, ks, n - 1, rows, k);
      TakeNext(ks, n - 1);
      OneRowNext(plan, final, ks[..n - 1], ks[n - 1], rows, k);
    }
  }

  /** The group of one agent's output, given that the output aggregates the agent's rows. */
  lemma AgentGroup<S(!new)>(plan: AggPlan<S>, part: seq<Row>, rows: seq<Row>, k: Key)
    requires IsPartial(plan) && plan.groups != [] && plan.IsAggregate(part, rows)
    ensures FinalPlan(plan).RowsOf(part, k) == if plan.RowsOf(rows, k) != [] then [plan.ResultRow(k, rows)] else []
  {
    var ks: seq<Key> :| plan.IsAggregateWith(ks, part, rows);
    var final := FinalPlan(plan);
    forall i | 0 <= i < |ks| ensures ReadsKey(plan, final, ks[i], rows) {
      assert ks[i] in ks;
      KeyWidth(plan, rows, ks[i]);
      PartialRow(plan, ks[i], rows);
    }
    OneRowPerGroup(plan, final, ks, |ks|, rows, k);
    TakeAll(ks);
    assert OneRow(plan, final, ks, rows, k);
  }

  ghost predicate AgentsSent<S(!new)>(plan: AggPlan<S>, agents: seq<seq<Row>>, parts: seq<seq<Row>>) {
    |agents| == |parts| && forall a | 0 <= a < |agents| :: plan.IsAggregate(parts[a], agents[a])
  }

  /** What the second phase computes for a group of `parts`, if it sees them agent by agent. */
  ghost predicate MergedGroup<S(!new)>(plan: AggPlan<S>, agents: seq<seq<Row>>, parts: seq<seq<Row>>, k: Key, i: nat)
    requires i < |plan.values|
  {
    var final, uda := FinalPlan(plan), plan.values[i].uda;
    var mine, sent := plan.RowsOf(Concat(agents), k), final.RowsOf(Concat(parts), k);
    && AreParts(final, i, sent)
    && if mine == [] then sent == []
       else sent != [] && final.MergeRows(i, uda.made, sent) == uda.Fold(plan.values[i].ArgsList(mine))
  }

  /** One more partial state arrives for a group. */
  lemma {:induction false} MergeOneMore<S(!new)>(plan: AggPlan<S>, sent: seq<Row>, mine: seq<Row>, more: seq<Row>,
                                                 row: Row, i: nat)
    requires IsPartial(plan) && i < |plan.values|
    requires AreParts(FinalPlan(plan), i, sent) && (sent == [] ==> mine == [])
    requires sent != [] ==>
      FinalPlan(plan).MergeRows(i, plan.values[i].uda.made, sent) ==
        plan.values[i].uda.Fold(plan.values[i].ArgsList(mine))
    requires FinalPlan(plan).PartOf(row, i) ==
             plan.values[i].uda.serialize(plan.values[i].uda.Fold(plan.values[i].ArgsList(more)))
    ensures AreParts(FinalPlan(plan), i, sent + [row])
    ensures FinalPlan(plan).MergeRows(i, plan.values[i].uda.made, sent + [row]) ==
            plan.values[i].uda.Fold(plan.values[i].ArgsList(mine + more))
  {
    var expr, uda := plan.values[i], plan.values[i].uda;
    assert (sent + [row])[..|sent|] == sent;
    assert Serializes(uda, expr.ArgsList(more), FinalPlan(plan).PartOf(row, i));
    assert uda.Transfers(expr.ArgsList(more));
    ArgsListAppend(expr, mine, more);
    if sent == [] {
      assert mine + more == more;
    } else {
      assert uda.Merges(expr.ArgsList(mine), expr.ArgsList(more));
    }
  }

  lemma {:induction false} MergeAgents<S(!new)>(plan: AggPlan<S>, agents: seq<seq<Row>>, parts: seq<seq<Row>>, k: Key,
                                                i: nat)
    requires IsPartial(plan) && plan.groups != [] && i < |plan.values| && AgentsSent(plan, agents, parts)
    ensures MergedGroup(plan, agents, parts, k, i)
  {
    if agents != [] {
      var n := |agents| - 1;
      MergeAgents(plan, agents[..n], parts[..n], k, i);
      var rows, part, final := agents[n], parts[n], FinalPlan(plan);
      var before, sent := plan.RowsOf(Concat(agents[..n]), k), final.RowsOf(Concat(parts[..n]), k);
      RowsOfAppend(plan, Concat(agents[..n]), rows, k);
      RowsOfAppend(final, Concat(parts[..n]), part, k);
      AgentGroup(plan, part, rows, k);
      if plan.RowsOf(rows, k) != [] {
        KeyWidth(plan, rows, k);
        PartialRow(plan, k, rows);
        MergeOneMore(plan, sent, before, plan.RowsOf(rows, k), plan.ResultRow(k, rows), i);
      } else {
        assert before + [] == before && sent + [] == sent;
      }
    }
  }

  lemma {:induction false} GroupSent<S(!new)>(plan: AggPlan<S>, agents: seq<seq<Row>>, parts: seq<seq<Row>>, k: Key)
    requires IsPartial(plan) && plan.groups != [] && AgentsSent(plan, agents, parts)
    ensures FinalPlan(plan).RowsOf(Concat(parts), k) == [] <==> plan.RowsOf(Concat(agents), k) == []
  {
    if agents != [] {
      var n := |agents| - 1;
      GroupSent(plan, agents[..n], parts[..n], k);
      RowsOfAppend(plan, Concat(agents[..n]), agents[n], k);
      RowsOfAppend(FinalPlan(plan), Concat(parts[..n]), parts[n], k);
      AgentGroup(plan, parts[n], agents[n], k);
    }
  }

  lemma {:induction false} DirectRowsOf<S(!new)>(plan: AggPlan<S>, rows: seq<Row>, k: Key)
    ensures DirectPlan(plan).RowsOf(rows, k) == plan.RowsOf(rows, k)
  {
    if rows != [] {
      DirectRowsOf(plan, rows[..|rows| - 1], k);
      assert DirectPlan(plan).GroupKey(rows[|rows| - 1]) == plan.GroupKey(rows[|rows| - 1]);
    }
  }

  /** Any distribution of the rows over agents, and any arrival order of what the agents send. */
  ghost predicate Distributed<S(!new)>(plan: AggPlan<S>, all: seq<Row>, agents: seq<seq<Row>>, parts: seq<seq<Row>>,
                                       arrived: seq<Row>) {
    && multiset(all) == multiset(Concat(agents))
    && AgentsSent(plan, agents, parts)
    && multiset(arrived) == multiset(Concat(parts))
  }

  /** The rows of one window, how they are spread over agents, and what each agent sends for it. */
  datatype Share = Share(all: seq<Row>, agents: seq<seq<Row>>, parts: seq<seq<Row>>)

  /** Each window that arrives holds the agents' partial results for the share of that window. */
  ghost predicate SharesArrive<S(!new)>(plan: AggPlan<S>, shares: seq<Share>, windows: seq<Window>) {
    && |shares| == |windows|
    && forall i | 0 <= i < |shares| ::
         && shares[i].agents != []
         && Distributed(plan, shares[i].all, shares[i].agents, shares[i].parts, windows[i].rows)
  }

  /** A group is present in the second phase exactly when it is in the data. */
  lemma SameGroups<S(!new)>(plan: AggPlan<S>, all: seq<Row>, agents: seq<seq<Row>>, parts: seq<seq<Row>>,
                            arrived: seq<Row>, k: Key)
    requires IsPartial(plan) && plan.groups != [] && Distributed(plan, all, agents, parts, arrived)
    ensures FinalPlan(plan).RowsOf(arrived, k) == [] <==> DirectPlan(plan).RowsOf(all, k) == []
  {
    RowsOfPermutation(FinalPlan(plan), arrived, Concat(parts), k);
    RowsOfPermutation(plan, all, Concat(agents), k);
    DirectRowsOf(plan, all, k);
    GroupSent(plan, agents, parts, k);
    EmptyByMultiset(FinalPlan(plan).RowsOf(arrived, k), FinalPlan(plan).RowsOf(Concat(parts), k));
    EmptyByMultiset(plan.RowsOf(all, k), plan.RowsOf(Concat(agents), k));
  }

  lemma EmptyByMultiset(a: seq<Row>, b: seq<Row>)
    requires multiset(a) == multiset(b)
    ensures a == [] <==> b == []
  {
    assert |multiset(a)| == |a| && |multiset(b)| == |b|;
  }

  /** The merged state of a group equals the state folded directly over all its rows. */
  lemma {:induction false} SameState<S(!new)>(plan: AggPlan<S>, all: seq<Row>, agents: seq<seq<Row>>,
                                              parts: seq<seq<Row>>, arrived: seq<Row>, k: Key, i: nat)
    requires IsPartial(plan) && plan.groups != [] && Distributed(plan, all, agents, parts, arrived)
    requires i < |plan.values| && DirectPlan(plan).RowsOf(all, k) != []
    ensures FinalPlan(plan).StateOf(i, FinalPlan(plan).RowsOf(arrived, k)) ==
            DirectPlan(plan).StateOf(i, DirectPlan(plan).RowsOf(all, k))
  {
    var final := FinalPlan(plan);
    DirectRowsOf(plan, all, k);
    RowsOfPermutation(plan, all, Concat(agents), k);
    EmptyByMultiset(plan.RowsOf(all, k), plan.RowsOf(Concat(agents), k));
    MergeAgents(plan, agents, parts, k, i);
    RowsOfPermutation(final, Concat(parts), arrived, k);
    MergePermutation(final, i, final.RowsOf(Concat(parts), k), final.RowsOf(arrived, k));
    DirectPermutation(plan, Concat(agents), all, k, i);
  }

  lemma SameResultRow<S(!new)>(plan: AggPlan<S>, all: seq<Row>, agents: seq<seq<Row>>, parts: seq<seq<Row>>,
                               arrived: seq<Row>, k: Key)
    requires IsPartial(plan) && plan.groups != [] && Distributed(plan, all, agents, parts, arrived)
    requires DirectPlan(plan).RowsOf(all, k) != []
    ensures FinalPlan(plan).ResultRow(k, arrived) == DirectPlan(plan).ResultRow(k, all)
  {
    var final, direct := FinalPlan(plan), DirectPlan(plan);
    var a, b := final.Results(final.RowsOf(arrived, k)), direct.Results(direct.RowsOf(all, k));
    forall i | 0 <= i < |plan.values| ensures a[i] == b[i] {
      SameState(plan, all, agents, parts, arrived, k, i);
    }
    assert a == b;
  }

  lemma {:induction false} SameResultRows<S(!new)>(plan: AggPlan<S>, all: seq<Row>, agents: seq<seq<Row>>,
                                                   parts: seq<seq<Row>>, arrived: seq<Row>, ks: seq<Key>)
    requires IsPartial(plan) && plan.groups != [] && Distributed(plan, all, agents, parts, arrived)
    requires forall k | k in ks :: DirectPlan(plan).RowsOf(all, k) != []
    ensures FinalPlan(plan).ResultRows(ks, arrived) == DirectPlan(plan).ResultRows(ks, all)
  {
    if ks != [] {
      SameResultRows(plan, all, agents, parts, arrived, ks[..|ks| - 1]);
      SameResultRow(plan, all, agents, parts, arrived, ks[|ks| - 1]);
    }
  }

  lemma {:induction false} ResultRowsAppend<S(!new)>(plan: AggPlan<S>, a: seq<Key>, b: seq<Key>, rows: seq<Row>)
    ensures plan.ResultRows(a + b, rows) == plan.ResultRows(a, rows) + plan.ResultRows(b, rows)
  {
    if b == [] {
      assert a + b == a;
    } else {
      var init := b[..|b| - 1];
      assert (a + b)[..|a + b| - 1] == a + init;
      ResultRowsAppend(plan, a, init, rows);
      Regroup(plan.ResultRows(a, rows), plan.ResultRows(init, rows), [plan.ResultRow(b[|b| - 1], rows)]);
    }
  }

  lemma {:induction false} DistinctCount<T>(a: seq<T>, x: T)
    requires forall i, j | 0 <= i < j < |a| :: a[i] != a[j]
    ensures multiset(a)[x] == if x in a then 1 else 0
  {
    if a != [] {
      var init, last := a[..|a| - 1], a[|a| - 1];
      assert a == init + [last];
      DistinctCount(init, x);
    }
  }

  /** Two repetition-free listings of the same elements are permutations of each other. */
  lemma SameListing<T>(a: seq<T>, b: seq<T>)
    requires forall i, j | 0 <= i < j < |a| :: a[i] != a[j]
    requires forall i, j | 0 <= i < j < |b| :: b[i] != b[j]
    requires forall x :: x in a <==> x in b
    ensures multiset(a) == multiset(b)
  {
    forall x ensures multiset(a)[x] == multiset(b)[x] {
      DistinctCount(a, x);
      DistinctCount(b, x);
    }
  }

  /** Listing the keys in another order only reorders the result rows. */
  lemma {:induction false} ResultRowsReorder<S(!new)>(plan: AggPlan<S>, a: seq<Key>, b: seq<Key>, rows: seq<Row>)
    requires multiset(a) == multiset(b)
    ensures multiset(plan.ResultRows(a, rows)) == multiset(plan.ResultRows(b, rows))
    decreases |a|
  {
    if a == [] {
      assert |multiset(b)| == 0;
    } else {
      var i := FindHead(a, b);
      ResultRowsReorder(plan, a[1..], b[..i] + b[i + 1..], rows);
      ResultRowsAppend(plan, [a[0]], a[1..], rows);
      ResultRowsAppend(plan, b[..i], b[i + 1..], rows);
      ResultRowsAppend(plan, b[..i] + [a[0]], b[i + 1..], rows);
      ResultRowsAppend(plan, b[..i], [a[0]], rows);
    }
  }

  /** The aggregate of some rows is determined up to the order in which the groups are listed. */
  lemma AggregateUnique<S(!new)>(plan: AggPlan<S>, a: seq<Row>, b: seq<Row>, window: seq<Row>)
    requires plan.IsAggregate(a, window) && plan.IsAggregate(b, window)
    ensures multiset(a) == multiset(b)
  {
    if plan.groups != [] {
      var ks: seq<Key> :| plan.IsAggregateWith(ks, a, window);
      var ls: seq<Key> :| plan.IsAggregateWith(ls, b, window);
      SameListing(ks, ls);
      ResultRowsReorder(plan, ks, ls, window);
    }
  }

  lemma TwoPhaseGrouped<S(!new)>(plan: AggPlan<S>, all: seq<Row>, agents: seq<seq<Row>>, parts: seq<seq<Row>>,
                                 arrived: seq<Row>, merged: seq<Row>)
    requires IsPartial(plan) && plan.groups != [] && Distributed(plan, all, agents, parts, arrived)
    requires FinalPlan(plan).IsAggregate(merged, arrived)
    ensures DirectPlan(plan).IsAggregate(merged, all)
  {
    var ks: seq<Key> :| FinalPlan(plan).IsAggregateWith(ks, merged, arrived);
    forall k ensures k in ks <==> DirectPlan(plan).RowsOf(all, k) != [] {
      SameGroups(plan, all, agents, parts, arrived, k);
    }
    SameResultRows(plan, all, agents, parts, arrived, ks);
    assert DirectPlan(plan).IsAggregateWith(ks, merged, all);
  }

  // ---- Without group columns ----

  lemma {:induction false} MergeAllAgents<S(!new)>(plan: AggPlan<S>, agents: seq<seq<Row>>, parts: seq<seq<Row>>,
                                                   i: nat)
    requires IsPartial(plan) && plan.groups == [] && i < |plan.values| && AgentsSent(plan, agents, parts)
    ensures AreParts(FinalPlan(plan), i, Concat(parts)) && |Concat(parts)| == |agents|
    ensures agents != [] ==> FinalPlan(plan).MergeRows(i, plan.values[i].uda.made, Concat(parts)) ==
                             plan.values[i].uda.Fold(plan.values[i].ArgsList(Concat(agents)))
  {
    if agents != [] {
      var n, final, expr := |agents| - 1, FinalPlan(plan), plan.values[i];
      MergeAllAgents(plan, agents[..n], parts[..n], i);
      var row := Row(plan.Results(agents[n]));
      assert parts[n] == [row];
      assert final.PartOf(row, i) == expr.uda.serialize(expr.uda.Fold(expr.ArgsList(agents[n])));
      MergeOneMore(plan, Concat(parts[..n]), Concat(agents[..n]), agents[n], row, i);
    }
  }

  lemma UngroupedState<S(!new)>(plan: AggPlan<S>, all: seq<Row>, agents: seq<seq<Row>>, parts: seq<seq<Row>>,
                                arrived: seq<Row>, i: nat)
    requires IsPartial(plan) && plan.groups == [] && Distributed(plan, all, agents, parts, arrived) && agents != []
    requires i < |plan.values|
    ensures FinalPlan(plan).StateOf(i, arrived) == DirectPlan(plan).StateOf(i, all)
  {
    var expr := plan.values[i];
    MergeAllAgents(plan, agents, parts, i);
    MergePermutation(FinalPlan(plan), i, Concat(parts), arrived);
    ArgsListPermutation(expr, all, Concat(agents));
    FoldPermutation(expr.uda, expr.ArgsList(all), expr.ArgsList(Concat(agents)));
  }

  /** Without group columns every agent sends one row, even if it saw none. */
  lemma TwoPhaseUngrouped<S(!new)>(plan: AggPlan<S>, all: seq<Row>, agents: seq<seq<Row>>, parts: seq<seq<Row>>,
                                   arrived: seq<Row>, merged: seq<Row>)
    requires IsPartial(plan) && plan.groups == [] && Distributed(plan, all, agents, parts, arrived) && agents != []
    requires FinalPlan(plan).IsAggregate(merged, arrived)
    ensures DirectPlan(plan).IsAggregate(merged, all)
  {
    var final, direct := FinalPlan(plan), DirectPlan(plan);
    var a, b := final.Results(arrived), direct.Results(all);
    forall i | 0 <= i < |plan.values| ensures a[i] == b[i] {
      UngroupedState(plan, all, agents, parts, arrived, i);
    }
    assert a == b;
    assert final.groups == [];
  }

  /**
   What the second phase emits is the aggregate of all rows, for every distribution of the rows over agents and
   every arrival order of the agents' partial results.
   */
  lemma TwoPhasePreservesMeaning<S(!new)>(plan: AggPlan<S>, all: seq<Row>, agents: seq<seq<Row>>, parts: seq<seq<Row>>,
                                          arrived: seq<Row>, merged: seq<Row>)
    requires IsPartial(plan) && Distributed(plan, all, agents, parts, arrived) && agents != []
    requires FinalPlan(plan).IsAggregate(merged, arrived)
    ensures DirectPlan(plan).IsAggregate(merged, all)
  {
    if plan.groups == [] {
      TwoPhaseUngrouped(plan, all, agents, parts, arrived, merged);
    } else {
      TwoPhaseGrouped(plan, all, agents, parts, arrived, merged);
    }
  }
}
