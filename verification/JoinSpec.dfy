/**
 The reference behaviour of the equijoin: a nested-loop join over whole tables, stated on the left and
 right tables of the plan, without hash tables, phases, chunks or batches.
 */
module JoinSpec {
  import opened Basics
  import opened RowBatches

  /** The value of a default-constructed column value. */
  function DefaultValue(dt: DataType): Value {
    if dt == STRING then Str("") else Fixed(0)
  }

  datatype JoinType = INNER | LEFT_OUTER | FULL_OUTER | UNKNOWN

  /** Left column equals right column. */
  datatype EqualityCondition = EqualityCondition(leftColumn: nat, rightColumn: nat)

  /** An output column copies a column of parent 0 (left) or of another parent (right). */
  datatype OutputColumn = OutputColumn(parent: nat, column: nat)

  datatype JoinPlan = JoinPlan(
    joinType: JoinType, orderByTime: bool, timeParent: nat,
    conditions: seq<EqualityCondition>, outputColumns: seq<OutputColumn>,
    leftTypes: seq<DataType>, rightTypes: seq<DataType>, rowsPerBatch: nat)
  {
    /** Column references are in range, joined columns have equal types, and something is output. */
    ghost predicate Valid() {
      && outputColumns != []
      && (forall i | 0 <= i < |conditions| ::
            && conditions[i].leftColumn < |leftTypes| && conditions[i].rightColumn < |rightTypes|
            && leftTypes[conditions[i].leftColumn] == rightTypes[conditions[i].rightColumn])
      && (forall i | 0 <= i < |outputColumns| ::
            && outputColumns[i].parent < 2
            && outputColumns[i].column < |TypesOf(outputColumns[i].parent == 0)|)
    }

    function TypesOf(left: bool): seq<DataType> { if left then leftTypes else rightTypes }

    predicate IsRow(left: bool, row: Row) { |row.cols| == |TypesOf(left)| }

    ghost predicate AreRows(left: bool, rows: seq<Row>) {
      forall i | 0 <= i < |rows| :: IsRow(left, rows[i])
    }

    /** The values that a row must share with a row of the other table. */
    ghost function KeyOf(left: bool, row: Row): Key {
      Key(seq(|conditions|, i requires 0 <= i < |conditions| =>
        At(row, if left then conditions[i].leftColumn else conditions[i].rightColumn)))
    }

    /** The output row for a pair; a missing side contributes default values. */
    ghost function OutRow(l: Option<Row>, r: Option<Row>): (out: Row)
      ensures |out.cols| == |outputColumns|
    {
      Row(seq(|outputColumns|, i requires 0 <= i < |outputColumns| => OutValue(outputColumns[i], l, r)))
    }

    ghost function OutValue(c: OutputColumn, l: Option<Row>, r: Option<Row>): Value {
      var side := if c.parent == 0 then l else r;
      if side.Some? then At(side.value, c.column) else Default(c)
    }

    function Default(c: OutputColumn): Value {
      var types := TypesOf(c.parent == 0);
      DefaultValue(if c.column < |types| then types[c.column] else INT64)
    }

    /** Whether rows of a table without a partner appear in the output. */
    predicate KeepsUnmatched(left: bool) {
      joinType == FULL_OUTER || (joinType == LEFT_OUTER && left)
    }

    /** The table whose order the output follows: the left one if ordered by a left time column. */
    predicate OrderedByLeft() { orderByTime && timeParent == 0 }

    /** The output row for a row of the ordering table and a row of the other table. */
    ghost function PairRow(probe: Option<Row>, build: Option<Row>): (out: Row)
      ensures |out.cols| == |outputColumns|
    {
      if OrderedByLeft() then OutRow(probe, build) else OutRow(build, probe)
    }

    ghost function ProbeKey(row: Row): Key { KeyOf(OrderedByLeft(), row) }

    ghost function BuildKey(row: Row): Key { KeyOf(!OrderedByLeft(), row) }

    /** The rows of the other table with a given key, in table order. */
    ghost function Matches(builds: seq<Row>, k: Key): seq<Row> {
      if builds == [] then []
      else
        var last := builds[|builds| - 1];
        Matches(builds[..|builds| - 1], k) + if BuildKey(last) == k then [last] else []
    }

    /** Whether some row of the ordering table has a given key. */
    ghost predicate ProbesKey(probes: seq<Row>, k: Key) {
      probes != [] && (ProbeKey(probes[|probes| - 1]) == k || ProbesKey(probes[..|probes| - 1], k))
    }

    /** The output rows for one row of the ordering table, or none, paired with each of `builds`. */
    ghost function Pairs(probe: Option<Row>, builds: seq<Row>): (out: seq<Row>)
      ensures |out| == |builds|
    {
      seq(|builds|, i requires 0 <= i < |builds| => PairRow(probe, Some(builds[i])))
    }

    /** One row of the ordering table against the whole other table. */
    ghost function JoinOne(probe: Row, builds: seq<Row>): seq<Row> {
      var m := Matches(builds, ProbeKey(probe));
      if m != [] then Pairs(Some(probe), m)
      else if KeepsUnmatched(OrderedByLeft()) then [PairRow(Some(probe), None)]
      else []
    }

    /** The nested loop: every row of the ordering table, in order, against the whole other table. */
    ghost function NestedLoop(probes: seq<Row>, builds: seq<Row>): seq<Row> {
      if probes == [] then []
      else NestedLoop(probes[..|probes| - 1], builds) + JoinOne(probes[|probes| - 1], builds)
    }

    /** The rows of the other table with keys `ks`, key by key, without a partner. */
    ghost function Unmatched(ks: seq<Key>, builds: seq<Row>): seq<Row> {
      if ks == [] then []
      else Unmatched(ks[..|ks| - 1], builds) + Pairs(None, Matches(builds, ks[|ks| - 1]))
    }

    /** `ks` lists, without repetition, the keys of the other table that the ordering table lacks. */
    ghost predicate ListsUnmatchedKeys(ks: seq<Key>, probes: seq<Row>, builds: seq<Row>) {
      && (forall i, j | 0 <= i < j < |ks| :: ks[i] != ks[j])
      && (forall k :: k in ks <==> Matches(builds, k) != [] && !ProbesKey(probes, k))
    }

    /** The nested loop, then the partnerless rows of the other table, key by key as listed. */
    ghost predicate IsJoinWith(ks: seq<Key>, out: seq<Row>, probes: seq<Row>, builds: seq<Row>) {
      ListsUnmatchedKeys(ks, probes, builds) && out == NestedLoop(probes, builds) + Unmatched(ks, builds)
    }

    /** A correct join result: the nested loop, then the partnerless rows of the other table if kept. */
    ghost predicate IsJoin(out: seq<Row>, probes: seq<Row>, builds: seq<Row>) {
      if KeepsUnmatched(!OrderedByLeft()) then exists ks :: IsJoinWith(ks, out, probes, builds)
      else out == NestedLoop(probes, builds)
    }
  }

  // ---- The partnerless rows, counted ----

  /** The rows that are to be kept, in order. */
  ghost function Kept(rows: seq<Row>, keep: Row -> bool): seq<Row> {
    if rows == [] then []
    else Kept(rows[..|rows| - 1], keep) + if keep(rows[|rows| - 1]) then [rows[|rows| - 1]] else []
  }

  lemma {:induction false} KeptCount(rows: seq<Row>, keep: Row -> bool, row: Row)
    ensures multiset(Kept(rows, keep))[row] == if keep(row) then multiset(rows)[row] else 0
  {
    if rows != [] {
      var init, last := rows[..|rows| - 1], rows[|rows| - 1];
      KeptCount(init, keep, row);
      CountKept(init, Kept(init, keep), last, keep(last), row, keep(row));
      assert rows == init + [last];
    }
  }

  /** The rows of the other table whose key no row of the ordering table has, in table order. */
  ghost function NeverProbed(plan: JoinPlan, probes: seq<Row>, builds: seq<Row>): seq<Row> {
    Kept(builds, row => !plan.ProbesKey(probes, plan.BuildKey(row)))
  }

  /** The rows with keys `ks`, key by key. */
  ghost function Gather(plan: JoinPlan, ks: seq<Key>, builds: seq<Row>): seq<Row> {
    if ks == [] then [] else Gather(plan, ks[..|ks| - 1], builds) + plan.Matches(builds, ks[|ks| - 1])
  }

  lemma PairsAppend(plan: JoinPlan, probe: Option<Row>, a: seq<Row>, b: seq<Row>)
    ensures plan.Pairs(probe, a + b) == plan.Pairs(probe, a) + plan.Pairs(probe, b)
  {
  }

  lemma {:induction false} UnmatchedIsPadded(plan: JoinPlan, ks: seq<Key>, builds: seq<Row>)
    ensures plan.Unmatched(ks, builds) == plan.Pairs(None, Gather(plan, ks, builds))
  {
    if ks != [] {
      UnmatchedIsPadded(plan, ks[..|ks| - 1], builds);
      PairsAppend(plan, None, Gather(plan, ks[..|ks| - 1], builds), plan.Matches(builds, ks[|ks| - 1]));
    }
  }

  /** Counting `row` in the rows kept of `s`: a row is kept according to its key, so equal rows are kept alike. */
  lemma CountKept(s: seq<Row>, kept: seq<Row>, last: Row, keep: bool, row: Row, wanted: bool)
    requires multiset(kept)[row] == (if wanted then multiset(s)[row] else 0) && (row == last ==> keep == wanted)
    ensures multiset(kept + if keep then [last] else [])[row] == if wanted then multiset(s + [last])[row] else 0
  {
  }

  lemma {:induction false} MatchesAreKept(plan: JoinPlan, builds: seq<Row>, k: Key)
    ensures plan.Matches(builds, k) == Kept(builds, r => plan.BuildKey(r) == k)
  {
    if builds != [] {
      MatchesAreKept(plan, builds[..|builds| - 1], k);
    }
  }

  lemma MatchesCount(plan: JoinPlan, builds: seq<Row>, k: Key, row: Row)
    ensures multiset(plan.Matches(builds, k))[row] == if plan.BuildKey(row) == k then multiset(builds)[row] else 0
  {
    MatchesAreKept(plan, builds, k);
    KeptCount(builds, r => plan.BuildKey(r) == k, row);
  }

  lemma NeverProbedCount(plan: JoinPlan, probes: seq<Row>, builds: seq<Row>, row: Row)
    ensures multiset(NeverProbed(plan, probes, builds))[row] ==
            if plan.ProbesKey(probes, plan.BuildKey(row)) then 0 else multiset(builds)[row]
  {
    KeptCount(builds, r => !plan.ProbesKey(probes, plan.BuildKey(r)), row);
  }

  /** Counting `row` in the rows gathered for one more key; `n` is how often a row with a gathered key occurs. */
  lemma CountGathered(a: seq<Row>, b: seq<Row>, row: Row, k: Key, init: seq<Key>, last: Key, n: nat)
    requires multiset(a)[row] == (if k in init then n else 0) && multiset(b)[row] == (if k == last then n else 0)
    requires last !in init
    ensures multiset(a + b)[row] == if k in init + [last] then n else 0
  {
  }

  lemma {:induction false} GatherCount(plan: JoinPlan, ks: seq<Key>, builds: seq<Row>, row: Row)
    requires forall i, j | 0 <= i < j < |ks| :: ks[i] != ks[j]
    ensures multiset(Gather(plan, ks, builds))[row] == if plan.BuildKey(row) in ks then multiset(builds)[row] else 0
  {
    if ks != [] {
      var init, last := ks[..|ks| - 1], ks[|ks| - 1];
      GatherCount(plan, init, builds, row);
      MatchesCount(plan, builds, last, row);
      assert ks == init + [last] && last !in init;
      CountGathered(Gather(plan, init, builds), plan.Matches(builds, last), row, plan.BuildKey(row), init, last,
                    multiset(builds)[row]);
    }
  }

  lemma {:induction false} RowHasMatches(plan: JoinPlan, builds: seq<Row>, row: Row)
    requires row in builds
    ensures plan.Matches(builds, plan.BuildKey(row)) != []
  {
    if builds[|builds| - 1] != row {
      assert row in builds[..|builds| - 1];
      RowHasMatches(plan, builds[..|builds| - 1], row);
    }
  }

  /** The partnerless rows of a join are exactly the rows whose key was never probed, each as often as it occurs. */
  lemma {:induction false} UnmatchedExactlyOnce(plan: JoinPlan, ks: seq<Key>, probes: seq<Row>, builds: seq<Row>)
    requires plan.ListsUnmatchedKeys(ks, probes, builds)
    ensures plan.Unmatched(ks, builds) == plan.Pairs(None, Gather(plan, ks, builds))
    ensures multiset(Gather(plan, ks, builds)) == multiset(NeverProbed(plan, probes, builds))
  {
    UnmatchedIsPadded(plan, ks, builds);
    forall row ensures multiset(Gather(plan, ks, builds))[row] == multiset(NeverProbed(plan, probes, builds))[row] {
      GatherCount(plan, ks, builds, row);
      NeverProbedCount(plan, probes, builds, row);
      if row in builds {
        RowHasMatches(plan, builds, row);
      }
    }
  }
}
