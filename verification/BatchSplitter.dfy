/** Splitting a row batch into batches that fit a byte target. */
module BatchSplitter {
  import opened RowBatches

  // ---- Contiguous splits ----

  /** The total of the first `k` numbers. */
  ghost function Total(s: seq<nat>, k: nat): nat
    requires k <= |s|
  {
    if k == 0 then 0 else Total(s, k - 1) + s[k - 1]
  }

  lemma {:induction false} TotalGrows(s: seq<nat>, j: nat, k: nat)
    requires j <= k <= |s|
    ensures Total(s, j) <= Total(s, k)
  {
    if j < k {
      TotalGrows(s, j, k - 1);
    }
  }

  lemma {:induction false} TotalPrefix(s: seq<nat>, t: seq<nat>, k: nat)
    requires k <= |s| && k <= |t| && forall i | 0 <= i < k :: s[i] == t[i]
    ensures Total(s, k) == Total(t, k)
  {
    if k > 0 {
      TotalPrefix(s, t, k - 1);
    }
  }

  /** Rows from `a` up to `b` can be sent as one batch: they fit the target, or it is a single row. */
  ghost predicate CanSend(sizes: seq<nat>, target: nat, a: nat, b: nat)
    requires a < b <= |sizes|
  {
    b == a + 1 || Total(sizes, b) - Total(sizes, a) <= target
  }

  /** Batch `k` of the split. */
  ghost predicate BatchOk(sizes: seq<nat>, target: nat, split: seq<nat>, k: nat)
    requires k < |split|
  {
    && split[k] > 0 && Total(split, k + 1) <= |sizes|
    && CanSend(sizes, target, Total(split, k), Total(split, k + 1))
  }

  /** A split into batches of one or more rows that covers all rows and respects the target. */
  ghost predicate IsSplit(sizes: seq<nat>, target: nat, split: seq<nat>) {
    && (forall k | 0 <= k < |split| :: BatchOk(sizes, target, split, k))
    && Total(split, |split|) == |sizes|
  }

  /** Batch `k` could not have taken one more row. */
  ghost predicate IsFull(sizes: seq<nat>, target: nat, split: seq<nat>, k: nat)
    requires k < |split|
  {
    Total(split, k + 1) < |sizes| ==> !CanSend(sizes, target, Total(split, k), Total(split, k + 1) + 1)
  }

  ghost predicate IsGreedy(sizes: seq<nat>, target: nat, split: seq<nat>) {
    IsSplit(sizes, target, split) && forall k | 0 <= k < |split| :: IsFull(sizes, target, split, k)
  }

  lemma CanSendLess(sizes: seq<nat>, target: nat, a: nat, b: nat, c: nat, d: nat)
    requires a <= c < d <= b <= |sizes| && CanSend(sizes, target, a, b)
    ensures CanSend(sizes, target, c, d)
  {
    TotalGrows(sizes, a, c);
    TotalGrows(sizes, d, b);
  }

  /** After as many batches, the greedy split is never behind another one. */
  lemma {:induction false} GreedyAhead(sizes: seq<nat>, target: nat, greedy: seq<nat>, other: seq<nat>, k: nat)
    requires IsGreedy(sizes, target, greedy) && IsSplit(sizes, target, other) && k <= |greedy| && k <= |other|
    ensures Total(other, k) <= Total(greedy, k) <= |sizes|
  {
    if k > 0 {
      GreedyAhead(sizes, target, greedy, other, k - 1);
      assert BatchOk(sizes, target, greedy, k - 1) && BatchOk(sizes, target, other, k - 1) &&
        IsFull(sizes, target, greedy, k - 1);
      if Total(greedy, k) < Total(other, k) {
        CanSendLess(sizes, target, Total(other, k - 1), Total(other, k), Total(greedy, k - 1), Total(greedy, k) + 1);
      }
    }
  }

  /** No split uses fewer batches than the greedy one. */
  lemma GreedyOptimal(sizes: seq<nat>, target: nat, greedy: seq<nat>, other: seq<nat>)
    requires IsGreedy(sizes, target, greedy) && IsSplit(sizes, target, other)
    ensures |greedy| <= |other|
  {
    if |other| < |greedy| {
      assert BatchOk(sizes, target, greedy, |other|);
      GreedyAhead(sizes, target, greedy, other, |other|);
    }
  }

  lemma {:induction false} GreedyAgree(sizes: seq<nat>, target: nat, a: seq<nat>, b: seq<nat>, k: nat)
    requires IsGreedy(sizes, target, a) && IsGreedy(sizes, target, b) && k <= |a| && k <= |b|
    ensures forall i | 0 <= i < k :: a[i] == b[i]
  {
    if k > 0 {
      GreedyAgree(sizes, target, a, b, k - 1);
      GreedyAhead(sizes, target, a, b, k);
      GreedyAhead(sizes, target, b, a, k);
      TotalPrefix(a, b, k - 1);
    }
  }

  /** There is only one greedy split. */
  lemma GreedyUnique(sizes: seq<nat>, target: nat, a: seq<nat>, b: seq<nat>)
    requires IsGreedy(sizes, target, a) && IsGreedy(sizes, target, b)
    ensures a == b
  {
    GreedyOptimal(sizes, target, a, b);
    GreedyOptimal(sizes, target, b, a);
    GreedyAgree(sizes, target, a, b, |a|);
  }

  // ---- The greedy loop ----

  lemma TotalSnoc(s: seq<nat>, x: nat)
    ensures Total(s + [x], |s| + 1) == Total(s, |s|) + x
    ensures forall k | 0 <= k <= |s| :: Total(s + [x], k) == Total(s, k)
  {
    forall k | 0 <= k <= |s| ensures Total(s + [x], k) == Total(s, k) {
      TotalPrefix(s + [x], s, k);
    }
  }

  /** The batches closed so far are full, and together they end before row `next`. */
  ghost predicate ClosedBatches(sizes: seq<nat>, target: nat, closed: seq<nat>) {
    forall k | 0 <= k < |closed| :: BatchOk(sizes, target, closed, k) && IsFull(sizes, target, closed, k)
  }

  lemma CloseBatch(sizes: seq<nat>, target: nat, closed: seq<nat>, rows: nat)
    requires ClosedBatches(sizes, target, closed) && rows > 0 && Total(closed, |closed|) + rows <= |sizes|
    requires CanSend(sizes, target, Total(closed, |closed|), Total(closed, |closed|) + rows)
    requires Total(closed, |closed|) + rows < |sizes| ==>
               !CanSend(sizes, target, Total(closed, |closed|), Total(closed, |closed|) + rows + 1)
    ensures ClosedBatches(sizes, target, closed + [rows]) &&
            Total(closed + [rows], |closed| + 1) == Total(closed, |closed|) + rows
  {
    var next := closed + [rows];
    TotalSnoc(closed, rows);
    forall k | 0 <= k < |next| ensures BatchOk(sizes, target, next, k) && IsFull(sizes, target, next, k) {
      if k < |closed| {
        assert BatchOk(sizes, target, closed, k) && IsFull(sizes, target, closed, k);
      }
    }
  }

  method SplitGreedily(sizes: seq<nat>, target: nat) returns (split: seq<nat>)
    requires sizes != []
    ensures IsGreedy(sizes, target, split)
  {
    split := [];
    var batchBytes, batchRows := 0, 0;
    for i := 0 to |sizes|
      invariant ClosedBatches(sizes, target, split) && Total(split, |split|) + batchRows == i
      invariant batchBytes == Total(sizes, i) - Total(sizes, i - batchRows)
      invariant i > 0 ==> batchRows > 0 && CanSend(sizes, target, i - batchRows, i)
    {
      if batchRows > 0 && batchBytes + sizes[i] > target {
        CloseBatch(sizes, target, split, batchRows);
        split := split + [batchRows];
        batchBytes, batchRows := 0, 0;
      }
      batchBytes, batchRows := batchBytes + sizes[i], batchRows + 1;
    }
    CloseBatch(sizes, target, split, batchRows);
    split := split + [batchRows];
  }

  // ---- The division fast path ----

  ghost predicate Uniform(sizes: seq<nat>, w: nat) {
    forall i | 0 <= i < |sizes| :: sizes[i] == w
  }

  lemma {:induction false} UniformTotal(sizes: seq<nat>, w: nat, k: nat)
    requires Uniform(sizes, w) && k <= |sizes|
    ensures Total(sizes, k) == k * w
  {
    if k > 0 {
      UniformTotal(sizes, w, k - 1);
      assert k * w == (k - 1) * w + w;
    }
  }

  /** With equal rows, a batch can be sent exactly when it has no more rows than the quotient allows. */
  lemma UniformCanSend(sizes: seq<nat>, target: nat, w: nat, a: nat, b: nat)
    requires Uniform(sizes, w) && w > 0 && a < b <= |sizes|
    ensures CanSend(sizes, target, a, b) <==> b - a <= PerBatch(target, w)
  {
    UniformTotal(sizes, w, a);
    UniformTotal(sizes, w, b);
    Quotient(target, w, b - a);
    assert b * w - a * w == (b - a) * w;
  }

  function PerBatch(target: nat, w: nat): nat
    requires w > 0
  {
    if target / w == 0 then 1 else target / w
  }

  lemma {:induction false} Quotient(target: nat, w: nat, n: nat)
    requires w > 0
    ensures n * w <= target <==> n <= target / w
  {
    var q, r := target / w, target % w;
    assert target == q * w + r;
    if n <= q {
      MulGrows(n, q, w);
    } else {
      MulGrows(q + 1, n, w);
      assert (q + 1) * w == q * w + w;
    }
  }

  lemma MulGrows(a: nat, b: nat, w: nat)
    requires a <= b
    ensures a * w <= b * w
  {
    assert b * w == a * w + (b - a) * w;
  }

  /** `n` batches of `p` rows. */
  ghost function Times(n: nat, p: nat): nat { if n == 0 then 0 else p + Times(n - 1, p) }

  lemma {:induction false} TimesIsProduct(n: nat, p: nat)
    ensures Times(n, p) == n * p
  {
    if n > 0 {
      TimesIsProduct(n - 1, p);
      assert n * p == (n - 1) * p + p;
    }
  }

  lemma Leftover(total: nat, p: nat)
    requires p > 0
    ensures 0 <= total - total / p * p < p && Times(total / p, p) + (total - total / p * p) == total
  {
    TimesIsProduct(total / p, p);
    assert total - total / p * p == total % p;
  }

  /** One more even batch is full. */
  lemma EvenBatch(sizes: seq<nat>, target: nat, w: nat, split: seq<nat>, rows: nat)
    requires w > 0 && Uniform(sizes, w) && ClosedBatches(sizes, target, split)
    requires 0 < rows <= PerBatch(target, w) && Total(split, |split|) + rows <= |sizes|
    requires rows == PerBatch(target, w) || Total(split, |split|) + rows == |sizes|
    ensures ClosedBatches(sizes, target, split + [rows]) &&
            Total(split + [rows], |split| + 1) == Total(split, |split|) + rows
  {
    var a := Total(split, |split|);
    UniformCanSend(sizes, target, w, a, a + rows);
    if a + rows < |sizes| {
      UniformCanSend(sizes, target, w, a, a + rows + 1);
    }
    CloseBatch(sizes, target, split, rows);
  }

  /** Split rows of equal size without looking at each. */
  method SplitEvenly(sizes: seq<nat>, target: nat, w: nat) returns (split: seq<nat>)
    requires w > 0 && Uniform(sizes, w)
    ensures IsGreedy(sizes, target, split)
  {
    var total := |sizes|;
    var perBatch := target / w;
    if perBatch == 0 {
      perBatch := 1;
    }
    var numBatches := total / perBatch;
    var leftover := total - numBatches * perBatch;
    Leftover(total, perBatch);
    split := [];
    for i := 0 to numBatches
      invariant ClosedBatches(sizes, target, split)
      invariant Total(split, |split|) + Times(numBatches - i, perBatch) + leftover == total
    {
      EvenBatch(sizes, target, w, split, perBatch);
      split := split + [perBatch];
    }
    if leftover > 0 {
      EvenBatch(sizes, target, w, split, leftover);
      split := split + [leftover];
    }
  }

  // ---- Row sizes ----

  /** The bytes of a column: strings count their characters, other types have a width. */
  datatype ColumnType = StringColumn | FixedColumn(width: nat)

  function ValueBytes(v: Value): nat { if v.Str? then |v.chars| else 0 }

  function FixedBytes(types: seq<ColumnType>, n: nat): nat
    requires n <= |types|
  {
    if n == 0 then 0 else FixedBytes(types, n - 1) + if types[n - 1].FixedColumn? then types[n - 1].width else 0
  }

  function StringBytes(types: seq<ColumnType>, row: Row, n: nat): nat
    requires n <= |types|
  {
    if n == 0 then 0
    else StringBytes(types, row, n - 1) + if types[n - 1].StringColumn? then ValueBytes(At(row, n - 1)) else 0
  }

  ghost predicate HasStrings(types: seq<ColumnType>, n: nat)
    requires n <= |types|
  {
    exists i :: 0 <= i < n && types[i].StringColumn?
  }

  /** The sizes of the rows of a batch. */
  ghost predicate AreRowSizes(types: seq<ColumnType>, rows: seq<Row>, sizes: seq<nat>) {
    |sizes| == |rows| && forall r | 0 <= r < |rows| ::
      sizes[r] == StringBytes(types, rows[r], |types|) + FixedBytes(types, |types|)
  }

  /** The strings of a row in its string columns, one after the other. */
  ghost function Joined(types: seq<ColumnType>, row: Row, n: nat): string
    requires n <= |types|
  {
    if n == 0 then ""
    else Joined(types, row, n - 1) +
         match (types[n - 1], At(row, n - 1)) case (StringColumn, Str(chars)) => chars case _ => ""
  }

  /** The string bytes of a row are the characters of all its strings. */
  lemma {:induction false} StringBytesMean(types: seq<ColumnType>, row: Row, n: nat)
    requires n <= |types|
    ensures StringBytes(types, row, n) == |Joined(types, row, n)|
  {
    if n > 0 {
      StringBytesMean(types, row, n - 1);
    }
  }

  method GetRowSizes(types: seq<ColumnType>, rows: seq<Row>)
    returns (hasStringCol: bool, stringSizes: seq<nat>, otherSize: nat)
    ensures hasStringCol <==> HasStrings(types, |types|)
    ensures |stringSizes| == |rows| &&
            forall r | 0 <= r < |rows| ::
              stringSizes[r] == StringBytes(types, rows[r], |types|) == |Joined(types, rows[r], |types|)|
    ensures otherSize == FixedBytes(types, |types|)
  {
    hasStringCol, otherSize := false, 0;
    stringSizes := seq(|rows|, _ => 0);
    for col := 0 to |types|
      invariant hasStringCol <==> HasStrings(types, col)
      invariant |stringSizes| == |rows| &&
                forall r | 0 <= r < |rows| :: stringSizes[r] == StringBytes(types, rows[r], col)
      invariant otherSize == FixedBytes(types, col)
    {
      if types[col].FixedColumn? {
        otherSize := otherSize + types[col].width;
      } else {
        hasStringCol := true;
        for row := 0 to |rows|
          invariant |stringSizes| == |rows|
          invariant forall r | 0 <= r < row :: stringSizes[r] == StringBytes(types, rows[r], col + 1)
          invariant forall r | row <= r < |rows| :: stringSizes[r] == StringBytes(types, rows[r], col)
        {
          stringSizes := stringSizes[row := stringSizes[row] + ValueBytes(At(rows[row], col))];
        }
      }
    }
    forall r | 0 <= r < |rows| ensures StringBytes(types, rows[r], |types|) == |Joined(types, rows[r], |types|)| {
      StringBytesMean(types, rows[r], |types|);
    }
  }

  lemma {:induction false} NoStringBytes(types: seq<ColumnType>, row: Row, n: nat)
    requires n <= |types| && !HasStrings(types, n)
    ensures StringBytes(types, row, n) == 0
  {
    if n > 0 {
      assert !types[n - 1].StringColumn?;
      assert !HasStrings(types, n - 1);
      NoStringBytes(types, row, n - 1);
    }
  }

  /** The sizes of the batches to send; without string columns by division. */
  method SplitBatchSizes(hasStringCol: bool, stringSizes: seq<nat>, otherSize: nat, target: nat, ghost sizes: seq<nat>)
    returns (split: seq<nat>)
    requires sizes != [] && |sizes| == |stringSizes| &&
             forall r | 0 <= r < |sizes| :: sizes[r] == stringSizes[r] + otherSize
    requires !hasStringCol ==> otherSize > 0 && Uniform(stringSizes, 0)
    ensures IsGreedy(sizes, target, split)
  {
    if hasStringCol {
      var rowSizes := seq(|stringSizes|, r requires 0 <= r < |stringSizes| => stringSizes[r] + otherSize);
      assert rowSizes == sizes;
      split := SplitGreedily(rowSizes, target);
    } else {
      split := SplitEvenly(seq(|stringSizes|, _ => otherSize), target, otherSize);
      assert sizes == seq(|stringSizes|, _ => otherSize);
    }
  }

  // ---- Sending the slices ----

  function Slice(rows: seq<Row>, a: nat, b: nat): seq<Row> { if a <= b <= |rows| then rows[a..b] else [] }

  /** Batch `k` of what was sent: the rows of its slice, with the markers on the last one only. */
  ghost predicate IsSlice(rb: RowBatch<Row>, split: seq<nat>, out: RowBatch<Row>, k: nat)
    requires k < |split|
  {
    && out.rows == Slice(rb.rows, Total(split, k), Total(split, k + 1))
    && out.eow == (rb.eow && k == |split| - 1) && out.eos == (rb.eos && k == |split| - 1)
  }

  ghost predicate AreSlices(rb: RowBatch<Row>, split: seq<nat>, sent: seq<RowBatch<Row>>) {
    |sent| <= |split| && forall k | 0 <= k < |sent| :: IsSlice(rb, split, sent[k], k)
  }

  lemma {:induction false} SlicesConcat(rb: RowBatch<Row>, split: seq<nat>, sent: seq<RowBatch<Row>>)
    requires AreSlices(rb, split, sent) && Total(split, |split|) == |rb.rows|
    ensures Rows(sent) == Slice(rb.rows, 0, Total(split, |sent|))
    decreases |sent|
  {
    TotalGrows(split, |sent|, |split|);
    if sent != [] {
      var n := |sent| - 1;
      TotalGrows(split, n, n + 1);
      SlicesConcat(rb, split, sent[..n]);
      assert IsSlice(rb, split, sent[n], n);
    }
  }

  method SendSlices(rb: RowBatch<Row>, split: seq<nat>) returns (sent: seq<RowBatch<Row>>)
    requires split != [] && Total(split, |split|) == |rb.rows|
    ensures |sent| == |split| && AreSlices(rb, split, sent) && Rows(sent) == rb.rows
  {
    sent := [];
    var batchIdx := 0;
    for idx := 0 to |split| - 1
      invariant |sent| == idx && batchIdx == Total(split, idx) && AreSlices(rb, split, sent)
    {
      TotalGrows(split, idx + 1, |split|);
      sent := sent + [RowBatch(rb.rows[batchIdx..batchIdx + split[idx]], false, false)];
      batchIdx := batchIdx + split[idx];
    }
    TotalGrows(split, |split| - 1, |split|);
    sent := sent + [RowBatch(rb.rows[batchIdx..], rb.eow, rb.eos)];
    SlicesConcat(rb, split, sent);
    TakeAll(rb.rows);
  }

  /** Send a batch in slices: they concatenate to the batch, fit the target, and as few as possible are sent. */
  method SplitAndSendBatch(types: seq<ColumnType>, rb: RowBatch<Row>, target: nat)
    returns (sent: seq<RowBatch<Row>>, ghost sizes: seq<nat>, ghost split: seq<nat>)
    requires rb.rows != [] && (HasStrings(types, |types|) || FixedBytes(types, |types|) > 0)
    ensures AreRowSizes(types, rb.rows, sizes) && IsGreedy(sizes, target, split)
    ensures |sent| == |split| && AreSlices(rb, split, sent) && Rows(sent) == rb.rows
  {
    var hasStringCol, stringSizes, otherSize := GetRowSizes(types, rb.rows);
    sizes := seq(|stringSizes|, r requires 0 <= r < |stringSizes| => stringSizes[r] + otherSize);
    if !hasStringCol {
      forall r | 0 <= r < |stringSizes| ensures stringSizes[r] == 0 {
        NoStringBytes(types, rb.rows[r], |types|);
      }
    }
    var numRows := SplitBatchSizes(hasStringCol, stringSizes, otherSize, target, sizes);
    split := numRows;
    sent := SendSlices(rb, numRows);
  }
}
