/** Row batches and streams of row batches, the unit of exchange between Carnot operators. */
module RowBatches {
  import opened Basics

  /** A column value. Fixed-size values are read as one integer; equality on them is bitwise. */
  datatype Value = Fixed(bits: int) | Str(chars: string)

  datatype Row = Row(cols: seq<Value>)

  /** A column of a row; total so that reference definitions need no width conditions. */
  function At(row: Row, i: nat): Value {
    if i < |row.cols| then row.cols[i] else Fixed(0)
  }

  /** One column of some rows. */
  ghost function ColumnValues(rows: seq<Row>, i: nat): (col: seq<Value>)
    ensures |col| == |rows|
    ensures forall r | 0 <= r < |rows| :: col[r] == At(rows[r], i)
  {
    seq(|rows|, r requires 0 <= r < |rows| => At(rows[r], i))
  }

  lemma ColumnAppend(a: seq<Row>, b: seq<Row>, i: nat)
    ensures ColumnValues(a + b, i) == ColumnValues(a, i) + ColumnValues(b, i)
  {
  }

  /** The values on which rows are matched or grouped. */
  datatype Key = Key(vals: seq<Value>)

  /** Rows together with the end-of-window and end-of-stream markers. */
  datatype RowBatch<R> = RowBatch(rows: seq<R>, eow: bool, eos: bool)

  /** All rows of a stream, in order. */
  function Rows<R>(stream: seq<RowBatch<R>>): seq<R> {
    if stream == [] then [] else Rows(stream[..|stream| - 1]) + stream[|stream| - 1].rows
  }

  /** End of stream appears only on the last batch, and always together with end of window. */
  ghost predicate WellFormedPrefix<R>(stream: seq<RowBatch<R>>) {
    forall i | 0 <= i < |stream| && stream[i].eos :: i == |stream| - 1 && stream[i].eow
  }

  ghost predicate Ended<R>(stream: seq<RowBatch<R>>) {
    stream != [] && stream[|stream| - 1].eos
  }

  /** A finished stream: exactly one end-of-stream batch, and it is the last one. */
  ghost predicate WellFormed<R>(stream: seq<RowBatch<R>>) {
    WellFormedPrefix(stream) && Ended(stream)
  }

  lemma RowsSnoc<R>(stream: seq<RowBatch<R>>, b: RowBatch<R>)
    ensures Rows(stream + [b]) == Rows(stream) + b.rows
  {
    assert (stream + [b])[..|stream|] == stream;
  }

  lemma {:induction false} RowsAppend<R>(a: seq<RowBatch<R>>, b: seq<RowBatch<R>>)
    ensures Rows(a + b) == Rows(a) + Rows(b)
  {
    if b == [] {
      assert a + b == a;
    } else {
      var init := b[..|b| - 1];
      assert (a + b)[..|a + b| - 1] == a + init;
      RowsAppend(a, init);
      Regroup(Rows(a), Rows(init), b[|b| - 1].rows);
    }
  }

  lemma RowsCons<R>(stream: seq<RowBatch<R>>)
    requires stream != []
    ensures Rows(stream) == stream[0].rows + Rows(stream[1..])
  {
    RowsAppend([stream[0]], stream[1..]);
    assert stream == [stream[0]] + stream[1..];
    assert Rows([stream[0]]) == Rows([]) + stream[0].rows;
  }

  // ---- Facts about sequences, stated once so that proofs can cite them ----

  lemma TakeNext<T>(s: seq<T>, i: nat)
    requires i < |s|
    ensures s[..i + 1] == s[..i] + [s[i]]
  {
  }

  lemma TakeAll<T>(s: seq<T>)
    ensures s[..|s|] == s
  {
  }
}
