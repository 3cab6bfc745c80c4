/**
 The reference behaviour of the time-ordered union: a stable k-way merge of the parent streams,
 defined without reference to batches, cursors or arrival order.
 */
module TimeMerge {
  import opened Basics
  import opened RowBatches

  /** A row as the union sees it: its time and the output columns it contributes. */
  datatype Item = Item(time: int, out: Row)

  /** An item together with the parent it came from. */
  datatype Tagged = Tagged(parent: nat, item: Item)

  ghost predicate Before(a: Tagged, b: Tagged) {
    a.item.time < b.item.time || (a.item.time == b.item.time && a.parent < b.parent)
  }

  ghost predicate NotAfter(a: Tagged, b: Tagged) {
    a.item.time < b.item.time || (a.item.time == b.item.time && a.parent <= b.parent)
  }

  ghost function Head(ss: seq<seq<Item>>, p: nat): Tagged
    requires p < |ss| && ss[p] != []
  {
    Tagged(p, ss[p][0])
  }

  /** Parent `p` holds the least head by (time, parent index). */
  ghost predicate IsNext(ss: seq<seq<Item>>, p: nat) {
    p < |ss| && ss[p] != [] &&
    forall q: nat | q < |ss| && q != p && ss[q] != [] :: Before(Head(ss, p), Head(ss, q))
  }

  ghost predicate AllEmpty(ss: seq<seq<Item>>) {
    forall p: nat | p < |ss| :: ss[p] == []
  }

  ghost function Total(ss: seq<seq<Item>>): nat {
    if ss == [] then 0 else |ss[|ss| - 1]| + Total(ss[..|ss| - 1])
  }

  ghost function DropHead(ss: seq<seq<Item>>, p: nat): (r: seq<seq<Item>>)
    requires p < |ss| && ss[p] != []
    ensures |r| == |ss|
  {
    ss[p := ss[p][1..]]
  }

  lemma {:induction false} TotalUpdate(ss: seq<seq<Item>>, p: nat, s: seq<Item>)
    requires p < |ss|
    ensures Total(ss[p := s]) == Total(ss) - |ss[p]| + |s|
  {
    var n := |ss| - 1;
    if p == n {
      assert ss[p := s][..n] == ss[..n];
    } else {
      assert ss[p := s][..n] == ss[..n][p := s];
      TotalUpdate(ss[..n], p, s);
    }
  }

  lemma {:induction false} NextExists(ss: seq<seq<Item>>)
    requires !AllEmpty(ss)
    ensures exists p: nat :: IsNext(ss, p)
  {
    var n: nat := |ss| - 1;
    var init := ss[..n];
    assert forall q: nat | q < n :: ss[q] == init[q];
    if AllEmpty(init) {
      assert IsNext(ss, n);
    } else {
      NextExists(init);
      var p: nat :| IsNext(init, p);
      assert forall q: nat | q < n && ss[q] != [] :: Head(ss, q) == Head(init, q);
      if ss[n] != [] && Before(Head(ss, n), Head(ss, p)) {
        assert IsNext(ss, n);
      } else {
        assert IsNext(ss, p);
      }
    }
  }

  ghost function Next(ss: seq<seq<Item>>): (p: nat)
    requires !AllEmpty(ss)
    ensures IsNext(ss, p)
  {
    NextExists(ss);
    var p: nat :| IsNext(ss, p);
    p
  }

  lemma NextUnique(ss: seq<seq<Item>>, p: nat, q: nat)
    requires IsNext(ss, p) && IsNext(ss, q)
    ensures p == q
  {
  }

  /** Repeatedly take the least head. */
  ghost function Merge(ss: seq<seq<Item>>): seq<Tagged>
    decreases Total(ss)
  {
    if AllEmpty(ss) then []
    else
      var p := Next(ss);
      TotalUpdate(ss, p, ss[p][1..]);
      [Head(ss, p)] + Merge(DropHead(ss, p))
  }

  lemma MergeStep(ss: seq<seq<Item>>, p: nat)
    requires IsNext(ss, p)
    ensures Merge(ss) == [Head(ss, p)] + Merge(DropHead(ss, p))
    ensures Total(DropHead(ss, p)) < Total(ss)
  {
    TotalUpdate(ss, p, ss[p][1..]);
    NextUnique(ss, p, Next(ss));
  }

  // ---- What the merge is: sorted, and each parent's stream in its own order ----

  ghost predicate SortedByTime(s: seq<Item>) {
    forall i, j | 0 <= i < j < |s| :: s[i].time <= s[j].time
  }

  ghost predicate SortedTagged(t: seq<Tagged>) {
    forall i, j | 0 <= i < j < |t| :: NotAfter(t[i], t[j])
  }

  /** The items of one parent, in the order in which they appear. */
  ghost function FromParent(t: seq<Tagged>, p: nat): seq<Item> {
    if t == [] then []
    else (if t[0].parent == p then [t[0].item] else []) + FromParent(t[1..], p)
  }

  /** `t` is a stable interleaving of the streams sorted by (time, parent index, arrival). */
  ghost predicate IsStableMerge(t: seq<Tagged>, ss: seq<seq<Item>>) {
    && SortedTagged(t)
    && (forall i | 0 <= i < |t| :: t[i].parent < |ss|)
    && (forall p: nat | p < |ss| :: FromParent(t, p) == ss[p])
  }

  ghost predicate AllSorted(ss: seq<seq<Item>>) {
    forall p: nat | p < |ss| :: SortedByTime(ss[p])
  }

  /** Every tagged item of a merge is bounded below by the current least head. */
  ghost predicate Bounds(lo: Tagged, t: seq<Tagged>) {
    forall i | 0 <= i < |t| :: NotAfter(lo, t[i])
  }

  lemma {:induction false} MergeBounded(ss: seq<seq<Item>>, lo: Tagged)
    requires AllSorted(ss)
    requires forall p: nat | p < |ss| && ss[p] != [] :: NotAfter(lo, Head(ss, p))
    ensures Bounds(lo, Merge(ss))
    decreases Total(ss)
  {
    if !AllEmpty(ss) {
      var p := Next(ss);
      MergeStep(ss, p);
      var rest := DropHead(ss, p);
      forall q: nat | q < |rest| && rest[q] != [] ensures NotAfter(lo, Head(rest, q)) {
        assert ss[q] != [] && NotAfter(lo, Head(ss, q));
        if q == p { assert ss[p][0].time <= ss[p][1].time; }
      }
      assert forall q: nat | q < |rest| :: SortedByTime(rest[q]) by { DropKeepsSorted(ss, p); }
      MergeBounded(rest, lo);
    }
  }

  lemma DropKeepsSorted(ss: seq<seq<Item>>, p: nat)
    requires p < |ss| && ss[p] != [] && AllSorted(ss)
    ensures AllSorted(DropHead(ss, p))
  {
    assert SortedByTime(ss[p]);
  }

  /** The next head comes before everything that is merged after it. */
  lemma HeadBoundsRest(ss: seq<seq<Item>>, p: nat)
    requires AllSorted(ss) && IsNext(ss, p)
    ensures Bounds(Head(ss, p), Merge(DropHead(ss, p)))
  {
    var rest := DropHead(ss, p);
    DropKeepsSorted(ss, p);
    forall q: nat | q < |rest| && rest[q] != [] ensures NotAfter(Head(ss, p), Head(rest, q)) {
      if q == p { assert SortedByTime(ss[p]) && ss[p][0].time <= ss[p][1].time; }
      else { assert ss[q] != [] && Before(Head(ss, p), Head(ss, q)); }
    }
    MergeBounded(rest, Head(ss, p));
  }

  lemma SortedCons(x: Tagged, t: seq<Tagged>)
    requires SortedTagged(t) && Bounds(x, t)
    ensures SortedTagged([x] + t)
  {
    var s := [x] + t;
    forall i, j | 0 <= i < j < |s| ensures NotAfter(s[i], s[j]) {
      if i > 0 { assert NotAfter(t[i - 1], t[j - 1]); }
    }
  }

  lemma {:induction false} MergeSorted(ss: seq<seq<Item>>)
    requires AllSorted(ss)
    ensures SortedTagged(Merge(ss))
    decreases Total(ss)
  {
    if !AllEmpty(ss) {
      var p := Next(ss);
      MergeStep(ss, p);
      DropKeepsSorted(ss, p);
      MergeSorted(DropHead(ss, p));
      HeadBoundsRest(ss, p);
      SortedCons(Head(ss, p), Merge(DropHead(ss, p)));
    }
  }

  lemma FromParentCons(x: Tagged, t: seq<Tagged>, q: nat)
    ensures FromParent([x] + t, q) == (if x.parent == q then [x.item] else []) + FromParent(t, q)
  {
    assert ([x] + t)[1..] == t;
  }

  lemma {:induction false} MergeFromParent(ss: seq<seq<Item>>, q: nat)
    requires q < |ss|
    ensures FromParent(Merge(ss), q) == ss[q]
    decreases Total(ss)
  {
    if !AllEmpty(ss) {
      var p := Next(ss);
      MergeStep(ss, p);
      MergeFromParent(DropHead(ss, p), q);
      FromParentCons(Head(ss, p), Merge(DropHead(ss, p)), q);
    }
  }

  lemma {:induction false} MergeParents(ss: seq<seq<Item>>)
    ensures forall i | 0 <= i < |Merge(ss)| :: Merge(ss)[i].parent < |ss|
    decreases Total(ss)
  {
    if !AllEmpty(ss) {
      var p := Next(ss);
      MergeStep(ss, p);
      MergeParents(DropHead(ss, p));
    }
  }

  /** The merge of time-sorted streams is a stable sorted interleaving of them. */
  lemma MergeIsStable(ss: seq<seq<Item>>)
    requires AllSorted(ss)
    ensures IsStableMerge(Merge(ss), ss)
  {
    MergeSorted(ss);
    MergeParents(ss);
    forall p: nat | p < |ss| ensures FromParent(Merge(ss), p) == ss[p] {
      MergeFromParent(ss, p);
    }
  }

  lemma {:induction false} FromParentHead(t: seq<Tagged>, p: nat) returns (i: nat)
    requires FromParent(t, p) != []
    ensures i < |t| && t[i] == Tagged(p, FromParent(t, p)[0])
  {
    if t[0].parent == p {
      i := 0;
    } else {
      i := FromParentHead(t[1..], p);
      i := i + 1;
    }
  }

  lemma StableHeadIsNext(t: seq<Tagged>, ss: seq<seq<Item>>)
    requires IsStableMerge(t, ss) && t != []
    ensures IsNext(ss, t[0].parent) && Head(ss, t[0].parent) == t[0]
  {
    var p := t[0].parent;
    assert FromParent(t, p) == ss[p];
    forall q: nat | q < |ss| && q != p && ss[q] != [] ensures Before(Head(ss, p), Head(ss, q)) {
      assert FromParent(t, q) == ss[q];
      var i := FromParentHead(t, q);
      assert i > 0 && NotAfter(t[0], t[i]);
    }
  }

  lemma StableTail(t: seq<Tagged>, ss: seq<seq<Item>>)
    requires IsStableMerge(t, ss) && t != []
    requires ss[t[0].parent] != []
    ensures IsStableMerge(t[1..], DropHead(ss, t[0].parent))
  {
    var p, rest := t[0].parent, t[1..];
    assert forall i | 0 <= i < |rest| :: rest[i] == t[i + 1];
    forall q: nat | q < |ss| ensures FromParent(rest, q) == DropHead(ss, p)[q] {
      assert FromParent(t, q) == ss[q];
      assert FromParent(t, q) == (if t[0].parent == q then [t[0].item] else []) + FromParent(rest, q);
    }
  }

  lemma NothingStable(ss: seq<seq<Item>>)
    requires IsStableMerge([], ss)
    ensures Merge(ss) == []
  {
    forall p: nat | p < |ss| ensures ss[p] == [] {
      assert FromParent([], p) == ss[p];
    }
  }

  lemma StableStep(t: seq<Tagged>, ss: seq<seq<Item>>)
    requires IsStableMerge(t, ss) && t != []
    ensures t[0].parent < |ss| && ss[t[0].parent] != [] && IsStableMerge(t[1..], DropHead(ss, t[0].parent))
    ensures t[1..] == Merge(DropHead(ss, t[0].parent)) ==> t == Merge(ss)
  {
    StableHeadIsNext(t, ss);
    StableTail(t, ss);
    MergeStep(ss, t[0].parent);
  }

  /** There is only one stable sorted interleaving, so the merge is determined by the streams. */
  lemma {:induction false} StableMergeUnique(t: seq<Tagged>, ss: seq<seq<Item>>)
    requires IsStableMerge(t, ss)
    ensures t == Merge(ss)
    decreases |t|
  {
    if t == [] {
      NothingStable(ss);
    } else {
      StableStep(t, ss);
      StableMergeUnique(t[1..], DropHead(ss, t[0].parent));
    }
  }

  // ---- Where each item of an interleaving comes from ----

  lemma {:induction false} FromParentAppend(a: seq<Tagged>, b: seq<Tagged>, p: nat)
    ensures FromParent(a + b, p) == FromParent(a, p) + FromParent(b, p)
    decreases |a|
  {
    if a == [] {
      assert a + b == b;
    } else {
      FromParentAppend(a[1..], b, p);
      assert a + b == [a[0]] + (a[1..] + b);
      FromParentCons(a[0], a[1..] + b, p);
      Regroup(if a[0].parent == p then [a[0].item] else [], FromParent(a[1..], p), FromParent(b, p));
    }
  }

  /** How many items of the same parent come before item `k`. */
  ghost function IndexOf(t: seq<Tagged>, k: nat): nat
    requires k < |t|
  {
    |FromParent(t[..k], t[k].parent)|
  }

  /** The items of the parent of item `k`, up to and including it. */
  lemma UpTo(t: seq<Tagged>, k: nat)
    requires k < |t|
    ensures FromParent(t[..k + 1], t[k].parent) == FromParent(t[..k], t[k].parent) + [t[k].item]
  {
    assert t[..k + 1] == t[..k] + [t[k]];
    FromParentAppend(t[..k], [t[k]], t[k].parent);
    assert FromParent([t[k]], t[k].parent) == [t[k].item];
  }

  lemma IndexedItem(t: seq<Tagged>, k: nat)
    requires k < |t|
    ensures IndexOf(t, k) < |FromParent(t, t[k].parent)| && FromParent(t, t[k].parent)[IndexOf(t, k)] == t[k].item
  {
    UpTo(t, k);
    assert t == t[..k + 1] + t[k + 1..];
    FromParentAppend(t[..k + 1], t[k + 1..], t[k].parent);
  }

  lemma IndexGrows(t: seq<Tagged>, j: nat, k: nat)
    requires j < k < |t| && t[j].parent == t[k].parent
    ensures IndexOf(t, j) < IndexOf(t, k)
  {
    UpTo(t, j);
    assert t[..k] == t[..j + 1] + t[j + 1..k];
    FromParentAppend(t[..j + 1], t[j + 1..k], t[j].parent);
  }

  lemma {:induction false} IndexFound(t: seq<Tagged>, p: nat, i: nat) returns (k: nat)
    requires i < |FromParent(t, p)|
    ensures k < |t| && t[k].parent == p && IndexOf(t, k) == i
  {
    var init, last := t[..|t| - 1], t[|t| - 1];
    assert t == init + [last];
    FromParentAppend(init, [last], p);
    if i < |FromParent(init, p)| {
      k := IndexFound(init, p, i);
      assert t[..k] == init[..k];
    } else {
      k := |t| - 1;
    }
  }

  // ---- Confluence: what may be emitted before the streams are complete ----

  ghost function Extend(ss: seq<seq<Item>>, more: seq<seq<Item>>): (r: seq<seq<Item>>)
    requires |ss| == |more|
    ensures |r| == |ss|
    ensures forall p: nat | p < |ss| :: r[p] == ss[p] + more[p]
  {
    seq(|ss|, (p: nat) requires p < |ss| == |more| => ss[p] + more[p])
  }

  /** A possible continuation: parents that have ended receive nothing further. */
  ghost predicate Future(ended: seq<bool>, more: seq<seq<Item>>) {
    |more| == |ended| && forall p: nat | p < |ended| && ended[p] :: more[p] == []
  }

  /**
   Emitting `merged` so far is right whatever arrives later: completed with the merge of what is
   still buffered, it is the merge of everything that arrived, for every possible continuation.
   */
  ghost predicate Confluent(arrived: seq<seq<Item>>, ended: seq<bool>, merged: seq<Tagged>, left: seq<seq<Item>>) {
    && |arrived| == |ended| == |left|
    && forall more {:trigger Completes(arrived, ended, merged, left, more)} ::
       Completes(arrived, ended, merged, left, more)
  }

  ghost predicate Completes(arrived: seq<seq<Item>>, ended: seq<bool>, merged: seq<Tagged>, left: seq<seq<Item>>,
                            more: seq<seq<Item>>)
    requires |arrived| == |ended| == |left|
  {
    Future(ended, more) ==> merged + Merge(Extend(left, more)) == Merge(Extend(arrived, more))
  }

  lemma ConfluentInitially(n: nat)
    ensures Confluent(seq(n, _ => []), seq(n, _ => false), [], seq(n, _ => []))
  {
  }

  /** The least head stays least, whatever arrives, if only ended parents lack a head. */
  lemma NextOfExtended(ended: seq<bool>, left: seq<seq<Item>>, more: seq<seq<Item>>, p: nat)
    requires |left| == |ended| && Future(ended, more)
    requires IsNext(left, p)
    requires forall q: nat | q < |left| && left[q] == [] :: ended[q]
    ensures IsNext(Extend(left, more), p) && Head(Extend(left, more), p) == Head(left, p)
    ensures DropHead(Extend(left, more), p) == Extend(DropHead(left, p), more)
  {
    var all, rest := Extend(left, more), Extend(DropHead(left, p), more);
    forall q: nat | q < |all| && q != p && all[q] != [] ensures Before(Head(all, p), Head(all, q)) {
      assert left[q] != [];
      assert Before(Head(left, p), Head(left, q));
    }
    assert forall q: nat | q < |left| :: DropHead(all, p)[q] == rest[q];
  }

  /** Appending the least buffered head is safe once every parent that may still send has a head. */
  lemma ConfluentAppend(arrived: seq<seq<Item>>, ended: seq<bool>, merged: seq<Tagged>, left: seq<seq<Item>>, p: nat)
    requires Confluent(arrived, ended, merged, left)
    requires IsNext(left, p)
    requires forall q: nat | q < |left| && left[q] == [] :: ended[q]
    ensures Confluent(arrived, ended, merged + [Head(left, p)], DropHead(left, p))
  {
    var merged', left' := merged + [Head(left, p)], DropHead(left, p);
    forall more ensures Completes(arrived, ended, merged', left', more) {
      if Future(ended, more) {
        assert Completes(arrived, ended, merged, left, more);
        NextOfExtended(ended, left, more, p);
        MergeStep(Extend(left, more), p);
      }
    }
  }

  lemma ExtendArrive(ss: seq<seq<Item>>, more: seq<seq<Item>>, p: nat, items: seq<Item>)
    requires p < |ss| == |more|
    ensures Extend(ss[p := ss[p] + items], more) == Extend(ss, more[p := items + more[p]])
  {
    var a, b := Extend(ss[p := ss[p] + items], more), Extend(ss, more[p := items + more[p]]);
    assert a[p] == b[p];
    assert forall q: nat | q < |ss| :: a[q] == b[q];
  }

  /** Rows arriving on a parent that has not ended only use up part of the continuation. */
  lemma ConfluentArrive(arrived: seq<seq<Item>>, ended: seq<bool>, merged: seq<Tagged>, left: seq<seq<Item>>,
                        p: nat, items: seq<Item>, eos: bool)
    requires Confluent(arrived, ended, merged, left)
    requires p < |arrived| && !ended[p]
    ensures Confluent(arrived[p := arrived[p] + items], ended[p := eos], merged, left[p := left[p] + items])
  {
    var ended', arrived', left' := ended[p := eos], arrived[p := arrived[p] + items], left[p := left[p] + items];
    forall more ensures Completes(arrived', ended', merged, left', more) {
      if Future(ended', more) {
        var more' := more[p := items + more[p]];
        assert forall q: nat | q < |ended| && ended[q] :: ended'[q] && more'[q] == more[q];
        assert Future(ended, more') && Completes(arrived, ended, merged, left, more');
        ExtendArrive(left, more, p, items);
        ExtendArrive(arrived, more, p, items);
      }
    }
  }

  /** Once nothing is buffered and every parent has ended, exactly the merge has been emitted. */
  lemma ConfluentDone(arrived: seq<seq<Item>>, ended: seq<bool>, merged: seq<Tagged>, left: seq<seq<Item>>)
    requires Confluent(arrived, ended, merged, left)
    requires AllEmpty(left)
    requires forall p: nat | p < |ended| :: ended[p]
    ensures merged == Merge(arrived)
  {
    var more: seq<seq<Item>> := seq(|ended|, _ => []);
    assert Future(ended, more) && Completes(arrived, ended, merged, left, more);
    assert AllEmpty(Extend(left, more));
    assert merged + Merge(Extend(left, more)) == merged;
    assert forall p: nat | p < |arrived| :: Extend(arrived, more)[p] == arrived[p];
    assert Extend(arrived, more) == arrived;
  }

  /**
   What was emitted is a prefix of the merge of what arrived, and a parent with nothing buffered has all its items in
   it.
   */
  lemma ConfluentNow(arrived: seq<seq<Item>>, ended: seq<bool>, merged: seq<Tagged>, left: seq<seq<Item>>, p: nat)
    requires Confluent(arrived, ended, merged, left) && p < |left| && left[p] == []
    ensures merged <= Merge(arrived) && FromParent(merged, p) == arrived[p]
  {
    var more: seq<seq<Item>> := seq(|ended|, _ => []);
    assert Future(ended, more) && Completes(arrived, ended, merged, left, more);
    assert forall q: nat | q < |arrived| :: Extend(arrived, more)[q] == arrived[q] && Extend(left, more)[q] == left[q];
    assert Extend(arrived, more) == arrived && Extend(left, more) == left;
    MergeFromParent(arrived, p);
    MergeFromParent(left, p);
    FromParentAppend(merged, Merge(left), p);
  }
}
