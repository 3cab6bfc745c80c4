/** Row tuples, the keys of the join and aggregation tables: 16-byte slots that are reused without being cleared. */
module RowTuples {
  import opened Basics

  const SLOT_BYTES: nat := 16

  /** A value: the bytes of a fixed-size one, or a string. */
  datatype Val = Fixed(bytes: seq<Byte>) | Str(chars: string)

  /** One element of the union: a write sets its first bytes and leaves the others. */
  datatype Slot = Slot(bytes: seq<Byte>)

  /** The bytes that a write to a column of this type sets; a string column holds an index as an INT64. */
  function Width(t: DataType): nat {
    match t
    case BOOLEAN => 1
    case UINT128 => 16
    case _ => 8
  }

  ghost predicate HasType(v: Val, t: DataType) {
    if t == STRING then v.Str? else v.Fixed? && |v.bytes| == Width(t)
  }

  ghost predicate HaveTypes(vals: seq<Val>, types: seq<DataType>) {
    |vals| <= |types| && forall i | 0 <= i < |vals| :: HasType(vals[i], types[i])
  }

  // ---- Bytes ----

  function Zeros(n: nat): (z: seq<Byte>)
    ensures |z| == n && forall i | 0 <= i < n :: z[i] == 0
  {
    seq(n, _ => 0)
  }

  /** A number in `n` bytes, least significant first. */
  function ToBytes(x: nat, n: nat): (b: seq<Byte>)
    ensures |b| == n
  {
    if n == 0 then [] else [x % 256] + ToBytes(x / 256, n - 1)
  }

  function FromBytes(b: seq<Byte>): nat {
    if b == [] then 0 else b[0] + 256 * FromBytes(b[1..])
  }

  function Bound(n: nat): nat { if n == 0 then 1 else 256 * Bound(n - 1) }

  lemma {:induction false} BytesRoundTrip(x: nat, n: nat)
    requires x < Bound(n)
    ensures FromBytes(ToBytes(x, n)) == x
  {
    if n > 0 {
      BytesRoundTrip(x / 256, n - 1);
      assert ToBytes(x, n)[1..] == ToBytes(x / 256, n - 1);
    }
  }

  function Overwrite(slot: Slot, bytes: seq<Byte>): Slot
    requires |bytes| <= |slot.bytes|
  {
    Slot(bytes + slot.bytes[|bytes|..])
  }

  // ---- What a tuple stands for ----

  /** The strings among some values, in order. */
  ghost function Strings(vals: seq<Val>): seq<string> {
    if vals == [] then []
    else
      var init, last := vals[..|vals| - 1], vals[|vals| - 1];
      if last.Str? then Strings(init) + [last.chars] else Strings(init)
  }

  /** The number of string columns before column `i`. */
  ghost function StringIndex(types: seq<DataType>, i: nat): nat
    requires i <= |types|
  {
    if i == 0 then 0 else StringIndex(types, i - 1) + if types[i - 1] == STRING then 1 else 0
  }

  /** The slot of a column: its bytes, or the index of its string, and zeros. */
  ghost function SlotOf(types: seq<DataType>, v: Val, i: nat): Slot
    requires i < |types| && HasType(v, types[i])
  {
    var b := if v.Fixed? then v.bytes else ToBytes(StringIndex(types, i), 8);
    Slot(b + Zeros(SLOT_BYTES - |b|))
  }

  /**
   A slot that no value was written to since the reset: whatever was there before, the bytes behind the width are
   zero.
   */
  ghost predicate CleanBehind(slot: Slot, t: DataType) {
    |slot.bytes| == SLOT_BYTES && forall j | Width(t) <= j < SLOT_BYTES :: slot.bytes[j] == 0
  }

  lemma WriteIsSlot(types: seq<DataType>, slot: Slot, v: Val, i: nat)
    requires i < |types| && HasType(v, types[i]) && CleanBehind(slot, types[i])
    ensures var b := if v.Fixed? then v.bytes else ToBytes(StringIndex(types, i), 8);
            Overwrite(slot, b) == SlotOf(types, v, i)
    ensures CleanBehind(SlotOf(types, v, i), types[i])
  {
    var b := if v.Fixed? then v.bytes else ToBytes(StringIndex(types, i), 8);
    assert slot.bytes[|b|..] == Zeros(SLOT_BYTES - |b|);
  }

  lemma StringsSnoc(vals: seq<Val>, v: Val)
    ensures Strings(vals + [v]) == if v.Str? then Strings(vals) + [v.chars] else Strings(vals)
  {
    assert (vals + [v])[..|vals|] == vals;
  }

  lemma {:induction false} StringsCount(types: seq<DataType>, vals: seq<Val>)
    requires HaveTypes(vals, types)
    ensures |Strings(vals)| == StringIndex(types, |vals|)
  {
    if vals != [] {
      StringsCount(types, vals[..|vals| - 1]);
      assert HasType(vals[|vals| - 1], types[|vals| - 1]);
    }
  }

  /** String `i` is found at its index. */
  lemma {:induction false} StringAt(types: seq<DataType>, vals: seq<Val>, i: nat)
    requires HaveTypes(vals, types) && i < |vals| && vals[i].Str?
    ensures StringIndex(types, i) < |Strings(vals)| && Strings(vals)[StringIndex(types, i)] == vals[i].chars
  {
    var init := vals[..|vals| - 1];
    if i == |vals| - 1 {
      StringsCount(types, init);
    } else {
      StringAt(types, init, i);
    }
  }

  lemma {:induction false} IndexBound(types: seq<DataType>, i: nat)
    requires i <= |types|
    ensures StringIndex(types, i) <= i
  {
    if i > 0 {
      IndexBound(types, i - 1);
    }
  }

  /** Column `i` of a tuple with some values written. */
  ghost predicate SlotOk(types: seq<DataType>, slot: Slot, written: seq<Val>, i: nat)
    requires i < |types| && HaveTypes(written, types)
  {
    CleanBehind(slot, types[i]) && (i < |written| ==> slot == SlotOf(types, written[i], i))
  }

  lemma WriteKeeps(types: seq<DataType>, slot: Slot, written: seq<Val>, v: Val, i: nat)
    requires |written| < |types| && HaveTypes(written, types) && HasType(v, types[|written|]) && i < |types|
    requires SlotOk(types, slot, written, i) && (i == |written| ==> slot == SlotOf(types, v, i))
    ensures HaveTypes(written + [v], types) && SlotOk(types, slot, written + [v], i)
  {
  }

  ghost predicate SlotsOk(types: seq<DataType>, slots: seq<Slot>, written: seq<Val>)
    requires HaveTypes(written, types)
  {
    |slots| == |types| && forall i | 0 <= i < |types| :: SlotOk(types, slots[i], written, i)
  }

  /** Writing the next column keeps the other slots. */
  lemma WriteNext(types: seq<DataType>, slots: seq<Slot>, written: seq<Val>, v: Val, slot: Slot)
    requires |written| < |types| && HaveTypes(written, types) && HasType(v, types[|written|])
    requires SlotsOk(types, slots, written)
    requires slot == SlotOf(types, v, |written|) && CleanBehind(slot, types[|written|])
    ensures HaveTypes(written + [v], types) && SlotsOk(types, slots[|written| := slot], written + [v])
  {
    var now := slots[|written| := slot];
    forall i | 0 <= i < |types| ensures HaveTypes(written + [v], types) && SlotOk(types, now[i], written + [v], i) {
      assert SlotOk(types, slots[i], written, i);
      WriteKeeps(types, now[i], written, v, i);
    }
  }

  // ---- Hashing ----

  /** The hash of the strings folded onto the hash of the slots. */
  function FoldHash(h: nat, strings: seq<string>, combine: (nat, string) -> nat): nat {
    if strings == [] then h else combine(FoldHash(h, strings[..|strings| - 1], combine), strings[|strings| - 1])
  }

  ghost function Slots(types: seq<DataType>, vals: seq<Val>): seq<Slot>
    requires HaveTypes(vals, types)
  {
    seq(|vals|, i requires 0 <= i < |vals| => SlotOf(types, vals[i], i))
  }

  /** The hash as a function of the column values alone. */
  ghost function HashOf(types: seq<DataType>, vals: seq<Val>, hash64: seq<Slot> -> nat,
                        combine: (nat, string) -> nat): nat
    requires HaveTypes(vals, types)
  {
    FoldHash(hash64(Slots(types, vals)), Strings(vals), combine)
  }

  // ---- The tuple ----

  class RowTuple {
    const types: seq<DataType>
    var fixedValues: seq<Slot>
    var variableValues: seq<string>
    /** The values written since the last reset, in column order. */
    ghost var written: seq<Val>

    ghost predicate Valid()
      reads this
    {
      && |types| < Bound(8) && HaveTypes(written, types)
      && variableValues == Strings(written) && SlotsOk(types, fixedValues, written)
    }

    constructor (types: seq<DataType>)
      requires |types| < Bound(8)
      ensures Valid() && written == [] && this.types == types
    {
      this.types := types;
      fixedValues := seq(|types|, _ => Slot(Zeros(SLOT_BYTES)));
      variableValues := [];
      written := [];
    }

    /** Forget the values; the slots keep their bytes. */
    method Reset()
      requires Valid()
      modifies this
      ensures Valid() && written == [] && fixedValues == old(fixedValues)
    {
      variableValues := [];
      ghost var was := written;
      written := [];
      forall i | 0 <= i < |types| ensures SlotOk(types, fixedValues[i], [], i) {
        assert SlotOk(types, fixedValues[i], was, i);
      }
    }

    /** Write the next column. */
    method SetValue(idx: nat, v: Val)
      requires Valid() && idx == |written| < |types| && HasType(v, types[idx])
      modifies this
      ensures Valid() && written == old(written) + [v]
    {
      StringsCount(types, written);
      assert SlotOk(types, fixedValues[idx], written, idx);
      WriteIsSlot(types, fixedValues[idx], v, idx);
      WriteNext(types, fixedValues, written, v, SlotOf(types, v, idx));
      StringsSnoc(written, v);
      var bytes := if v.Fixed? then v.bytes else ToBytes(|variableValues|, 8);
      fixedValues := fixedValues[idx := Overwrite(fixedValues[idx], bytes)];
      if v.Str? {
        variableValues := variableValues + [v.chars];
      }
      written := written + [v];
    }

    /** Read a column back. */
    method GetValue(idx: nat) returns (v: Val)
      requires Valid() && idx < |written|
      ensures v == written[idx]
    {
      assert SlotOk(types, fixedValues[idx], written, idx) && HasType(written[idx], types[idx]);
      var slot := fixedValues[idx].bytes;
      if types[idx] == STRING {
        StringAt(types, written, idx);
        IndexBound(types, idx);
        ghost var index := StringIndex(types, idx);
        assert slot[..8] == ToBytes(index, 8);
        BytesRoundTrip(index, 8);
        v := Str(variableValues[FromBytes(slot[..8])]);
      } else {
        v := Fixed(slot[..Width(types[idx])]);
        assert v.bytes == written[idx].bytes;
      }
    }

    /** The slots of a fully written tuple are a function of its values. */
    lemma FullSlots()
      requires Valid() && |written| == |types|
      ensures fixedValues == Slots(types, written)
    {
      forall i | 0 <= i < |types| ensures fixedValues[i] == Slots(types, written)[i] {
        assert SlotOk(types, fixedValues[i], written, i);
      }
    }

    /** Compare bytes, then strings; for fully written tuples of the same types this compares the values. */
    method Equals(other: RowTuple) returns (eq: bool)
      requires Valid() && other.Valid() && types == other.types && |written| == |types| && |other.written| == |types|
      ensures eq <==> written == other.written
    {
      FullSlots();
      other.FullSlots();
      StringsCount(types, written);
      StringsCount(types, other.written);
      if fixedValues != other.fixedValues {
        return false;
      }
      for i := 0 to |variableValues|
        invariant forall j | 0 <= j < i :: variableValues[j] == other.variableValues[j]
      {
        if variableValues[i] != other.variableValues[i] {
          return false;
        }
      }
      assert variableValues == other.variableValues;
      SameContents(types, written, other.written);
      return true;
    }

    method Hash(hash64: seq<Slot> -> nat, combine: (nat, string) -> nat) returns (h: nat)
      requires Valid() && |written| == |types|
      ensures h == HashOf(types, written, hash64, combine)
    {
      FullSlots();
      h := hash64(fixedValues);
      for i := 0 to |variableValues|
        invariant h == FoldHash(hash64(fixedValues), variableValues[..i], combine)
      {
        h := combine(h, variableValues[i]);
        assert variableValues[..i + 1][..i] == variableValues[..i];
      }
      assert variableValues[..|variableValues|] == variableValues;
    }

    /** The string indexes run through 0, 1, 2 and so on. */
    method CheckSequentialWriteOrder() returns (ok: bool)
      requires Valid() && |written| == |types|
      ensures ok
    {
      var expected := 0;
      for idx := 0 to |fixedValues|
        invariant expected == StringIndex(types, idx)
      {
        if types[idx] == STRING {
          assert SlotOk(types, fixedValues[idx], written, idx) && HasType(written[idx], types[idx]);
          IndexBound(types, idx);
          assert fixedValues[idx].bytes[..8] == ToBytes(expected, 8);
          BytesRoundTrip(expected, 8);
          if FromBytes(fixedValues[idx].bytes[..8]) != expected {
            return false;
          }
          expected := expected + 1;
        }
      }
      return true;
    }

    /** Reuse the tuple for a new row: reset it and write all columns in order. */
    method Fill(vals: seq<Val>)
      requires Valid() && |vals| == |types| && HaveTypes(vals, types)
      modifies this
      ensures Valid() && written == vals
    {
      Reset();
      for i := 0 to |vals|
        invariant Valid() && written == vals[..i]
      {
        assert HasType(vals[i], types[i]);
        SetValue(i, vals[i]);
        assert vals[..i + 1] == vals[..i] + [vals[i]];
      }
      assert vals[..|vals|] == vals;
    }
  }

  /** Equal slots and equal strings mean equal values. */
  lemma {:induction false} SameContents(types: seq<DataType>, a: seq<Val>, b: seq<Val>)
    requires HaveTypes(a, types) && HaveTypes(b, types) && |a| == |b| == |types|
    requires Slots(types, a) == Slots(types, b) && Strings(a) == Strings(b)
    ensures a == b
  {
    forall i | 0 <= i < |types| ensures a[i] == b[i] {
      assert HasType(a[i], types[i]) && HasType(b[i], types[i]);
      if types[i] == STRING {
        StringAt(types, a, i);
        StringAt(types, b, i);
      } else {
        assert Slots(types, a)[i] == Slots(types, b)[i];
        assert SlotOf(types, a[i], i).bytes[..Width(types[i])] == a[i].bytes;
        assert SlotOf(types, b[i], i).bytes[..Width(types[i])] == b[i].bytes;
      }
    }
  }

  /** A tuple that was filled with some rows, one after the other. */
  method Pooled(types: seq<DataType>, rows: seq<seq<Val>>) returns (t: RowTuple)
    requires |types| < Bound(8) && rows != []
    requires forall i | 0 <= i < |rows| :: |rows[i]| == |types| && HaveTypes(rows[i], types)
    ensures fresh(t) && t.Valid() && t.types == types && t.written == rows[|rows| - 1]
  {
    t := new RowTuple(types);
    for i := 0 to |rows|
      invariant t.Valid() && t.types == types && fresh(t) && (i > 0 ==> t.written == rows[i - 1])
    {
      t.Fill(rows[i]);
    }
  }

  /**
   Two tuples that each went through any history of fills agree on the rows they were filled with last: they compare
   equal exactly when those rows are equal, and then they hash equally.
   */
  method ComparePooled(types: seq<DataType>, first: seq<seq<Val>>, second: seq<seq<Val>>,
                       hash64: seq<Slot> -> nat, combine: (nat, string) -> nat)
    returns (eq: bool, h1: nat, h2: nat)
    requires |types| < Bound(8) && first != [] && second != []
    requires forall i | 0 <= i < |first| :: |first[i]| == |types| && HaveTypes(first[i], types)
    requires forall i | 0 <= i < |second| :: |second[i]| == |types| && HaveTypes(second[i], types)
    ensures eq <==> first[|first| - 1] == second[|second| - 1]
    ensures eq ==> h1 == h2
  {
    var a := Pooled(types, first);
    var b := Pooled(types, second);
    eq := a.Equals(b);
    h1 := a.Hash(hash64, combine);
    h2 := b.Hash(hash64, combine);
  }
}
