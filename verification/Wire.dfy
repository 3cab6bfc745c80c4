/** The field level of the wire format: tags, length-delimited values, and skipping fields that are not known. */
module Wire {
  import opened Basics
  import opened Varints

  // ---- Conversions of a 64-bit word ----

  function ToInt64(u: nat): int { if u < TWO_63 then u else u - TWO_64 }

  // ---- Tags and length-delimited values ----

  datatype Tag = Tag(num: nat, wireType: nat, size: nat) | BadTag(error: Error)

  function ReadTag(s: seq<Byte>): Tag {
    var v := DecodeVarint(s);
    if v.BadVarint? then BadTag(v.error)
    else
      var num, wireType := ToInt32(v.value / 8), v.value % 8;
      if wireType == 4 then BadTag(EndGroupForNonGroup)
      else if num <= 0 then BadTag(IllegalTag)
      else Tag(num, wireType, v.size)
  }

  datatype Delimited = Delimited(data: seq<Byte>, size: nat) | BadDelimited(error: Error)

  /** A length and that many bytes, read at absolute position `pos`; a length that overflows the index is invalid. */
  function ReadDelimited(s: seq<Byte>, pos: nat): Delimited {
    var v := DecodeVarint(s);
    if v.BadVarint? then BadDelimited(v.error)
    else if ToInt64(v.value) < 0 || pos + v.size + v.value >= TWO_63 then BadDelimited(InvalidLength)
    else if v.size + v.value > |s| then BadDelimited(UnexpectedEOF)
    else Delimited(s[v.size..v.size + v.value], v.size + v.value)
  }

  // ---- Skipping ----

  /** One element of a field to skip: its size and the group depth after it. */
  datatype Element = Element(size: nat, depth: nat) | BadElement(error: Error)

  function SizedElement(at: nat, size: nat, depth: nat): Element {
    if at + size >= TWO_63 then BadElement(InvalidLength) else Element(size, depth)
  }

  /** The element behind a tag of `n` bytes, according to its wire type. */
  function ReadElementOf(wireType: nat, n: nat, rest: seq<Byte>, at: nat, depth: nat): Element {
    match wireType
    case 0 =>
      var v := DecodeVarint(rest);
      if v.BadVarint? then BadElement(v.error) else SizedElement(at, n + v.size, depth)
    case 1 => SizedElement(at, n + 8, depth)
    case 2 =>
      var v := DecodeVarint(rest);
      if v.BadVarint? then BadElement(v.error)
      else if ToInt64(v.value) < 0 then BadElement(InvalidLength)
      else SizedElement(at, n + v.size + v.value, depth)
    case 3 => SizedElement(at, n, depth + 1)
    case 4 => if depth == 0 then BadElement(UnexpectedEndOfGroup) else SizedElement(at, n, depth - 1)
    case 5 => SizedElement(at, n + 4, depth)
    case _ => BadElement(IllegalWireType)
  }

  function ReadElement(s: seq<Byte>, at: nat, depth: nat): Element {
    var tag := DecodeVarint(s);
    if tag.BadVarint? then BadElement(tag.error)
    else ReadElementOf(tag.value % 8, tag.size, Drop(s, tag.size), at, depth)
  }

  /** What is left after `n` bytes; a fixed-size or delimited value may claim more than there is. */
  function Drop(s: seq<Byte>, n: nat): seq<Byte> { if n <= |s| then s[n..] else [] }

  /** The index after the field that starts at the front, or an error. */
  datatype Skipped = Skipped(end: nat) | BadSkip(error: Error)

  /** How single elements are read. */
  type Reader = (seq<Byte>, nat, nat) -> Element

  /** Skip elements until the group depth is back at zero; `at` is the index of the front. */
  function SkipWith(read: Reader, s: seq<Byte>, at: nat, depth: nat): Skipped
    decreases |s|
  {
    if s == [] then BadSkip(UnexpectedEOF)
    else
      var e := read(s, at, depth);
      if e.BadElement? then BadSkip(e.error)
      else if e.depth == 0 then Skipped(at + e.size)
      else if e.size == 0 then BadSkip(UnexpectedEOF)
      else SkipWith(read, Drop(s, e.size), at + e.size, e.depth)
  }

  function Skip(s: seq<Byte>): Skipped { SkipWith(ReadElement, s, 0, 0) }

  lemma ElementSize(s: seq<Byte>, at: nat, depth: nat)
    requires ReadElement(s, at, depth).Element?
    ensures ReadElement(s, at, depth).size > 0
  {
    ReadVarintSize(s, 0, 0);
  }

  /** One round of the skipping loop: the element at `index`, which must not push the index out of range. */
  method SkipElement(dAtA: seq<Byte>, index: nat, depth: nat) returns (e: Element)
    requires index < |dAtA|
    ensures e == ReadElement(dAtA[index..], index, depth)
  {
    var tag := DecodeVarintAt(dAtA, index);
    if tag.BadVarint? {
      return BadElement(tag.error);
    }
    ReadVarintSize(dAtA[index..], 0, 0);
    var next := index + tag.size;
    assert Drop(dAtA[index..], tag.size) == dAtA[next..];
    var wireType := tag.value % 8;
    var deeper := depth;
    if wireType == 0 {
      var v := DecodeVarintAt(dAtA, next);
      if v.BadVarint? {
        return BadElement(v.error);
      }
      next := next + v.size;
    } else if wireType == 1 {
      next := next + 8;
    } else if wireType == 2 {
      var v := DecodeVarintAt(dAtA, next);
      if v.BadVarint? {
        return BadElement(v.error);
      }
      if ToInt64(v.value) < 0 {
        return BadElement(InvalidLength);
      }
      next := next + v.size + v.value;
    } else if wireType == 3 {
      deeper := depth + 1;
    } else if wireType == 4 {
      if depth == 0 {
        return BadElement(UnexpectedEndOfGroup);
      }
      deeper := depth - 1;
    } else if wireType == 5 {
      next := next + 4;
    } else {
      return BadElement(IllegalWireType);
    }
    if next >= TWO_63 {
      return BadElement(InvalidLength);
    }
    return Element(next - index, deeper);
  }

  /** Elements are read as the format says, and none is empty. */
  ghost predicate ReadsRight(read: Reader, s: seq<Byte>, at: nat, depth: nat) {
    && read(s, at, depth) == ReadElement(s, at, depth)
    && (read(s, at, depth).Element? ==> read(s, at, depth).size > 0)
  }

  lemma RightElements()
    ensures forall s, at, depth :: ReadsRight(ReadElement, s, at, depth)
  {
    forall s, at: nat, depth: nat ensures ReadsRight(ReadElement, s, at, depth) {
      if ReadElement(s, at, depth).Element? {
        ElementSize(s, at, depth);
      }
    }
  }

  method SkipElementAs(dAtA: seq<Byte>, index: nat, depth: nat, ghost read: Reader) returns (e: Element)
    requires index < |dAtA| && forall s, at, depth :: ReadsRight(read, s, at, depth)
    ensures e == read(dAtA[index..], index, depth) && (e.Element? ==> e.size > 0)
  {
    e := SkipElement(dAtA, index, depth);
    assert ReadsRight(read, dAtA[index..], index, depth);
  }

  /** The skipping loop; `read` stands for the reading of one element. */
  method SkipLoop(dAtA: seq<Byte>, ghost read: Reader) returns (r: Skipped)
    requires forall s, at, depth :: ReadsRight(read, s, at, depth)
    ensures r == SkipWith(read, dAtA, 0, 0)
  {
    var index: nat, depth: nat := 0, 0;
    while index < |dAtA|
      invariant SkipWith(read, Drop(dAtA, index), index, depth) == SkipWith(read, dAtA, 0, 0)
      decreases |dAtA| - index
    {
      var e := SkipElementAs(dAtA, index, depth, read);
      if e.BadElement? {
        return BadSkip(e.error);
      }
      if e.depth == 0 {
        return Skipped(index + e.size);
      }
      DropDrop(dAtA, index, e.size);
      index, depth := index + e.size, e.depth;
    }
    return BadSkip(UnexpectedEOF);
  }

  method SkipCarnot(dAtA: seq<Byte>) returns (r: Skipped)
    ensures r == Skip(dAtA)
  {
    RightElements();
    r := SkipLoop(dAtA, ReadElement);
  }

  lemma DropDrop(s: seq<Byte>, a: nat, b: nat)
    ensures Drop(Drop(s, a), b) == Drop(s, a + b)
  {
  }

  // ---- What can be read is read the same whatever follows ----

  lemma TagPrefix(s: seq<Byte>, rest: seq<Byte>)
    requires ReadTag(s).Tag?
    ensures ReadTag(s + rest) == ReadTag(s) && 0 < ReadTag(s).size <= |s|
  {
    ReadVarintPrefix(s, rest, 0, 0);
    ReadVarintSize(s, 0, 0);
  }

  lemma DelimitedPrefix(s: seq<Byte>, rest: seq<Byte>, pos: nat)
    requires ReadDelimited(s, pos).Delimited?
    ensures ReadDelimited(s + rest, pos) == ReadDelimited(s, pos) && ReadDelimited(s, pos).size <= |s|
  {
    ReadVarintPrefix(s, rest, 0, 0);
    ReadVarintSize(s, 0, 0);
    var v := DecodeVarint(s);
    assert (s + rest)[v.size..v.size + v.value] == s[v.size..v.size + v.value];
  }

  lemma DropAppend(s: seq<Byte>, rest: seq<Byte>, n: nat)
    requires n <= |s|
    ensures Drop(s + rest, n) == Drop(s, n) + rest
  {
  }

  lemma ElementPrefix(s: seq<Byte>, rest: seq<Byte>, at: nat, depth: nat)
    requires ReadElement(s, at, depth).Element?
    ensures ReadElement(s + rest, at, depth) == ReadElement(s, at, depth)
  {
    ReadVarintPrefix(s, rest, 0, 0);
    ReadVarintSize(s, 0, 0);
    var tag := DecodeVarint(s);
    DropAppend(s, rest, tag.size);
    if DecodeVarint(Drop(s, tag.size)).Varint? {
      ReadVarintPrefix(Drop(s, tag.size), rest, 0, 0);
    }
  }

  ghost predicate ReadsSame(read: Reader, s: seq<Byte>, rest: seq<Byte>, at: nat, depth: nat) {
    read(s, at, depth).Element? ==> read(s, at, depth).size > 0 && read(s + rest, at, depth) == read(s, at, depth)
  }

  lemma {:induction false} SkipWithPrefix(read: Reader, s: seq<Byte>, rest: seq<Byte>, at: nat, depth: nat)
    requires forall s, rest, at, depth :: ReadsSame(read, s, rest, at, depth)
    requires SkipWith(read, s, at, depth).Skipped? && SkipWith(read, s, at, depth).end <= at + |s|
    ensures SkipWith(read, s + rest, at, depth) == SkipWith(read, s, at, depth) && SkipWith(read, s, at, depth).end > at
    decreases |s|
  {
    var e := read(s, at, depth);
    assert ReadsSame(read, s, rest, at, depth);
    if e.depth != 0 {
      DropAppend(s, rest, e.size);
      SkipWithPrefix(read, Drop(s, e.size), rest, at + e.size, e.depth);
    }
  }

  lemma SkipPrefix(s: seq<Byte>, rest: seq<Byte>)
    requires Skip(s).Skipped? && Skip(s).end <= |s|
    ensures Skip(s + rest) == Skip(s) && Skip(s).end > 0
  {
    forall s, rest, at: nat, depth: nat ensures ReadsSame(ReadElement, s, rest, at, depth) {
      if ReadElement(s, at, depth).Element? {
        ElementSize(s, at, depth);
        ElementPrefix(s, rest, at, depth);
      }
    }
    SkipWithPrefix(ReadElement, s, rest, 0, 0);
  }

  // ---- Well-formed fields of any kind ----

  datatype Field =
    | VarintField(num: nat, value: nat)
    | Fixed64Field(num: nat, bytes: seq<Byte>)
    | BytesField(num: nat, data: seq<Byte>)
    | GroupField(num: nat, fields: seq<Field>)
    | Fixed32Field(num: nat, bytes: seq<Byte>)

  ghost predicate FieldOk(f: Field) {
    && 1 <= f.num < 0x2000_0000
    && match f
       case VarintField(_, value) => value < TWO_64
       case Fixed64Field(_, bytes) => |bytes| == 8
       case BytesField(_, data) => |data| < TWO_63
       case GroupField(_, fields) => FieldsOk(fields)
       case Fixed32Field(_, bytes) => |bytes| == 4
  }

  ghost predicate FieldsOk(fs: seq<Field>) {
    fs == [] || (FieldOk(fs[0]) && FieldsOk(fs[1..]))
  }

  function TagBytes(num: nat, wireType: nat): seq<Byte> { VarintBytes(num * 8 + wireType) }

  ghost function FieldBytes(f: Field): (bytes: seq<Byte>)
    ensures bytes != []
  {
    match f
    case VarintField(num, value) => TagBytes(num, 0) + VarintBytes(value)
    case Fixed64Field(num, bytes) => TagBytes(num, 1) + bytes
    case BytesField(num, data) => TagBytes(num, 2) + (VarintBytes(|data|) + data)
    case GroupField(num, fields) => TagBytes(num, 3) + (FieldsBytes(fields) + TagBytes(num, 4))
    case Fixed32Field(num, bytes) => TagBytes(num, 5) + bytes
  }

  ghost function FieldsBytes(fs: seq<Field>): seq<Byte> {
    if fs == [] then [] else FieldBytes(fs[0]) + FieldsBytes(fs[1..])
  }

  lemma TagRoundTrip(num: nat, wireType: nat, rest: seq<Byte>)
    requires 1 <= num < 0x2000_0000 && wireType < 8
    ensures DecodeVarint(TagBytes(num, wireType) + rest) == Varint(num * 8 + wireType, |TagBytes(num, wireType)|)
    ensures wireType != 4 ==> ReadTag(TagBytes(num, wireType) + rest) == Tag(num, wireType, |TagBytes(num, wireType)|)
    ensures Drop(TagBytes(num, wireType) + rest, |TagBytes(num, wireType)|) == rest
  {
    VarintRoundTrip(num * 8 + wireType, rest);
    assert (num * 8 + wireType) / 8 == num && (num * 8 + wireType) % 8 == wireType;
  }

  function WireTypeOf(f: Field): nat {
    match f
    case VarintField(_, _) => 0
    case Fixed64Field(_, _) => 1
    case BytesField(_, _) => 2
    case GroupField(_, _) => 3
    case Fixed32Field(_, _) => 5
  }

  /** What follows the tag of a field. */
  ghost function FieldTail(f: Field): seq<Byte> {
    match f
    case VarintField(_, value) => VarintBytes(value)
    case Fixed64Field(_, bytes) => bytes
    case BytesField(_, data) => VarintBytes(|data|) + data
    case GroupField(num, fields) => FieldsBytes(fields) + TagBytes(num, 4)
    case Fixed32Field(_, bytes) => bytes
  }

  lemma FieldTag(f: Field, rest: seq<Byte>)
    requires FieldOk(f)
    ensures ReadTag(FieldBytes(f) + rest) == Tag(f.num, WireTypeOf(f), |TagBytes(f.num, WireTypeOf(f))|)
  {
    assert FieldBytes(f) + rest == TagBytes(f.num, WireTypeOf(f)) + (FieldTail(f) + rest);
    TagRoundTrip(f.num, WireTypeOf(f), FieldTail(f) + rest);
  }

  lemma TaggedElement(num: nat, wireType: nat, rest: seq<Byte>, at: nat, depth: nat)
    requires 1 <= num < 0x2000_0000 && wireType < 8
    ensures ReadElement(TagBytes(num, wireType) + rest, at, depth) ==
            ReadElementOf(wireType, |TagBytes(num, wireType)|, rest, at, depth)
  {
    TagRoundTrip(num, wireType, rest);
  }

  lemma VarintElement(value: nat, n: nat, rest: seq<Byte>, at: nat, depth: nat)
    requires value < TWO_64
    ensures ReadElementOf(0, n, VarintBytes(value) + rest, at, depth) ==
            SizedElement(at, n + |VarintBytes(value)|, depth)
  {
    VarintRoundTrip(value, rest);
  }

  lemma BytesElement(size: nat, n: nat, rest: seq<Byte>, at: nat, depth: nat)
    requires size < TWO_63
    ensures ReadElementOf(2, n, VarintBytes(size) + rest, at, depth) ==
            SizedElement(at, n + |VarintBytes(size)| + size, depth)
  {
    VarintRoundTrip(size, rest);
  }

  /** A field that is not a group is one element. */
  lemma FieldElement(f: Field, rest: seq<Byte>, at: nat, depth: nat)
    requires FieldOk(f) && !f.GroupField? && at + |FieldBytes(f)| < TWO_63
    ensures ReadElement(FieldBytes(f) + rest, at, depth) == Element(|FieldBytes(f)|, depth)
  {
    var tag, tail := TagBytes(f.num, WireTypeOf(f)), FieldTail(f);
    assert FieldBytes(f) + rest == tag + (tail + rest);
    TaggedElement(f.num, WireTypeOf(f), tail + rest, at, depth);
    match f
    case VarintField(_, value) => VarintElement(value, |tag|, rest, at, depth);
    case BytesField(_, data) =>
      Regroup(VarintBytes(|data|), data, rest);
      BytesElement(|data|, |tag|, data + rest, at, depth);
    case _ =>
  }

  // ---- Skipping passes over a whole field, nested groups included ----

  /** Skipping passes over `bytes` at group depth `d` and goes on at depth `e`, or stops if that is zero. */
  ghost predicate Passes(read: Reader, bytes: seq<Byte>, rest: seq<Byte>, at: nat, d: nat, e: nat) {
    SkipWith(read, bytes + rest, at, d) == if e == 0 then Skipped(at + |bytes|)
      else SkipWith(read, rest, at + |bytes|, e)
  }

  ghost predicate ReadsPlain(read: Reader, f: Field, rest: seq<Byte>, at: nat, d: nat) {
    FieldOk(f) && !f.GroupField? && at + |FieldBytes(f)| < TWO_63 ==>
      read(FieldBytes(f) + rest, at, d) == Element(|FieldBytes(f)|, d)
  }

  ghost predicate ReadsEnds(read: Reader, num: nat, rest: seq<Byte>, at: nat, d: nat) {
    1 <= num < 0x2000_0000 ==>
      && read(TagBytes(num, 3) + rest, at, d) == SizedElement(at, |TagBytes(num, 3)|, d + 1)
      && read(TagBytes(num, 4) + rest, at, d + 1) == SizedElement(at, |TagBytes(num, 4)|, d)
  }

  /** Single elements are read as they should be. */
  ghost predicate ReadsElements(read: Reader) {
    && (forall f, rest, at, d :: ReadsPlain(read, f, rest, at, d))
    && (forall num, rest, at, d :: ReadsEnds(read, num, rest, at, d))
  }

  lemma PassesOne(read: Reader, bytes: seq<Byte>, rest: seq<Byte>, at: nat, d: nat, e: nat)
    requires bytes != [] && read(bytes + rest, at, d) == Element(|bytes|, e)
    ensures Passes(read, bytes, rest, at, d, e)
  {
    assert Drop(bytes + rest, |bytes|) == rest;
  }

  lemma PassesBoth(read: Reader, a: seq<Byte>, b: seq<Byte>, rest: seq<Byte>, at: nat, d: nat, e: nat, g: nat)
    requires Passes(read, a, b + rest, at, d, e) && e > 0 && Passes(read, b, rest, at + |a|, e, g)
    ensures Passes(read, a + b, rest, at, d, g)
  {
    assert (a + b) + rest == a + (b + rest);
  }

  lemma PassesOpen(read: Reader, num: nat, rest: seq<Byte>, at: nat, d: nat)
    requires ReadsElements(read) && 1 <= num < 0x2000_0000 && at + |TagBytes(num, 3)| < TWO_63
    ensures Passes(read, TagBytes(num, 3), rest, at, d, d + 1)
  {
    assert ReadsEnds(read, num, rest, at, d);
    PassesOne(read, TagBytes(num, 3), rest, at, d, d + 1);
  }

  lemma PassesClose(read: Reader, num: nat, rest: seq<Byte>, at: nat, d: nat)
    requires ReadsElements(read) && 1 <= num < 0x2000_0000 && at + |TagBytes(num, 4)| < TWO_63
    ensures Passes(read, TagBytes(num, 4), rest, at, d + 1, d)
  {
    assert ReadsEnds(read, num, rest, at, d);
    PassesOne(read, TagBytes(num, 4), rest, at, d + 1, d);
  }

  lemma PassesGroup(read: Reader, num: nat, body: seq<Byte>, rest: seq<Byte>, at: nat, d: nat)
    requires ReadsElements(read) && 1 <= num < 0x2000_0000
    requires at + |TagBytes(num, 3)| + |body| + |TagBytes(num, 4)| < TWO_63
    requires Passes(read, body, TagBytes(num, 4) + rest, at + |TagBytes(num, 3)|, d + 1, d + 1)
    ensures Passes(read, TagBytes(num, 3) + (body + TagBytes(num, 4)), rest, at, d, d)
  {
    var open, close := TagBytes(num, 3), TagBytes(num, 4);
    PassesOpen(read, num, (body + close) + rest, at, d);
    PassesClose(read, num, rest, at + |open| + |body|, d);
    PassesBoth(read, body, close, rest, at + |open|, d + 1, d + 1, d);
    PassesBoth(read, open, body + close, rest, at, d, d + 1, d);
  }

  /** Elements that are skipped one by one make up a field that is skipped as a whole. */
  lemma {:induction false} PassesField(read: Reader, f: Field, rest: seq<Byte>, at: nat, d: nat)
    requires ReadsElements(read) && FieldOk(f) && at + |FieldBytes(f)| < TWO_63
    ensures Passes(read, FieldBytes(f), rest, at, d, d)
    decreases f
  {
    if f.GroupField? {
      PassesFields(read, f.fields, TagBytes(f.num, 4) + rest, at + |TagBytes(f.num, 3)|, d + 1);
      PassesGroup(read, f.num, FieldsBytes(f.fields), rest, at, d);
    } else {
      assert ReadsPlain(read, f, rest, at, d);
      PassesOne(read, FieldBytes(f), rest, at, d, d);
    }
  }

  lemma {:induction false} PassesFields(read: Reader, fs: seq<Field>, rest: seq<Byte>, at: nat, d: nat)
    requires ReadsElements(read) && FieldsOk(fs) && d > 0 && at + |FieldsBytes(fs)| < TWO_63
    ensures Passes(read, FieldsBytes(fs), rest, at, d, d)
    decreases fs
  {
    if fs == [] {
      assert FieldsBytes(fs) + rest == rest;
    } else {
      var first, others := FieldBytes(fs[0]), FieldsBytes(fs[1..]);
      PassesField(read, fs[0], others + rest, at, d);
      PassesFields(read, fs[1..], rest, at + |first|, d);
      PassesBoth(read, first, others, rest, at, d, d, d);
    }
  }

  lemma ElementsRead()
    ensures ReadsElements(ReadElement)
  {
    forall f, rest, at: nat, d: nat ensures ReadsPlain(ReadElement, f, rest, at, d) {
      if FieldOk(f) && !f.GroupField? && at + |FieldBytes(f)| < TWO_63 {
        FieldElement(f, rest, at, d);
      }
    }
    forall num: nat, rest, at: nat, d: nat ensures ReadsEnds(ReadElement, num, rest, at, d) {
      if 1 <= num < 0x2000_0000 {
        TaggedElement(num, 3, rest, at, d);
        TaggedElement(num, 4, rest, at, d + 1);
      }
    }
  }

  /** Skipping from the start of a well-formed field ends right behind it. */
  lemma SkipField(f: Field, rest: seq<Byte>)
    requires FieldOk(f) && |FieldBytes(f)| < TWO_63
    ensures Skip(FieldBytes(f) + rest) == Skipped(|FieldBytes(f)|)
  {
    ElementsRead();
    PassesField(ReadElement, f, rest, 0, 0);
  }
}
