/** The codec of the messages of the result transfer protocol: a backward marshaller and a forward unmarshaller. */
module CarnotCodec {
  import opened Basics
  import opened Varints
  import opened Wire

  /** The contents oneof; its wrapper can be set and still hold no row batch. A row batch is kept as its encoding. */
  datatype Contents = NoContents | RowBatch(data: Option<seq<Byte>>)

  datatype Destination = NoDestination | GRPCSourceID(id: nat) | TableName(name: seq<Byte>)

  datatype Message =
    | Response(success: bool, message: seq<Byte>)
    | SinkResult(contents: Contents, destination: Destination)

  /** The message before any field is read. */
  function Empty(m: Message): Message {
    if m.Response? then Response(false, []) else SinkResult(NoContents, NoDestination)
  }

  /** Identifiers are 64-bit and buffers are no longer than an index can say. */
  ghost predicate Representable(m: Message) {
    && |MessageBytes(m)| < TWO_63
    && (m.SinkResult? && m.destination.GRPCSourceID? ==> m.destination.id < TWO_64)
  }

  // ---- Encoding ----

  function VarintFieldBytes(tag: Byte, v: nat): seq<Byte> { [tag] + VarintBytes(v) }

  function DelimitedFieldBytes(tag: Byte, data: seq<Byte>): seq<Byte> { [tag] + (VarintBytes(|data|) + data) }

  function ContentsBytes(c: Contents): seq<Byte> {
    if c.RowBatch? && c.data.Some? then DelimitedFieldBytes(0x0a, c.data.value) else []
  }

  function DestinationBytes(d: Destination): seq<Byte> {
    match d
    case NoDestination => []
    case GRPCSourceID(id) => VarintFieldBytes(0x10, id)
    case TableName(name) => DelimitedFieldBytes(0x1a, name)
  }

  function SuccessBytes(success: bool): seq<Byte> { if success then [0x08, 1] else [] }

  function TextBytes(message: seq<Byte>): seq<Byte> { if message != [] then DelimitedFieldBytes(0x12, message) else [] }

  /** The encoding of a message, front to back. */
  function MessageBytes(m: Message): seq<Byte> {
    match m
    case Response(success, message) => SuccessBytes(success) + TextBytes(message)
    case SinkResult(contents, destination) => ContentsBytes(contents) + DestinationBytes(destination)
  }

  function DelimitedSize(n: nat): nat { 1 + n + Sov(n) }

  /** The size of a message, computed without encoding it. */
  function Size(m: Message): (n: nat)
    ensures n == |MessageBytes(m)|
  {
    match m
    case Response(success, message) =>
      SovIsLength(|message|);
      (if success then 2 else 0) + if |message| > 0 then DelimitedSize(|message|) else 0
    case SinkResult(contents, destination) =>
      (if contents.RowBatch? && contents.data.Some? then
         SovIsLength(|contents.data.value|);
         DelimitedSize(|contents.data.value|)
       else 0) +
      (match destination
       case NoDestination => 0
       case GRPCSourceID(id) => SovIsLength(id); 1 + Sov(id)
       case TableName(name) => SovIsLength(|name|); DelimitedSize(|name|))
  }

  // ---- Marshalling backwards into a buffer ----

  /** Copy bytes so that they end at `end`. */
  method CopyBefore(dAtA: array<Byte>, end: nat, data: seq<Byte>) returns (i: nat)
    requires |data| <= end <= dAtA.Length
    modifies dAtA
    ensures i == end - |data| && Written(old(dAtA[..]), dAtA[..], i, data)
  {
    i := end - |data|;
    ghost var was := dAtA[..];
    NothingWritten(was, i);
    for j := 0 to |data|
      invariant Written(was, dAtA[..], i, data[..j])
    {
      ghost var before := dAtA[..];
      dAtA[i + j] := data[j];
      WrittenBehind(was, before, dAtA[..], i, data[..j], data[j]);
      assert data[..j + 1] == data[..j] + [data[j]];
    }
    assert data[..|data|] == data;
  }

  /** Write a byte in front of bytes just written. */
  method WriteByteBefore(dAtA: array<Byte>, end: nat, b: Byte, ghost behind: seq<Byte>, ghost was: seq<Byte>)
    returns (i: nat)
    requires 0 < end && Written(was, dAtA[..], end, behind)
    modifies dAtA
    ensures i == end - 1 && Written(was, dAtA[..], i, [b] + behind)
  {
    i := end - 1;
    ghost var before := dAtA[..];
    dAtA[i] := b;
    WrittenBefore(was, before, dAtA[..], i, behind, b);
  }

  method WriteVarintField(dAtA: array<Byte>, end: nat, tag: Byte, v: nat) returns (i: nat)
    requires |VarintFieldBytes(tag, v)| <= end <= dAtA.Length
    modifies dAtA
    ensures i == end - |VarintFieldBytes(tag, v)| && Written(old(dAtA[..]), dAtA[..], i, VarintFieldBytes(tag, v))
  {
    SovIsLength(v);
    i := EncodeVarint(dAtA, end, v);
    i := WriteByteBefore(dAtA, i, tag, VarintBytes(v), old(dAtA[..]));
  }

  method WriteDelimitedField(dAtA: array<Byte>, end: nat, tag: Byte, data: seq<Byte>) returns (i: nat)
    requires |DelimitedFieldBytes(tag, data)| <= end <= dAtA.Length
    modifies dAtA
    ensures i == end - |DelimitedFieldBytes(tag, data)| &&
            Written(old(dAtA[..]), dAtA[..], i, DelimitedFieldBytes(tag, data))
  {
    SovIsLength(|data|);
    i := CopyBefore(dAtA, end, data);
    ghost var copied := dAtA[..];
    i := EncodeVarint(dAtA, i, |data|);
    WrittenJoin(old(dAtA[..]), copied, dAtA[..], i, VarintBytes(|data|), data);
    i := WriteByteBefore(dAtA, i, tag, VarintBytes(|data|) + data, old(dAtA[..]));
  }

  method WriteText(dAtA: array<Byte>, end: nat, message: seq<Byte>) returns (i: nat)
    requires |TextBytes(message)| <= end <= dAtA.Length
    modifies dAtA
    ensures i == end - |TextBytes(message)| && Written(old(dAtA[..]), dAtA[..], i, TextBytes(message))
  {
    i := end;
    NothingWritten(dAtA[..], i);
    if |message| > 0 {
      i := WriteDelimitedField(dAtA, i, 0x12, message);
    }
  }

  /** Write the first field in front of the bytes of the second. */
  method WriteSuccess(dAtA: array<Byte>, end: nat, success: bool, ghost behind: seq<Byte>, ghost was: seq<Byte>)
    returns (i: nat)
    requires |SuccessBytes(success)| <= end && Written(was, dAtA[..], end, behind)
    modifies dAtA
    ensures i == end - |SuccessBytes(success)| && Written(was, dAtA[..], i, SuccessBytes(success) + behind)
  {
    i := end;
    if success {
      i := WriteByteBefore(dAtA, i, 1, behind, was);
      i := WriteByteBefore(dAtA, i, 0x08, [1] + behind, was);
      assert [0x08] + ([1] + behind) == SuccessBytes(true) + behind;
    } else {
      assert [] + behind == behind;
    }
  }

  method WriteDestination(dAtA: array<Byte>, end: nat, d: Destination) returns (i: nat)
    requires |DestinationBytes(d)| <= end <= dAtA.Length
    modifies dAtA
    ensures i == end - |DestinationBytes(d)| && Written(old(dAtA[..]), dAtA[..], i, DestinationBytes(d))
  {
    i := end;
    NothingWritten(dAtA[..], i);
    match d
    case NoDestination =>
    case GRPCSourceID(id) => i := WriteVarintField(dAtA, i, 0x10, id);
    case TableName(name) => i := WriteDelimitedField(dAtA, i, 0x1a, name);
  }

  method WriteContents(dAtA: array<Byte>, end: nat, c: Contents, ghost behind: seq<Byte>, ghost was: seq<Byte>)
    returns (i: nat)
    requires |ContentsBytes(c)| <= end && Written(was, dAtA[..], end, behind)
    modifies dAtA
    ensures i == end - |ContentsBytes(c)| && Written(was, dAtA[..], i, ContentsBytes(c) + behind)
  {
    i := end;
    if c.RowBatch? && c.data.Some? {
      ghost var mid := dAtA[..];
      i := WriteDelimitedField(dAtA, i, 0x0a, c.data.value);
      WrittenJoin(was, mid, dAtA[..], i, ContentsBytes(c), behind);
    } else {
      assert [] + behind == behind;
    }
  }

  method MarshalResponse(success: bool, message: seq<Byte>, dAtA: array<Byte>) returns (i: nat)
    requires |SuccessBytes(success)| + |TextBytes(message)| <= dAtA.Length
    modifies dAtA
    ensures i == dAtA.Length - |TextBytes(message)| - |SuccessBytes(success)|
    ensures Written(old(dAtA[..]), dAtA[..], i, SuccessBytes(success) + TextBytes(message))
  {
    i := WriteText(dAtA, dAtA.Length, message);
    i := WriteSuccess(dAtA, i, success, TextBytes(message), old(dAtA[..]));
  }

  method MarshalSinkResult(contents: Contents, destination: Destination, dAtA: array<Byte>) returns (i: nat)
    requires |ContentsBytes(contents)| + |DestinationBytes(destination)| <= dAtA.Length
    modifies dAtA
    ensures i == dAtA.Length - |DestinationBytes(destination)| - |ContentsBytes(contents)|
    ensures Written(old(dAtA[..]), dAtA[..], i, ContentsBytes(contents) + DestinationBytes(destination))
  {
    i := WriteDestination(dAtA, dAtA.Length, destination);
    i := WriteContents(dAtA, i, contents, DestinationBytes(destination), old(dAtA[..]));
  }

  /** Write a message, last field first, so that it ends at the end of the buffer. */
  method MarshalToSizedBuffer(m: Message, dAtA: array<Byte>) returns (n: nat)
    requires |MessageBytes(m)| <= dAtA.Length
    modifies dAtA
    ensures n == |MessageBytes(m)| && Written(old(dAtA[..]), dAtA[..], dAtA.Length - n, MessageBytes(m))
  {
    var i;
    match m {
      case Response(success, message) => i := MarshalResponse(success, message, dAtA);
      case SinkResult(contents, destination) => i := MarshalSinkResult(contents, destination, dAtA);
    }
    n := dAtA.Length - i;
  }

  ghost function FirstBytes(m: Message): seq<Byte> {
    if m.Response? then SuccessBytes(m.success) else ContentsBytes(m.contents)
  }

  ghost function SecondBytes(m: Message): seq<Byte> {
    if m.Response? then TextBytes(m.message) else DestinationBytes(m.destination)
  }

  // ---- The format, by field number ----

  ghost function ResponseFields(success: bool, message: seq<Byte>): seq<Field> {
    (if success then [VarintField(1, 1)] else []) + (if message != [] then [BytesField(2, message)] else [])
  }

  ghost function SinkResultFields(contents: Contents, destination: Destination): seq<Field> {
    (match contents case RowBatch(Some(data)) => [BytesField(1, data)] case _ => []) +
    (match destination
     case NoDestination => []
     case GRPCSourceID(id) => [VarintField(2, id)]
     case TableName(name) => [BytesField(3, name)])
  }

  /** The fields of a message in the order in which they are written. */
  ghost function FieldsOf(m: Message): seq<Field> {
    match m
    case Response(success, message) => ResponseFields(success, message)
    case SinkResult(contents, destination) => SinkResultFields(contents, destination)
  }

  lemma TagByte(num: nat, wireType: nat)
    requires num < 16 && wireType < 8
    ensures TagBytes(num, wireType) == [num * 8 + wireType]
  {
  }

  lemma VarintFieldIs(tag: Byte, num: nat, v: nat)
    requires num < 16 && tag == num * 8
    ensures VarintFieldBytes(tag, v) == FieldBytes(VarintField(num, v))
  {
    TagByte(num, 0);
  }

  lemma DelimitedFieldIs(tag: Byte, num: nat, data: seq<Byte>)
    requires num < 16 && tag == num * 8 + 2
    ensures DelimitedFieldBytes(tag, data) == FieldBytes(BytesField(num, data))
  {
    TagByte(num, 2);
  }

  lemma OneField(f: Field)
    ensures FieldsBytes([f]) == FieldBytes(f)
  {
    assert [f][1..] == [];
    assert FieldBytes(f) + [] == FieldBytes(f);
  }

  lemma {:induction false} FieldsAppend(a: seq<Field>, b: seq<Field>)
    ensures FieldsBytes(a + b) == FieldsBytes(a) + FieldsBytes(b)
  {
    if a == [] {
      assert a + b == b;
    } else {
      assert (a + b)[0] == a[0] && (a + b)[1..] == a[1..] + b;
      FieldsAppend(a[1..], b);
      Regroup(FieldBytes(a[0]), FieldsBytes(a[1..]), FieldsBytes(b));
    }
  }

  lemma FirstIsFields(m: Message)
    ensures FirstBytes(m) == match m
                             case Response(success, _) => FieldsBytes(if success then [VarintField(1, 1)] else [])
                             case SinkResult(RowBatch(Some(data)), _) => FieldsBytes([BytesField(1, data)])
                             case SinkResult(_, _) => []
  {
    match m
    case Response(_, _) =>
      VarintFieldIs(0x08, 1, 1);
      OneField(VarintField(1, 1));
    case SinkResult(RowBatch(Some(data)), _) =>
      DelimitedFieldIs(0x0a, 1, data);
      OneField(BytesField(1, data));
    case _ =>
  }

  lemma SecondIsFields(m: Message)
    ensures SecondBytes(m) == match m
                              case Response(_, message) =>
                                FieldsBytes(if message != [] then [BytesField(2, message)] else [])
                              case SinkResult(_, GRPCSourceID(id)) => FieldsBytes([VarintField(2, id)])
                              case SinkResult(_, TableName(name)) => FieldsBytes([BytesField(3, name)])
                              case SinkResult(_, NoDestination) => []
  {
    match m
    case Response(_, message) =>
      DelimitedFieldIs(0x12, 2, message);
      OneField(BytesField(2, message));
    case SinkResult(_, GRPCSourceID(id)) =>
      VarintFieldIs(0x10, 2, id);
      OneField(VarintField(2, id));
    case SinkResult(_, TableName(name)) =>
      DelimitedFieldIs(0x1a, 3, name);
      OneField(BytesField(3, name));
    case _ =>
  }

  /** A message is encoded as its fields, by number. */
  lemma MessageIsFields(m: Message)
    ensures MessageBytes(m) == FieldsBytes(FieldsOf(m))
  {
    FirstIsFields(m);
    SecondIsFields(m);
    match m
    case Response(success, message) =>
      FieldsAppend(if success then [VarintField(1, 1)] else [], if message != [] then [BytesField(2, message)] else []);
    case SinkResult(contents, destination) =>
      FieldsAppend(SinkResultFields(contents, NoDestination), SinkResultFields(NoContents, destination));
      assert FieldsOf(m) == SinkResultFields(contents, NoDestination) + SinkResultFields(NoContents, destination);
  }

  /** Marshal into a buffer of exactly the computed size. */
  method Marshal(m: Message) returns (bytes: seq<Byte>)
    ensures |bytes| == Size(m) && bytes == MessageBytes(m)
    ensures bytes == FieldsBytes(FieldsOf(m))
  {
    MessageIsFields(m);
    var dAtA := new Byte[Size(m)](_ => 0);
    ghost var was := dAtA[..];
    var n := MarshalToSizedBuffer(m, dAtA);
    bytes := dAtA[..];
    AllWritten(was, bytes, MessageBytes(m));
  }

  // ---- Unmarshalling ----

  /** A message with one more field read, and the size of the field. */
  datatype Step = Step(msg: Message, size: nat) | BadStep(error: Error)

  datatype Result = Ok(msg: Message) | Err(error: Error)

  function Known(m: Message): set<nat> { if m.Response? then {1, 2} else {1, 2, 3} }

  /** How the bytes of a row batch fail to decode, if they do. */
  type RowBatchCheck = seq<Byte> -> Option<Error>

  function VarintStep(tag: Tag, rest: seq<Byte>, set_: nat -> Message): Step
    requires tag.Tag?
  {
    if tag.wireType != 0 then BadStep(WrongWireType)
    else
      var v := DecodeVarint(rest);
      if v.BadVarint? then BadStep(v.error) else Step(set_(v.value), tag.size + v.size)
  }

  function DelimitedStep(tag: Tag, rest: seq<Byte>, pos: nat, set_: seq<Byte> -> Message): Step
    requires tag.Tag?
  {
    if tag.wireType != 2 then BadStep(WrongWireType)
    else
      var d := ReadDelimited(rest, pos + tag.size);
      if d.BadDelimited? then BadStep(d.error) else Step(set_(d.data), tag.size + d.size)
  }

  function UnknownStep(s: seq<Byte>, pos: nat, m: Message): Step {
    var k := Skip(s);
    if k.BadSkip? then BadStep(k.error)
    else if pos + k.end >= TWO_63 then BadStep(InvalidLength)
    else if k.end > |s| then BadStep(UnexpectedEOF)
    else Step(m, k.end)
  }

  /** The row batch inside the field is decoded in turn. */
  function ContentsStep(inner: RowBatchCheck, tag: Tag, rest: seq<Byte>, pos: nat, m: Message): Step
    requires tag.Tag? && m.SinkResult?
  {
    if tag.wireType != 2 then BadStep(WrongWireType)
    else
      var d := ReadDelimited(rest, pos + tag.size);
      if d.BadDelimited? then BadStep(d.error)
      else if inner(d.data).Some? then BadStep(inner(d.data).value)
      else Step(m.(contents := RowBatch(Some(d.data))), tag.size + d.size)
  }

  function KnownStep(inner: RowBatchCheck, tag: Tag, rest: seq<Byte>, pos: nat, m: Message): Step
    requires tag.Tag? && tag.num in Known(m)
  {
    match m
    case Response(_, _) =>
      if tag.num == 1 then VarintStep(tag, rest, (v: nat) => m.(success := v != 0))
      else DelimitedStep(tag, rest, pos, data => m.(message := data))
    case SinkResult(_, _) =>
      if tag.num == 1 then ContentsStep(inner, tag, rest, pos, m)
      else if tag.num == 2 then VarintStep(tag, rest, (v: nat) => m.(destination := GRPCSourceID(v)))
      else DelimitedStep(tag, rest, pos, data => m.(destination := TableName(data)))
  }

  /** Read the field at the front, which is at absolute position `pos`. */
  function ReadField(inner: RowBatchCheck, s: seq<Byte>, pos: nat, m: Message): Step {
    var tag := ReadTag(s);
    if tag.BadTag? then BadStep(tag.error)
    else if tag.num in Known(m) then KnownStep(inner, tag, Drop(s, tag.size), pos, m)
    else UnknownStep(s, pos, m)
  }

  /** How single fields are read. */
  type FieldReader = (seq<Byte>, nat, Message) -> Step

  function Fields(inner: RowBatchCheck): FieldReader {
    (s: seq<Byte>, pos: nat, m: Message) => ReadField(inner, s, pos, m)
  }

  function ParseWith(read: FieldReader, s: seq<Byte>, pos: nat, m: Message): Result
    decreases |s|
  {
    if s == [] then Ok(m)
    else
      var step := read(s, pos, m);
      if step.BadStep? then Err(step.error)
      else if step.size == 0 || step.size > |s| then Err(UnexpectedEOF)
      else ParseWith(read, s[step.size..], pos + step.size, step.msg)
  }

  /** Decode a buffer, starting from message `m`. */
  function Decode(inner: RowBatchCheck, s: seq<Byte>, m: Message): Result { ParseWith(Fields(inner), s, 0, m) }

  // ---- Facts about parsing, whatever reads the fields ----

  /** A field that is read is read the same whatever follows it. */
  ghost predicate ReadsAlike(read: FieldReader, s: seq<Byte>, rest: seq<Byte>, pos: nat, m: Message) {
    read(s, pos, m).Step? ==>
      0 < read(s, pos, m).size <= |s| && read(s + rest, pos, m) == read(s, pos, m)
  }

  /** The position matters only to lengths that overflow it. */
  ghost predicate ReadsAnywhere(read: FieldReader, s: seq<Byte>, pos: nat, pos': nat, m: Message) {
    read(s, pos, m).Step? && pos' + |s| < TWO_63 ==> read(s, pos', m) == read(s, pos, m)
  }

  ghost predicate KeepsKind(read: FieldReader, s: seq<Byte>, pos: nat, m: Message) {
    read(s, pos, m).Step? ==> read(s, pos, m).msg.Response? == m.Response?
  }

  ghost predicate Regular(read: FieldReader) {
    && (forall s, rest, pos, m :: ReadsAlike(read, s, rest, pos, m))
    && (forall s, pos, pos', m :: ReadsAnywhere(read, s, pos, pos', m))
    && (forall s, pos, m :: KeepsKind(read, s, pos, m))
  }

  lemma ParseField(read: FieldReader, bytes: seq<Byte>, rest: seq<Byte>, pos: nat, m: Message, m': Message)
    requires bytes != [] && read(bytes + rest, pos, m) == Step(m', |bytes|)
    ensures ParseWith(read, bytes + rest, pos, m) == ParseWith(read, rest, pos + |bytes|, m')
  {
    assert (bytes + rest)[|bytes|..] == rest;
  }

  /** The first field of a buffer is read the same if more follows. */
  lemma ParseFirst(read: FieldReader, a: seq<Byte>, b: seq<Byte>, pos: nat, m: Message)
    requires Regular(read) && a != [] && ParseWith(read, a, pos, m).Ok?
    ensures var step := read(a, pos, m);
            && step.Step? && 0 < step.size <= |a| && step.msg.Response? == m.Response?
            && ParseWith(read, a, pos, m) == ParseWith(read, a[step.size..], pos + step.size, step.msg)
            && ParseWith(read, a + b, pos, m) == ParseWith(read, a[step.size..] + b, pos + step.size, step.msg)
  {
    var step := read(a, pos, m);
    assert ReadsAlike(read, a, b, pos, m) && KeepsKind(read, a, pos, m);
    TailAppend(a, b, step.size);
  }

  /** Parsing a whole buffer and then another is parsing the two together. */
  lemma {:induction false} ParseConcat(read: FieldReader, a: seq<Byte>, b: seq<Byte>, pos: nat, m: Message)
    requires Regular(read) && ParseWith(read, a, pos, m).Ok?
    ensures ParseWith(read, a + b, pos, m) == ParseWith(read, b, pos + |a|, ParseWith(read, a, pos, m).msg)
    ensures ParseWith(read, a, pos, m).msg.Response? == m.Response?
    decreases |a|
  {
    if a == [] {
      assert a + b == b;
    } else {
      var step := read(a, pos, m);
      ParseFirst(read, a, b, pos, m);
      ParseConcat(read, a[step.size..], b, pos + step.size, step.msg);
    }
  }

  lemma {:induction false} ParseAnywhere(read: FieldReader, s: seq<Byte>, pos: nat, pos': nat, m: Message)
    requires Regular(read) && ParseWith(read, s, pos, m).Ok? && pos' + |s| < TWO_63
    ensures ParseWith(read, s, pos', m) == ParseWith(read, s, pos, m)
    decreases |s|
  {
    if s != [] {
      var step := read(s, pos, m);
      assert ReadsAnywhere(read, s, pos, pos', m);
      ParseAnywhere(read, s[step.size..], pos + step.size, pos' + step.size, step.msg);
    }
  }

  // ---- Fields are read regularly ----

  lemma KnownStepAlike(inner: RowBatchCheck, tag: Tag, s: seq<Byte>, rest: seq<Byte>, pos: nat, m: Message)
    requires tag.Tag? && tag.num in Known(m) && KnownStep(inner, tag, s, pos, m).Step?
    ensures KnownStep(inner, tag, s + rest, pos, m) == KnownStep(inner, tag, s, pos, m) &&
            tag.size <= KnownStep(inner, tag, s, pos, m).size <= tag.size + |s|
  {
    if tag.wireType == 0 {
      ReadVarintPrefix(s, rest, 0, 0);
      ReadVarintSize(s, 0, 0);
    } else {
      DelimitedPrefix(s, rest, pos + tag.size);
    }
  }

  lemma FieldAlike(inner: RowBatchCheck, s: seq<Byte>, rest: seq<Byte>, pos: nat, m: Message)
    ensures ReadsAlike(Fields(inner), s, rest, pos, m)
  {
    if ReadField(inner, s, pos, m).Step? {
      var tag := ReadTag(s);
      TagPrefix(s, rest);
      if tag.num in Known(m) {
        DropAppend(s, rest, tag.size);
        KnownStepAlike(inner, tag, Drop(s, tag.size), rest, pos, m);
      } else {
        SkipPrefix(s, rest);
      }
    }
  }

  lemma DelimitedAnywhere(s: seq<Byte>, pos: nat, pos': nat)
    requires ReadDelimited(s, pos).Delimited? && pos' + |s| < TWO_63
    ensures ReadDelimited(s, pos') == ReadDelimited(s, pos)
  {
  }

  lemma FieldAnywhere(inner: RowBatchCheck, s: seq<Byte>, pos: nat, pos': nat, m: Message)
    ensures ReadsAnywhere(Fields(inner), s, pos, pos', m)
  {
    if ReadField(inner, s, pos, m).Step? && pos' + |s| < TWO_63 {
      var tag := ReadTag(s);
      if tag.num in Known(m) {
        TagPrefix(s, []);
        if tag.wireType == 2 {
          DelimitedAnywhere(Drop(s, tag.size), pos + tag.size, pos' + tag.size);
        }
      }
    }
  }

  lemma FieldsRegular(inner: RowBatchCheck)
    ensures Regular(Fields(inner))
  {
    forall s, rest, pos: nat, m ensures ReadsAlike(Fields(inner), s, rest, pos, m) {
      FieldAlike(inner, s, rest, pos, m);
    }
    forall s, pos: nat, pos': nat, m ensures ReadsAnywhere(Fields(inner), s, pos, pos', m) {
      FieldAnywhere(inner, s, pos, pos', m);
    }
    forall s, pos: nat, m ensures KeepsKind(Fields(inner), s, pos, m) {
    }
  }

  // ---- Round trip ----

  /** A tag of one byte leads to the reading of its field. */
  lemma ReadsTagged(inner: RowBatchCheck, tag: Byte, num: nat, wireType: nat, rest: seq<Byte>, pos: nat, m: Message)
    requires tag == num * 8 + wireType && 1 <= num < 15 && wireType < 8 && wireType != 4 && num in Known(m)
    ensures ReadField(inner, [tag] + rest, pos, m) == KnownStep(inner, Tag(num, wireType, 1), rest, pos, m)
  {
    assert TagBytes(num, wireType) == [tag];
    TagRoundTrip(num, wireType, rest);
  }

  lemma ReadsVarintField(inner: RowBatchCheck, tag: Byte, num: nat, v: nat, rest: seq<Byte>, pos: nat, m: Message)
    requires tag == num * 8 && 1 <= num < 15 && num in Known(m) && v < TWO_64
    ensures ReadField(inner, VarintFieldBytes(tag, v) + rest, pos, m) ==
            KnownStep(inner, Tag(num, 0, 1), VarintBytes(v) + rest, pos, m)
    ensures DecodeVarint(VarintBytes(v) + rest) == Varint(v, |VarintBytes(v)|)
  {
    Regroup([tag], VarintBytes(v), rest);
    ReadsTagged(inner, tag, num, 0, VarintBytes(v) + rest, pos, m);
    VarintRoundTrip(v, rest);
  }

  lemma ReadsDelimited(data: seq<Byte>, rest: seq<Byte>, pos: nat)
    requires pos + |VarintBytes(|data|)| + |data| < TWO_63
    ensures ReadDelimited(VarintBytes(|data|) + (data + rest), pos) ==
            Delimited(data, |VarintBytes(|data|)| + |data|)
  {
    var s, n := VarintBytes(|data|) + (data + rest), |VarintBytes(|data|)|;
    VarintRoundTrip(|data|, data + rest);
    assert s[n..n + |data|] == data;
  }

  lemma ReadsDelimitedField(inner: RowBatchCheck, tag: Byte, num: nat, data: seq<Byte>, rest: seq<Byte>, pos: nat,
                            m: Message)
    requires tag == num * 8 + 2 && 1 <= num < 15 && num in Known(m)
    requires pos + |DelimitedFieldBytes(tag, data)| < TWO_63
    ensures ReadField(inner, DelimitedFieldBytes(tag, data) + rest, pos, m) ==
            KnownStep(inner, Tag(num, 2, 1), VarintBytes(|data|) + (data + rest), pos, m)
    ensures ReadDelimited(VarintBytes(|data|) + (data + rest), pos + 1) ==
            Delimited(data, |VarintBytes(|data|)| + |data|)
  {
    var s := VarintBytes(|data|) + (data + rest);
    assert DelimitedFieldBytes(tag, data) + rest == [tag] + s;
    ReadsTagged(inner, tag, num, 2, s, pos, m);
    ReadsDelimited(data, rest, pos + 1);
  }

  lemma ReadsSuccess(inner: RowBatchCheck, rest: seq<Byte>, pos: nat, m: Message)
    requires m.Response?
    ensures ReadField(inner, SuccessBytes(true) + rest, pos, m) == Step(m.(success := true), 2)
  {
    assert SuccessBytes(true) == VarintFieldBytes(0x08, 1);
    ReadsVarintField(inner, 0x08, 1, 1, rest, pos, m);
  }

  /** What decoding makes of a message: a wrapper without a row batch is not seen. */
  function Canonical(m: Message): Message {
    if m.SinkResult? && m.contents == RowBatch(None) then m.(contents := NoContents) else m
  }

  /** The row batch of the message, if there is one, decodes. */
  predicate Accepted(inner: RowBatchCheck, m: Message) {
    m.SinkResult? && m.contents.RowBatch? && m.contents.data.Some? ==> inner(m.contents.data.value).None?
  }

  /** What comes out when a message is decoded after it was encoded. */
  function Arrival(inner: RowBatchCheck, m: Message): Result {
    if Accepted(inner, m) then Ok(Canonical(m)) else Err(inner(m.contents.data.value).value)
  }

  lemma FirstRead(inner: RowBatchCheck, m: Message, rest: seq<Byte>, pos: nat)
    requires |FirstBytes(m)| < TWO_63 - pos
    ensures FirstBytes(m) != [] && Accepted(inner, m) ==>
              ReadField(inner, FirstBytes(m) + rest, pos, Empty(m)) == Step(HalfRead(m), |FirstBytes(m)|)
    ensures !Accepted(inner, m) ==>
            ReadField(inner, FirstBytes(m) + rest, pos, Empty(m)) == BadStep(Arrival(inner, m).error)
    ensures FirstBytes(m) == [] ==> HalfRead(m) == Empty(m)
  {
    if m.Response? {
      if m.success {
        ReadsSuccess(inner, rest, pos, Empty(m));
      }
    } else if m.contents.RowBatch? && m.contents.data.Some? {
      ReadsDelimitedField(inner, 0x0a, 1, m.contents.data.value, rest, pos, Empty(m));
    }
  }

  /** The message after its first field. */
  ghost function HalfRead(m: Message): Message {
    if m.Response? then Response(m.success, []) else Canonical(SinkResult(m.contents, NoDestination))
  }

  lemma SecondRead(inner: RowBatchCheck, m: Message, rest: seq<Byte>, pos: nat)
    requires Representable(m) && |SecondBytes(m)| < TWO_63 - pos
    ensures SecondBytes(m) != [] ==>
              ReadField(inner, SecondBytes(m) + rest, pos, HalfRead(m)) == Step(Canonical(m), |SecondBytes(m)|)
    ensures SecondBytes(m) == [] ==> HalfRead(m) == Canonical(m)
  {
    if m.Response? {
      if m.message != [] {
        ReadsDelimitedField(inner, 0x12, 2, m.message, rest, pos, HalfRead(m));
      }
    } else {
      match m.destination
      case NoDestination =>
      case GRPCSourceID(id) => ReadsVarintField(inner, 0x10, 2, id, rest, pos, HalfRead(m));
      case TableName(name) => ReadsDelimitedField(inner, 0x1a, 3, name, rest, pos, HalfRead(m));
    }
  }

  /** If the pieces of a buffer are read one after the other, the buffer is decoded. */
  lemma ParseTwo(read: FieldReader, a: seq<Byte>, b: seq<Byte>, m0: Message, m1: Message, m2: Message)
    requires a != [] ==> read(a + b, 0, m0) == Step(m1, |a|)
    requires a == [] ==> m1 == m0
    requires b != [] ==> read(b + [], |a|, m1) == Step(m2, |b|)
    requires b == [] ==> m2 == m1
    ensures ParseWith(read, a + b, 0, m0) == Ok(m2)
  {
    if b != [] {
      ParseField(read, b, [], |a|, m1, m2);
    }
    assert b + [] == b;
    if a != [] {
      ParseField(read, a, b, 0, m0, m1);
    } else {
      assert a + b == b;
    }
  }

  /**
   Decoding undoes marshalling, except for a contents wrapper that holds no row batch: a message comes back exactly
   when it has none and its row batch decodes. Otherwise the wrapper is lost, or the error is that of the row batch.
   */
  lemma RoundTrip(inner: RowBatchCheck, m: Message)
    requires Representable(m)
    ensures Decode(inner, MessageBytes(m), Empty(m)) == Arrival(inner, m)
    ensures Decode(inner, MessageBytes(m), Empty(m)) == Ok(m) <==>
            Accepted(inner, m) && !(m.SinkResult? && m.contents == RowBatch(None))
  {
    var a, b := FirstBytes(m), SecondBytes(m);
    assert MessageBytes(m) == a + b;
    FirstRead(inner, m, b, 0);
    if Accepted(inner, m) {
      SecondRead(inner, m, [], |a|);
      ParseTwo(Fields(inner), a, b, Empty(m), HalfRead(m), Canonical(m));
    } else {
      assert a + b != [];
    }
  }

  // ---- Decoding any well-formed fields ----

  /** Why a field is refused: the wrong wire type for its number, or a row batch that does not decode. */
  ghost function Refusal(inner: RowBatchCheck, m: Message, f: Field): Option<Error> {
    match m
    case Response(_, _) =>
      if (f.num == 1 && !f.VarintField?) || (f.num == 2 && !f.BytesField?) then Some(WrongWireType) else None
    case SinkResult(_, _) =>
      if (f.num == 2 && !f.VarintField?) || ((f.num == 1 || f.num == 3) && !f.BytesField?) then Some(WrongWireType)
      else if f.num == 1 then inner(f.data)
      else None
  }

  /** The message with one more field that is not refused. */
  ghost function Apply(m: Message, f: Field): Message {
    match (m, f)
    case (Response(_, _), VarintField(1, v)) => m.(success := v != 0)
    case (Response(_, _), BytesField(2, data)) => m.(message := data)
    case (SinkResult(_, _), BytesField(1, data)) => m.(contents := RowBatch(Some(data)))
    case (SinkResult(_, _), VarintField(2, v)) => m.(destination := GRPCSourceID(v))
    case (SinkResult(_, _), BytesField(3, data)) => m.(destination := TableName(data))
    case _ => m
  }

  lemma KnownIsRead(inner: RowBatchCheck, f: Field, n: nat, rest: seq<Byte>, pos: nat, m: Message)
    requires FieldOk(f) && f.num in Known(m) && pos + n + |FieldTail(f)| < TWO_63
    ensures KnownStep(inner, Tag(f.num, WireTypeOf(f), n), FieldTail(f) + rest, pos, m) ==
            if Refusal(inner, m, f).Some? then BadStep(Refusal(inner, m, f).value)
            else Step(Apply(m, f), n + |FieldTail(f)|)
  {
    match f
    case VarintField(_, value) => VarintRoundTrip(value, rest);
    case BytesField(_, data) =>
      Regroup(VarintBytes(|data|), data, rest);
      ReadsDelimited(data, rest, pos + n);
    case _ =>
  }

  /** What reading the field must give. */
  ghost function FieldStep(inner: RowBatchCheck, m: Message, f: Field): Step {
    if Refusal(inner, m, f).Some? then BadStep(Refusal(inner, m, f).value) else Step(Apply(m, f), |FieldBytes(f)|)
  }

  lemma FieldIsRead(inner: RowBatchCheck, f: Field, rest: seq<Byte>, pos: nat, m: Message)
    requires FieldOk(f) && pos + |FieldBytes(f)| < TWO_63
    ensures ReadField(inner, FieldBytes(f) + rest, pos, m) == FieldStep(inner, m, f)
  {
    if f.num in Known(m) {
      var tag := TagBytes(f.num, WireTypeOf(f));
      assert FieldBytes(f) + rest == tag + (FieldTail(f) + rest);
      TagRoundTrip(f.num, WireTypeOf(f), FieldTail(f) + rest);
      KnownIsRead(inner, f, |tag|, rest, pos, m);
    } else {
      ReadsUnknown(inner, f, rest, pos, m);
    }
  }

  /** The refusal of the first field that is refused. */
  ghost function FirstRefusal(inner: RowBatchCheck, m: Message, fs: seq<Field>): Option<Error> {
    if fs == [] then None
    else if Refusal(inner, m, fs[0]).Some? then Refusal(inner, m, fs[0]) else FirstRefusal(inner, m, fs[1..])
  }

  /** The last field with one of some numbers. */
  ghost function LastOf(fs: seq<Field>, nums: set<nat>): Option<Field> {
    if fs == [] then None
    else if fs[|fs| - 1].num in nums then Some(fs[|fs| - 1]) else LastOf(fs[..|fs| - 1], nums)
  }

  lemma {:induction false} LastOfMeans(fs: seq<Field>, nums: set<nat>)
    ensures LastOf(fs, nums).None? ==> forall i | 0 <= i < |fs| :: fs[i].num !in nums
    ensures LastOf(fs, nums).Some? ==>
              exists k :: 0 <= k < |fs| && fs[k] == LastOf(fs, nums).value && fs[k].num in nums &&
                          forall i | k < i < |fs| :: fs[i].num !in nums
  {
    if fs != [] && fs[|fs| - 1].num !in nums {
      LastOfMeans(fs[..|fs| - 1], nums);
    }
  }

  /**
   A message that started as `m` and received the fields: of each number the last one holds, and the source
   identifier and the table name displace each other.
   */
  ghost function Received(m: Message, fs: seq<Field>): Message {
    match m
    case Response(success, message) =>
      Response(match LastOf(fs, {1}) case Some(VarintField(_, v)) => v != 0 case _ => success,
               match LastOf(fs, {2}) case Some(BytesField(_, data)) => data case _ => message)
    case SinkResult(contents, destination) =>
      SinkResult(match LastOf(fs, {1}) case Some(BytesField(_, data)) => RowBatch(Some(data)) case _ => contents,
                 match LastOf(fs, {2, 3})
                 case Some(VarintField(_, v)) => GRPCSourceID(v)
                 case Some(BytesField(_, data)) => TableName(data)
                 case _ => destination)
  }

  lemma {:induction false} LastOfCons(f: Field, fs: seq<Field>, nums: set<nat>)
    ensures LastOf([f] + fs, nums) ==
            if LastOf(fs, nums).Some? then LastOf(fs, nums) else if f.num in nums then Some(f) else None
  {
    var all := [f] + fs;
    if fs == [] {
      assert all[..|all| - 1] == [];
    } else {
      LastOfCons(f, fs[..|fs| - 1], nums);
      assert all[|all| - 1] == fs[|fs| - 1] && all[..|all| - 1] == [f] + fs[..|fs| - 1];
    }
  }

  lemma {:induction false} NoneRefused(inner: RowBatchCheck, m: Message, fs: seq<Field>, i: nat)
    requires FirstRefusal(inner, m, fs).None? && i < |fs|
    ensures Refusal(inner, m, fs[i]).None?
  {
    if i > 0 {
      NoneRefused(inner, m, fs[1..], i - 1);
    }
  }

  lemma LastOfFits(inner: RowBatchCheck, m: Message, fs: seq<Field>, nums: set<nat>)
    requires FirstRefusal(inner, m, fs).None?
    ensures LastOf(fs, nums).Some? ==> LastOf(fs, nums).value.num in nums &&
                                       Refusal(inner, m, LastOf(fs, nums).value).None?
  {
    LastOfMeans(fs, nums);
    if LastOf(fs, nums).Some? {
      var k :| 0 <= k < |fs| && fs[k] == LastOf(fs, nums).value && fs[k].num in nums;
      NoneRefused(inner, m, fs, k);
    }
  }

  lemma ReceivedByResponse(inner: RowBatchCheck, m: Message, f: Field, fs: seq<Field>)
    requires Refusal(inner, m, f).None? && FirstRefusal(inner, m, fs).None? && m.Response?
    ensures Received(m, [f] + fs) == Received(Apply(m, f), fs)
  {
    LastOfFits(inner, m, fs, {1});
    LastOfFits(inner, m, fs, {2});
    LastOfCons(f, fs, {1});
    LastOfCons(f, fs, {2});
  }

  lemma ReceivedBySink(inner: RowBatchCheck, m: Message, f: Field, fs: seq<Field>)
    requires Refusal(inner, m, f).None? && FirstRefusal(inner, m, fs).None? && m.SinkResult?
    ensures Received(m, [f] + fs) == Received(Apply(m, f), fs)
  {
    LastOfFits(inner, m, fs, {1});
    LastOfFits(inner, m, fs, {2, 3});
    LastOfCons(f, fs, {1});
    LastOfCons(f, fs, {2, 3});
  }

  lemma {:induction false} SameRefusal(inner: RowBatchCheck, m: Message, m': Message, fs: seq<Field>)
    requires m.Response? == m'.Response?
    ensures FirstRefusal(inner, m, fs) == FirstRefusal(inner, m', fs)
  {
    if fs != [] {
      SameRefusal(inner, m, m', fs[1..]);
    }
  }

  ghost function Outcome(inner: RowBatchCheck, m: Message, fs: seq<Field>): Result {
    if FirstRefusal(inner, m, fs).Some? then Err(FirstRefusal(inner, m, fs).value) else Ok(Received(m, fs))
  }

  lemma OutcomeCons(inner: RowBatchCheck, m: Message, fs: seq<Field>)
    requires fs != [] && Refusal(inner, m, fs[0]).None?
    ensures Outcome(inner, m, fs) == Outcome(inner, Apply(m, fs[0]), fs[1..])
  {
    SameRefusal(inner, m, Apply(m, fs[0]), fs[1..]);
    if FirstRefusal(inner, m, fs).None? {
      if m.Response? {
        ReceivedByResponse(inner, m, fs[0], fs[1..]);
      } else {
        ReceivedBySink(inner, m, fs[0], fs[1..]);
      }
      assert fs == [fs[0]] + fs[1..];
    }
  }

  /** The field is read as its number says, whatever follows it. */
  ghost predicate ReadsByNumber(inner: RowBatchCheck, read: FieldReader, f: Field, rest: seq<Byte>, pos: nat,
                                m: Message) {
    FieldOk(f) && pos + |FieldBytes(f)| < TWO_63 ==> read(FieldBytes(f) + rest, pos, m) == FieldStep(inner, m, f)
  }

  lemma ParsesOne(read: FieldReader, bytes: seq<Byte>, rest: seq<Byte>, pos: nat, m: Message, step: Step)
    requires bytes != [] && read(bytes + rest, pos, m) == step && (step.Step? ==> step.size == |bytes|)
    ensures ParseWith(read, bytes + rest, pos, m) ==
            if step.BadStep? then Err(step.error) else ParseWith(read, rest, pos + |bytes|, step.msg)
  {
    if step.Step? {
      ParseField(read, bytes, rest, pos, m, step.msg);
    }
  }

  lemma {:induction false} ParsesFields(inner: RowBatchCheck, read: FieldReader, fs: seq<Field>, pos: nat, m: Message)
    requires FieldsOk(fs) && pos + |FieldsBytes(fs)| < TWO_63
    requires forall f, rest, pos, m :: ReadsByNumber(inner, read, f, rest, pos, m)
    ensures ParseWith(read, FieldsBytes(fs), pos, m) == Outcome(inner, m, fs)
    decreases |fs|
  {
    if fs == [] {
      NothingReceived(inner, m);
    } else {
      var first, others := FieldBytes(fs[0]), FieldsBytes(fs[1..]);
      assert ReadsByNumber(inner, read, fs[0], others, pos, m);
      ParsesOne(read, first, others, pos, m, FieldStep(inner, m, fs[0]));
      if Refusal(inner, m, fs[0]).None? {
        ParsesFields(inner, read, fs[1..], pos + |first|, Apply(m, fs[0]));
        OutcomeCons(inner, m, fs);
      }
    }
  }

  lemma NothingReceived(inner: RowBatchCheck, m: Message)
    ensures Outcome(inner, m, []) == Ok(m)
  {
  }

  /**
   Well-formed fields in any order, with repetitions and unknown ones between them: if none is refused, decoding
   gives the last field of each number, and otherwise the first refusal is the error.
   */
  lemma DecodesFields(inner: RowBatchCheck, fs: seq<Field>, m: Message)
    requires FieldsOk(fs) && |FieldsBytes(fs)| < TWO_63
    ensures FirstRefusal(inner, m, fs).None? ==> Decode(inner, FieldsBytes(fs), m) == Ok(Received(m, fs))
    ensures FirstRefusal(inner, m, fs).Some? ==>
              Decode(inner, FieldsBytes(fs), m) == Err(FirstRefusal(inner, m, fs).value)
  {
    forall f, rest, pos: nat, m ensures ReadsByNumber(inner, Fields(inner), f, rest, pos, m) {
      if FieldOk(f) && pos + |FieldBytes(f)| < TWO_63 {
        FieldIsRead(inner, f, rest, pos, m);
      }
    }
    ParsesFields(inner, Fields(inner), fs, 0, m);
  }

  // ---- Unknown fields ----

  lemma ReadsUnknown(inner: RowBatchCheck, f: Field, rest: seq<Byte>, pos: nat, m: Message)
    requires FieldOk(f) && f.num !in Known(m) && pos + |FieldBytes(f)| < TWO_63
    ensures ReadField(inner, FieldBytes(f) + rest, pos, m) == Step(m, |FieldBytes(f)|)
  {
    FieldTag(f, rest);
    assert UnknownStep(FieldBytes(f) + rest, pos, m) == Step(m, |FieldBytes(f)|) by {
      SkipField(f, rest);
    }
  }

  /**
   A well-formed field that the message does not know, inserted between any two fields of a buffer, does not change
   what the buffer decodes to, nor whether it decodes.
   */
  lemma UnknownFieldIgnored(inner: RowBatchCheck, a: seq<Byte>, f: Field, b: seq<Byte>, m: Message)
    requires Decode(inner, a, m).Ok? && FieldOk(f) && f.num !in Known(m) && |a| + |FieldBytes(f)| + |b| < TWO_63
    ensures Decode(inner, a + FieldBytes(f) + b, m).Ok? <==> Decode(inner, a + b, m).Ok?
    ensures Decode(inner, a + b, m).Ok? ==> Decode(inner, a + FieldBytes(f) + b, m) == Decode(inner, a + b, m)
  {
    FieldsRegular(inner);
    InsertedField(Fields(inner), a, FieldBytes(f), b, m, Decode(inner, a, m).msg) by {
      ParseConcat(Fields(inner), a, b, 0, m);
      ReadsUnknown(inner, f, b, |a|, Decode(inner, a, m).msg);
    }
  }

  lemma InsertedField(read: FieldReader, a: seq<Byte>, e: seq<Byte>, b: seq<Byte>, m: Message, m1: Message)
    requires Regular(read) && ParseWith(read, a, 0, m) == Ok(m1) && e != [] && |a| + |e| + |b| < TWO_63
    requires read(e + b, |a|, m1) == Step(m1, |e|)
    ensures ParseWith(read, a + e + b, 0, m).Ok? <==> ParseWith(read, a + b, 0, m).Ok?
    ensures ParseWith(read, a + b, 0, m).Ok? ==> ParseWith(read, a + e + b, 0, m) == ParseWith(read, a + b, 0, m)
  {
    ParsePast(read, a, e, b, m, m1);
    ParseConcat(read, a, b, 0, m);
    ParseSame(read, b, |a|, |a| + |e|, m1);
  }

  /** Parsing passes over the inserted field. */
  lemma ParsePast(read: FieldReader, a: seq<Byte>, e: seq<Byte>, b: seq<Byte>, m: Message, m1: Message)
    requires Regular(read) && ParseWith(read, a, 0, m) == Ok(m1) && e != [] && read(e + b, |a|, m1) == Step(m1, |e|)
    ensures ParseWith(read, a + e + b, 0, m) == ParseWith(read, b, |a| + |e|, m1)
  {
    assert a + e + b == a + (e + b);
    ParseConcat(read, a, e + b, 0, m);
    ParseField(read, e, b, |a|, m1, m1);
  }

  lemma ParseSame(read: FieldReader, s: seq<Byte>, pos: nat, pos': nat, m: Message)
    requires Regular(read) && pos + |s| < TWO_63 && pos' + |s| < TWO_63
    ensures ParseWith(read, s, pos, m).Ok? <==> ParseWith(read, s, pos', m).Ok?
    ensures ParseWith(read, s, pos, m).Ok? ==> ParseWith(read, s, pos', m) == ParseWith(read, s, pos, m)
  {
    if ParseWith(read, s, pos, m).Ok? {
      ParseAnywhere(read, s, pos, pos', m);
    }
    if ParseWith(read, s, pos', m).Ok? {
      ParseAnywhere(read, s, pos', pos, m);
    }
  }

  // ---- The unmarshalling loop ----

  method ReadDelimitedAt(dAtA: seq<Byte>, index: nat) returns (r: Delimited)
    requires index <= |dAtA|
    ensures r == ReadDelimited(dAtA[index..], index)
  {
    var v := DecodeVarintAt(dAtA, index);
    if v.BadVarint? {
      return BadDelimited(v.error);
    }
    ReadVarintSize(dAtA[index..], 0, 0);
    var start := index + v.size;
    if ToInt64(v.value) < 0 {
      return BadDelimited(InvalidLength);
    }
    var postIndex := start + v.value;
    if postIndex >= TWO_63 {
      return BadDelimited(InvalidLength);
    }
    if postIndex > |dAtA| {
      return BadDelimited(UnexpectedEOF);
    }
    assert dAtA[index..][v.size..v.size + v.value] == dAtA[start..postIndex];
    return Delimited(dAtA[start..postIndex], postIndex - index);
  }

  method SkipUnknownAt(dAtA: seq<Byte>, index: nat, m: Message) returns (r: Step)
    requires index <= |dAtA|
    ensures r == UnknownStep(dAtA[index..], index, m)
  {
    var skippy := SkipCarnot(dAtA[index..]);
    if skippy.BadSkip? {
      return BadStep(skippy.error);
    }
    if index + skippy.end >= TWO_63 {
      return BadStep(InvalidLength);
    }
    if index + skippy.end > |dAtA| {
      return BadStep(UnexpectedEOF);
    }
    return Step(m, skippy.end);
  }

  /** Read a known field whose tag has been read. */
  method ReadKnownAt(inner: RowBatchCheck, dAtA: seq<Byte>, index: nat, tag: Tag, m: Message) returns (r: Step)
    requires tag.Tag? && tag.num in Known(m) && index + tag.size <= |dAtA|
    ensures r == KnownStep(inner, tag, dAtA[index + tag.size..], index, m)
  {
    var isVarint := if m.Response? then tag.num == 1 else tag.num == 2;
    if tag.wireType != (if isVarint then 0 else 2) {
      return BadStep(WrongWireType);
    }
    if isVarint {
      var v := DecodeVarintAt(dAtA, index + tag.size);
      if v.BadVarint? {
        return BadStep(v.error);
      }
      if m.Response? {
        return Step(m.(success := v.value != 0), tag.size + v.size);
      }
      return Step(m.(destination := GRPCSourceID(v.value)), tag.size + v.size);
    }
    var d := ReadDelimitedAt(dAtA, index + tag.size);
    if d.BadDelimited? {
      return BadStep(d.error);
    }
    if m.Response? {
      return Step(m.(message := d.data), tag.size + d.size);
    }
    if tag.num == 1 {
      var failure := inner(d.data);
      if failure.Some? {
        return BadStep(failure.value);
      }
      return Step(m.(contents := RowBatch(Some(d.data))), tag.size + d.size);
    }
    return Step(m.(destination := TableName(d.data)), tag.size + d.size);
  }

  method ReadFieldAt(inner: RowBatchCheck, dAtA: seq<Byte>, index: nat, m: Message) returns (r: Step)
    requires index < |dAtA|
    ensures r == ReadField(inner, dAtA[index..], index, m)
  {
    var wire := DecodeVarintAt(dAtA, index);
    if wire.BadVarint? {
      return BadStep(wire.error);
    }
    ReadVarintSize(dAtA[index..], 0, 0);
    var fieldNum, wireType := ToInt32(wire.value / 8), wire.value % 8;
    if wireType == 4 {
      return BadStep(EndGroupForNonGroup);
    }
    if fieldNum <= 0 {
      return BadStep(IllegalTag);
    }
    var tag := Tag(fieldNum, wireType, wire.size);
    assert Drop(dAtA[index..], tag.size) == dAtA[index + tag.size..];
    if fieldNum in Known(m) {
      r := ReadKnownAt(inner, dAtA, index, tag, m);
    } else {
      r := SkipUnknownAt(dAtA, index, m);
    }
  }

  lemma ParseNext(read: FieldReader, dAtA: seq<Byte>, index: nat, m: Message)
    requires Regular(read) && index < |dAtA|
    ensures var step := read(dAtA[index..], index, m);
            if step.BadStep? then ParseWith(read, dAtA[index..], index, m) == Err(step.error)
            else index < index + step.size <= |dAtA| &&
                 ParseWith(read, dAtA[index..], index, m) ==
                   ParseWith(read, dAtA[index + step.size..], index + step.size, step.msg)
  {
    var s := dAtA[index..];
    assert ReadsAlike(read, s, [], index, m);
    var step := read(s, index, m);
    if step.Step? {
      assert s[step.size..] == dAtA[index + step.size..];
    }
  }

  ghost predicate SameRead(inner: RowBatchCheck, read: FieldReader, s: seq<Byte>, pos: nat, m: Message) {
    read(s, pos, m) == ReadField(inner, s, pos, m)
  }

  ghost predicate IsReadField(inner: RowBatchCheck, read: FieldReader) {
    forall s, pos, m :: SameRead(inner, read, s, pos, m)
  }

  method ReadFieldAs(inner: RowBatchCheck, dAtA: seq<Byte>, index: nat, m: Message, ghost read: FieldReader)
    returns (r: Step)
    requires index < |dAtA| && IsReadField(inner, read)
    ensures r == read(dAtA[index..], index, m)
  {
    r := ReadFieldAt(inner, dAtA, index, m);
    assert SameRead(inner, read, dAtA[index..], index, m);
  }

  /** The unmarshalling loop; `read` stands for the reading of one field. */
  method UnmarshalLoop(inner: RowBatchCheck, dAtA: seq<Byte>, m: Message, ghost read: FieldReader) returns (r: Result)
    requires Regular(read) && IsReadField(inner, read)
    ensures r == ParseWith(read, dAtA, 0, m)
  {
    var index, msg := 0, m;
    assert dAtA[0..] == dAtA;
    while index < |dAtA|
      invariant index <= |dAtA|
      invariant ParseWith(read, dAtA[index..], index, msg) == ParseWith(read, dAtA, 0, m)
    {
      ParseNext(read, dAtA, index, msg);
      var step := ReadFieldAs(inner, dAtA, index, msg, read);
      if step.BadStep? {
        return Err(step.error);
      }
      index, msg := index + step.size, step.msg;
    }
    return Ok(msg);
  }

  method Unmarshal(inner: RowBatchCheck, dAtA: seq<Byte>, m: Message) returns (r: Result)
    ensures r == Decode(inner, dAtA, m)
  {
    FieldsRegular(inner);
    r := UnmarshalLoop(inner, dAtA, m, Fields(inner));
  }

  /** A message that is marshalled and unmarshalled comes back, if its row batch decodes. */
  method Transfer(inner: RowBatchCheck, m: Message) returns (r: Result)
    requires Representable(m)
    ensures r == Arrival(inner, m)
  {
    var bytes := Marshal(m);
    RoundTrip(inner, m);
    r := Unmarshal(inner, bytes, Empty(m));
  }
}
