/** The wire format of Protocol Buffers by its own numbers, apart from the encoder and the decoder of this model: what
    the encoder writes is read by it, and what the decoder skips is a record of it. */
module WireFormat {
  import opened Bytes
  import opened Varints
  import opened Fields
  import opened Encoding
  import opened FieldIter
  import opened Decoding
  import opened Folding

  // ---- A reader of records ----

  datatype Payload = Number(v: nat) | Eight(bytes: seq<byte>) | Run(bytes: seq<byte>) | Four(bytes: seq<byte>)

  datatype Rec = Rec(number: nat, payload: Payload)

  /** A base-128 varint of any length. */
  function ReadNumber(bs: seq<byte>): (r: Parsed<nat>)
    ensures r.Ok? ==> |r.rest| < |bs|
  {
    match VarintEnd(bs)
    case None => Fail
    case Some(n) => Ok(VarintValue(bs[..n]), bs[n..])
  }

  /** What is behind a key: its low three bits say 0 for a varint, 1 for eight bytes, 2 for a length and that many
      bytes, and 5 for four bytes. */
  function ReadPayload(low: nat, bs: seq<byte>): (r: Parsed<Payload>)
    ensures r.Ok? ==> |r.rest| <= |bs|
  {
    match low
    case 0 =>
      (match ReadNumber(bs) case Fail => Fail case Ok(v, rest) => Ok(Number(v), rest))
    case 1 => if |bs| < 8 then Fail else Ok(Eight(bs[..8]), bs[8..])
    case 2 =>
      (match ReadNumber(bs) case Fail => Fail
        case Ok(n, rest) => if n > |rest| then Fail else Ok(Run(rest[..n]), rest[n..]))
    case 5 => if |bs| < 4 then Fail else Ok(Four(bs[..4]), bs[4..])
    case _ => Fail
  }

  /** A key, which is eight times the field number and the low three bits, and what is behind it. */
  function ReadRecord(bs: seq<byte>): (r: Parsed<Rec>)
    ensures r.Ok? ==> |r.rest| < |bs|
  {
    match ReadNumber(bs)
    case Fail => Fail
    case Ok(key, rest) =>
      match ReadPayload(key % 8, rest)
      case Fail => Fail
      case Ok(p, rest') => Ok(Rec(key / 8, p), rest')
  }

  function ReadAll(bs: seq<byte>): Option<seq<Rec>>
    decreases |bs|
  {
    if bs == [] then Some([])
    else match ReadRecord(bs)
      case Fail => None
      case Ok(rec, rest) =>
        match ReadAll(rest)
        case None => None
        case Some(recs) => Some([rec] + recs)
  }

  // ---- The records of a structure ----

  /** The number that four bytes hold, least significant first. */
  function Word(b0: nat, b1: nat, b2: nat, b3: nat): nat
  {
    b0 + 0x100 * b1 + 0x1_0000 * b2 + 0x100_0000 * b3
  }

  /** The number that four or eight bytes hold, least significant first. */
  function Little(b: seq<byte>): nat
    requires |b| == 4 || |b| == 8
  {
    Word(b[0], b[1], b[2], b[3]) + if |b| == 4 then 0 else 0x1_0000_0000 * Word(b[4], b[5], b[6], b[7])
  }

  /** The payload shows the item. A negative number is written as its two's complement in 64 bits, or in the zigzag
      form; a string up to its terminator. */
  ghost predicate Shows(f: Field, v: Value, p: Payload)
    decreases f, 0
  {
    match f.kind
    case Varint => v.VInt? && p.Number? && p.v == if v.n >= 0 then v.n else v.n + 0x1_0000_0000_0000_0000
    case UVarint => v.VInt? && v.n >= 0 && p == Number(v.n)
    case SVarint => v.VInt? && p == Number(if v.n >= 0 then 2 * v.n else -2 * v.n - 1)
    case Fixed32 => v.VInt? && p.Four? && |p.bytes| == 4 && Little(p.bytes) == v.n
    case Fixed64 => v.VInt? && p.Eight? && |p.bytes| == 8 && Little(p.bytes) == v.n
    case Bytes => v.VBytes? && p == Run(v.bytes) && |v.bytes| + BYTES_OFFSET <= f.entry.dataSize
    case String =>
      v.VBytes? && |v.bytes| <= f.entry.dataSize && p.Run? && p.bytes <= v.bytes && 0 !in p.bytes &&
        (|p.bytes| < |v.bytes| ==> v.bytes[|p.bytes|] == 0)
    case FixedBytes => v.VBytes? && p == Run(v.bytes) && |v.bytes| == f.entry.dataSize
    case Message(sub) =>
      v.VMsg? && p.Run? && ReadAll(p.bytes).Some? && Lists(sub, v.msg, |sub|, ReadAll(p.bytes).value)
  }

  /** The run holds the numbers one behind the other, each as it would be the payload of a record of its own. */
  ghost predicate RunShows(f: Field, items: seq<Value>, bs: seq<byte>)
    decreases f, 1, |items|
  {
    if items == [] then bs == []
    else
      var r := ReadPayload(if f.kind.Fixed32? then 5 else if f.kind.Fixed64? then 1 else 0, bs);
      r.Ok? && Shows(f, items[0], r.value) && RunShows(f, items[1..], r.rest)
  }

  /** A numeric array is one run, any other one record per item. */
  ghost predicate ArrayListed(f: Field, items: seq<Value>, recs: seq<Rec>)
    decreases f, 2
  {
    if f.kind.Packable() then
      if items == [] then recs == []
      else |recs| == 1 && recs[0].number == f.entry.tag && recs[0].payload.Run?
           && RunShows(f, items, recs[0].payload.bytes)
    else
      && |recs| == |items|
      && forall k :: 0 <= k < |items| ==> recs[k].number == f.entry.tag && Shows(f, items[k], recs[k].payload)
  }

  /** The field is in the structure: an optional one by its flag, a member of a oneof by the selector, and a proto3
      field without a flag if it is not zero. */
  predicate Stands(f: Field, m: Msg, i: nat)
    decreases f, 1
  {
    match f.entry.rule
    case Required => true
    case Optional => m.SlotAt(i).has
    case Oneof(group) => m.Which(group) == f.entry.tag
    case Repeated => m.SlotAt(i).items != []
    case Singular => NotZero(f, m.SlotAt(i).Item())
  }

  /** A number other than 0, bytes that are not empty or do not begin with the terminator, or a structure in which
      some field is not left at zero; of a oneof there, any member counts as selected by another selector than 0. */
  predicate NotZero(f: Field, v: Value)
    decreases f, 0
  {
    match f.kind
    case Message(sub) =>
      v.VMsg? ==> exists i ::
        0 <= i < |sub| && if sub[i].entry.rule.Oneof? then v.msg.Which(sub[i].entry.rule.group) != 0
                          else Stands(sub[i], v.msg, i)
    case Bytes => v != VBytes([])
    case String => v.VBytes? ==> v.bytes != [] && v.bytes[0] != 0
    case FixedBytes => f.entry.dataSize != 0
    case _ => v != VInt(0)
  }

  lemma {:induction false} StandsIsPresent(f: Field, m: Msg, i: nat)
    requires !f.entry.rule.Repeated?
    ensures Stands(f, m, i) == Present(f, m, i)
    decreases f, 1
  {
    if f.entry.rule.Singular? { NotZeroIsNotZero(f, m.SlotAt(i).Item()); }
  }

  lemma {:induction false} NotZeroIsNotZero(f: Field, v: Value)
    ensures NotZero(f, v) == !IsZeroValue(f, v)
    decreases f, 0
  {
    if f.kind.Message? && v.VMsg? {
      var sub := f.kind.sub;
      forall i | 0 <= i < |sub| && !sub[i].entry.rule.Oneof?
        ensures Stands(sub[i], v.msg, i) == !IsZero(sub[i], v.msg, i)
      {
        if !sub[i].entry.rule.Repeated? { StandsIsPresent(sub[i], v.msg, i); }
      }
    }
  }

  /** How many records there are of a field. */
  function Count(f: Field, m: Msg, i: nat): nat
  {
    var items := m.SlotAt(i).items;
    if f.entry.rule.Repeated? then if f.kind.Packable() && items != [] then 1 else |items|
    else if Stands(f, m, i) then 1 else 0
  }

  ghost predicate FieldListed(f: Field, m: Msg, i: nat, recs: seq<Rec>)
    decreases f, 3
  {
    if f.entry.rule.Repeated? then
      |m.SlotAt(i).items| <= f.entry.arraySize && ArrayListed(f, m.SlotAt(i).items, recs)
    else
      && |recs| == Count(f, m, i)
      && (recs != [] ==> recs[0].number == f.entry.tag && Shows(f, m.SlotAt(i).Item(), recs[0].payload))
  }

  /** The records are those of the first n fields, in order. */
  ghost predicate Lists(fields: seq<Field>, m: Msg, n: nat, recs: seq<Rec>)
    decreases fields, 4, n
  {
    if n == 0 || n > |fields| then recs == []
    else
      var k := Count(fields[n - 1], m, n - 1);
      && k <= |recs| && Lists(fields, m, n - 1, recs[..|recs| - k])
      && FieldListed(fields[n - 1], m, n - 1, recs[|recs| - k..])
  }

  // ---- Reading on ----

  lemma {:induction false} NumberExtend(a: seq<byte>, b: seq<byte>)
    requires ReadNumber(a).Ok?
    ensures ReadNumber(a + b) == Before(ReadNumber(a), b)
  {
    VarintEndExtend(a, b);
    var n := VarintEnd(a).value;
    assert (a + b)[..n] == a[..n] && (a + b)[n..] == a[n..] + b;
  }

  lemma {:induction false} Split(a: seq<byte>, b: seq<byte>, n: nat)
    requires n <= |a|
    ensures (a + b)[..n] == a[..n] && (a + b)[n..] == a[n..] + b
  {}

  lemma {:induction false} PayloadExtend(low: nat, a: seq<byte>, b: seq<byte>)
    requires ReadPayload(low, a).Ok?
    ensures ReadPayload(low, a + b) == Before(ReadPayload(low, a), b)
  {
    hide ReadNumber;
    if low == 0 || low == 2 {
      NumberExtend(a, b);
      if low == 2 { Split(ReadNumber(a).rest, b, ReadNumber(a).value); }
    } else {
      Split(a, b, if low == 1 then 8 else 4);
    }
  }

  lemma {:induction false} RecordExtend(a: seq<byte>, b: seq<byte>)
    requires ReadRecord(a).Ok?
    ensures ReadRecord(a + b) == Before(ReadRecord(a), b)
  {
    hide ReadNumber, ReadPayload;
    NumberExtend(a, b);
    PayloadExtend(ReadNumber(a).value % 8, ReadNumber(a).rest, b);
  }

  lemma {:induction false} AllExtend(a: seq<byte>, b: seq<byte>)
    requires ReadAll(a).Some? && ReadAll(b).Some?
    ensures ReadAll(a + b) == Some(ReadAll(a).value + ReadAll(b).value)
    decreases |a|
  {
    hide ReadRecord;
    if a == [] {
      assert a + b == b && [] + ReadAll(b).value == ReadAll(b).value;
    } else {
      RecordExtend(a, b);
      var rec, rest := ReadRecord(a).value, ReadRecord(a).rest;
      AllExtend(rest, b);
      assert [rec] + (ReadAll(rest).value + ReadAll(b).value) == ([rec] + ReadAll(rest).value) + ReadAll(b).value;
    }
  }

  // ---- What the encoder writes ----

  lemma {:induction false} NumberWritten(v: nat, rest: seq<byte>)
    ensures ReadNumber(EncVarint(v) + rest) == Ok(v, rest)
  {
    EncVarintShape(v, rest);
    Split(EncVarint(v), rest, |EncVarint(v)|);
    assert EncVarint(v)[..|EncVarint(v)|] == EncVarint(v) && [] + rest == rest;
  }

  lemma {:induction false} KeyWritten(low: nat, tag: nat, e: seq<byte>, p: Payload)
    requires low < 8 && ReadPayload(low, e) == Ok(p, [])
    ensures ReadAll(EncTag(low, tag) + e) == Some([Rec(tag, p)])
  {
    hide ReadNumber, ReadPayload, EncVarint;
    NumberWritten(8 * tag + low, e);
    assert ReadAll([]) == Some([]) && [Rec(tag, p)] + [] == [Rec(tag, p)];
  }

  lemma {:induction false} RunWritten(payload: seq<byte>)
    ensures ReadPayload(2, Prefixed(payload)) == Ok(Run(payload), [])
  {
    hide ReadNumber, EncVarint;
    NumberWritten(|payload|, payload);
    assert payload[..|payload|] == payload && payload[|payload|..] == [];
  }

  lemma {:induction false} LittleWritten(v: nat, size: nat)
    requires (size == 4 && v < U32) || (size == 8 && v < U64)
    ensures |LittleEndian(v, size)| == size && Little(LittleEndian(v, size)) == v
  {
    hide LittleEndian;
    var b := LittleEndian(v, size);
    var high := Quarter(v, size);
    if size == 8 {
      var c := LittleEndian(high, 4);
      var _ := Quarter(high, 4);
      assert b[4..] == c && b[4] == c[0] && b[5] == c[1] && b[6] == c[2] && b[7] == c[3];
    }
  }

  /** The four lowest bytes of a number. */
  lemma {:induction false} Quarter(v: nat, size: nat) returns (high: nat)
    requires size >= 4
    ensures var b := LittleEndian(v, size);
      v == Word(b[0], b[1], b[2], b[3]) + U32 * high && b[4..] == LittleEndian(high, size - 4)
    ensures v < U32 ==> high == 0
    ensures v < U64 ==> high < U32
  {
    var v1 := v / 256;
    var v2 := v1 / 256;
    var v3 := v2 / 256;
    high := v3 / 256;
    var b := LittleEndian(v, size);
    var b1 := LittleEndian(v1, size - 1);
    var b2 := LittleEndian(v2, size - 2);
    var b3 := LittleEndian(v3, size - 3);
    assert b == [v % 256] + b1 && b1 == [v1 % 256] + b2 && b2 == [v2 % 256] + b3 &&
           b3 == [v3 % 256] + LittleEndian(high, size - 4);
    assert b == [v % 256, v1 % 256, v2 % 256, v3 % 256] + LittleEndian(high, size - 4);
  }

  /** The low three bits of the key of a single item, by the standard. */
  function LowBits(kind: Kind): nat
  {
    if kind.Varint? || kind.UVarint? || kind.SVarint? then 0
    else if kind.Fixed64? then 1
    else if kind.Fixed32? then 5
    else 2
  }

  lemma {:induction false} ItemWritten(f: Field, v: Value)
    requires EncItem(f, v).Some?
    ensures WireType(f.kind) == LowBits(f.kind)
    ensures var r := ReadPayload(LowBits(f.kind), EncItem(f, v).value); r.Ok? && r.rest == [] && Shows(f, v, r.value)
    decreases f, 0
  {
    hide ReadNumber, EncVarint, LittleEndian;
    match f.kind {
      case Message(sub) =>
        MessageWritten(sub, v.msg, |sub|);
        RunWritten(EncMsg(sub, v.msg, |sub|).value);
      case Bytes => RunWritten(v.bytes);
      case String => RunWritten(CString(v.bytes));
      case FixedBytes => RunWritten(v.bytes);
      case _ => NumeralWritten(f, v);
    }
  }

  lemma {:induction false} NumeralWritten(f: Field, v: Value)
    requires f.kind.Packable() && EncItem(f, v).Some?
    ensures var r := ReadPayload(LowBits(f.kind), EncItem(f, v).value); r.Ok? && r.rest == [] && Shows(f, v, r.value)
  {
    hide ReadNumber, EncVarint, LittleEndian;
    if f.kind.Fixed32? || f.kind.Fixed64? {
      var size := if f.kind.Fixed32? then 4 else 8;
      LittleWritten(v.n, size);
      var e := LittleEndian(v.n, size);
      assert e[..size] == e && e[size..] == [];
    } else {
      var u := if f.kind.SVarint? then ZigZag(v.n) else v.n % U64;
      NumberWritten(u, []);
      assert EncVarint(u) + [] == EncVarint(u);
      Wrapped(v.n);
    }
  }

  lemma {:induction false} Wrapped(n: int)
    requires -I64 <= n < U64
    ensures n % U64 == if n >= 0 then n else n + U64
    ensures n < I64 ==> ZigZag(n) == if n >= 0 then 2 * n else -2 * n - 1
  {
    if -I64 <= n < 0 { WrapDouble(n); }
  }

  /** One more number at the end of a run. */
  lemma {:induction false} RunMore(f: Field, items: seq<Value>, bs: seq<byte>, v: Value, e: seq<byte>)
    requires f.kind.Packable() && RunShows(f, items, bs)
    requires var r := ReadPayload(LowBits(f.kind), e); r.Ok? && r.rest == [] && Shows(f, v, r.value)
    ensures RunShows(f, items + [v], bs + e)
    decreases |items|
  {
    hide ReadPayload, Shows;
    var all := items + [v];
    if items == [] {
      assert bs + e == e && all[0] == v && all[1..] == [];
      assert RunShows(f, [], []);
    } else {
      PayloadExtend(LowBits(f.kind), bs, e);
      RunMore(f, items[1..], ReadPayload(LowBits(f.kind), bs).rest, v, e);
      assert all[0] == items[0] && all[1..] == items[1..] + [v];
    }
  }

  lemma {:induction false} RunOfItems(f: Field, items: seq<Value>, n: nat)
    requires f.kind.Packable() && n <= |items| && EncItems(f, items, n, false).Some?
    ensures RunShows(f, items[..n], EncItems(f, items, n, false).value)
    decreases n
  {
    hide ReadPayload, EncItem, Shows;
    if n > 0 {
      var before, e := EncItems(f, items, n - 1, false).value, EncItem(f, items[n - 1]).value;
      RunOfItems(f, items, n - 1);
      NumeralWritten(f, items[n - 1]);
      RunMore(f, items[..n - 1], before, items[n - 1], e);
      assert items[..n - 1] + [items[n - 1]] == items[..n] && before + [] + e == before + e;
    }
  }

  lemma {:induction false} TaggedItems(f: Field, items: seq<Value>, n: nat)
    requires n <= |items| && EncItems(f, items, n, true).Some?
    ensures var all := ReadAll(EncItems(f, items, n, true).value);
      && all.Some? && |all.value| == n
      && forall k :: 0 <= k < n ==> all.value[k].number == f.entry.tag && Shows(f, items[k], all.value[k].payload)
    decreases f, 1, n
  {
    hide ReadPayload, EncItem, Shows, ReadAll;
    if n == 0 {
      assert ReadAll([]) == Some([]) by { NothingRead(); }
    } else {
      var before, e := EncItems(f, items, n - 1, true).value, EncItem(f, items[n - 1]).value;
      TaggedItems(f, items, n - 1);
      ItemWritten(f, items[n - 1]);
      KeyWritten(LowBits(f.kind), f.entry.tag, e, ReadPayload(LowBits(f.kind), e).value);
      AllExtend(before, EncTagFor(f) + e);
      assert before + EncTagFor(f) + e == before + (EncTagFor(f) + e);
    }
  }

  lemma {:induction false} NothingRead()
    ensures ReadAll([]) == Some([])
  {}

  lemma {:induction false} FieldWritten(f: Field, m: Msg, i: nat)
    requires EncField(f, m, i).Some?
    ensures var all := ReadAll(EncField(f, m, i).value);
      all.Some? && |all.value| == Count(f, m, i) && FieldListed(f, m, i, all.value)
    decreases f, 2
  {
    hide ReadPayload, EncItem, Shows, ReadAll, Present, Stands, RunShows;
    NothingRead();
    if !f.entry.rule.Repeated? { StandsIsPresent(f, m, i); }
    var items := m.SlotAt(i).items;
    if f.entry.rule.Repeated? {
      if items != [] && f.kind.Packable() {
        var payload := EncItems(f, items, |items|, false).value;
        RunOfItems(f, items, |items|);
        assert items[..|items|] == items;
        RunWritten(payload);
        KeyWritten(2, f.entry.tag, Prefixed(payload), Run(payload));
      } else if items != [] {
        TaggedItems(f, items, |items|);
      }
    } else if Present(f, m, i) {
      var e := EncItem(f, m.SlotAt(i).Item()).value;
      ItemWritten(f, m.SlotAt(i).Item());
      KeyWritten(LowBits(f.kind), f.entry.tag, e, ReadPayload(LowBits(f.kind), e).value);
    }
  }

  /** Whatever structure is encoded, its bytes are records of the standard, and they list the structure: the fields in
      order, each that is present under its number and with its value. */
  lemma {:induction false} MessageWritten(fields: seq<Field>, m: Msg, n: nat)
    requires n <= |fields| && EncMsg(fields, m, n).Some?
    ensures var all := ReadAll(EncMsg(fields, m, n).value); all.Some? && Lists(fields, m, n, all.value)
    decreases fields, 4, n
  {
    hide ReadAll, EncField, FieldListed, Count;
    NothingRead();
    if n > 0 {
      MessageWritten(fields, m, n - 1);
      FieldWritten(fields[n - 1], m, n - 1);
      AllExtend(EncMsg(fields, m, n - 1).value, EncField(fields[n - 1], m, n - 1).value);
    }
  }

  // ---- What can be encoded ----

  /** The item can be written: a number that its field can hold, bytes within their array, a string within its array,
      of which the terminator may be missing, and a structure of which the fields can. */
  ghost predicate Writable(f: Field, v: Value)
    decreases f, 0
  {
    match f.kind
    case Varint => v.VInt? && InSigned(f.entry.dataSize, v.n)
    case SVarint => v.VInt? && InSigned(f.entry.dataSize, v.n)
    case UVarint =>
      v.VInt? && 0 <= v.n < (match f.entry.dataSize case 1 => 0x100 case 2 => 0x1_0000 case 4 => 0x1_0000_0000
                               case 8 => 0x1_0000_0000_0000_0000 case _ => 0)
    case Fixed32 => v.VInt? && 0 <= v.n < 0x1_0000_0000
    case Fixed64 => v.VInt? && 0 <= v.n < 0x1_0000_0000_0000_0000
    case Bytes => v.VBytes? && |v.bytes| + BYTES_OFFSET <= f.entry.dataSize
    case String => v.VBytes? && |v.bytes| <= f.entry.dataSize
    case FixedBytes => v.VBytes? && |v.bytes| == f.entry.dataSize
    case Message(sub) => v.VMsg? && forall i :: 0 <= i < |sub| ==> FieldWritable(sub[i], v.msg, i)
  }

  predicate InSigned(size: nat, n: int)
  {
    match size
    case 1 => -0x80 <= n < 0x80
    case 2 => -0x8000 <= n < 0x8000
    case 4 => -0x8000_0000 <= n < 0x8000_0000
    case 8 => -0x8000_0000_0000_0000 <= n < 0x8000_0000_0000_0000
    case _ => false
  }

  /** What is there can be written, and an array has no more items than there is room for. */
  ghost predicate FieldWritable(f: Field, m: Msg, i: nat)
    decreases f, 1
  {
    var items := m.SlotAt(i).items;
    if f.entry.rule.Repeated? then
      |items| <= f.entry.arraySize && forall k :: 0 <= k < |items| ==> Writable(f, items[k])
    else
      Stands(f, m, i) ==> Writable(f, m.SlotAt(i).Item())
  }

  lemma {:induction false} ItemEncodes(f: Field, v: Value)
    ensures EncItem(f, v).Some? <==> Writable(f, v)
    decreases f, 0
  {
    hide EncVarint, LittleEndian, CString;
    if f.kind.Message? && v.VMsg? {
      EncodesExactly(f.kind.sub, v.msg, |f.kind.sub|);
    }
  }

  lemma {:induction false} ItemsEncode(f: Field, items: seq<Value>, n: nat, tagged: bool)
    requires n <= |items|
    ensures EncItems(f, items, n, tagged).Some? <==> forall k :: 0 <= k < n ==> Writable(f, items[k])
    decreases f, 1, n
  {
    hide EncItem, Writable;
    if n > 0 {
      ItemsEncode(f, items, n - 1, tagged);
      ItemEncodes(f, items[n - 1]);
    }
  }

  lemma {:induction false} FieldEncodes(f: Field, m: Msg, i: nat)
    ensures EncField(f, m, i).Some? <==> FieldWritable(f, m, i)
    decreases f, 2
  {
    hide EncItem, Writable, EncItems, Present, Stands;
    var items := m.SlotAt(i).items;
    if f.entry.rule.Repeated? {
      ItemsEncode(f, items, |items|, !f.kind.Packable());
    } else {
      StandsIsPresent(f, m, i);
      ItemEncodes(f, m.SlotAt(i).Item());
    }
  }

  /** A structure can be encoded exactly when each of its fields that are there can be written. */
  lemma {:induction false} EncodesExactly(fields: seq<Field>, m: Msg, n: nat)
    requires n <= |fields|
    ensures EncMsg(fields, m, n).Some? <==> forall i :: 0 <= i < n ==> FieldWritable(fields[i], m, i)
    decreases fields, 4, n
  {
    hide EncField, FieldWritable;
    if n > 0 {
      EncodesExactly(fields, m, n - 1);
      FieldEncodes(fields[n - 1], m, n - 1);
    }
  }

  // ---- What the decoder skips ----

  /** A record that is not listed is skipped whole by the low three bits of its key, whatever is behind it; what is
      not a record of the standard is an error. Lengths are read as the 32 low bits of their varint. */
  lemma {:induction false} Unlisted(fields: seq<Field>, st: State, bs: seq<byte>)
    requires InList(fields, st) && DecVarint32(bs).Ok? && DecVarint32(bs).value != 0
    requires fields == [] ==> DecVarint32(bs).value >= 8
    requires forall j :: 0 <= j < |fields| ==> fields[j].entry.tag != DecVarint32(bs).value / 8
    ensures var key, rest := DecVarint32(bs).value, DecVarint32(bs).rest;
      DecTurn(fields, st, bs) ==
      if key % 8 == 0 && VarintEnd(rest).Some? then Go(st, rest[VarintEnd(rest).value..])
      else if key % 8 == 1 && |rest| >= 8 then Go(st, rest[8..])
      else if key % 8 == 2 && DecVarint32(rest).Ok? && DecVarint32(rest).value <= |DecVarint32(rest).rest| then
        Go(st, DecVarint32(rest).rest[DecVarint32(rest).value..])
      else if key % 8 == 5 && |rest| >= 4 then Go(st, rest[4..])
      else Error
  {
    hide DecField, DecVarint32, VarintEnd;
    if fields != [] { NoMatch(Entries(fields), st.pos, DecVarint32(bs).value / 8, |fields|); }
  }

  lemma {:induction false} NoMatch(es: seq<Entry>, pos: nat, tag: nat, n: nat)
    requires pos < |es| && forall j :: 0 <= j < |es| ==> es[j].tag != tag
    ensures FindFrom(es, pos, tag, n).None?
    decreases n
  {
    if n > 0 { NoMatch(es, if pos + 1 == |es| then 0 else pos + 1, tag, n - 1); }
  }

  /** A record of the standard that is not listed leaves the structure alone. */
  lemma {:induction false} RecordSkipped(fields: seq<Field>, st: State, low: nat, number: nat, bs: seq<byte>)
    requires InList(fields, st) && low < 8 && 0 < number < 0x2000_0000
    requires forall j :: 0 <= j < |fields| ==> fields[j].entry.tag != number
    requires ReadPayload(low, bs).Ok? && (low == 2 ==> DecVarint32(bs) == ReadNumber(bs))
    ensures DecTurn(fields, st, EncVarint(8 * number + low) + bs) == Go(st, ReadPayload(low, bs).rest)
  {
    hide DecVarint32, VarintEnd, EncVarint, DecTurn;
    Varint32RoundTrip(8 * number + low, bs);
    Unlisted(fields, st, EncVarint(8 * number + low) + bs);
  }

  /** The bytes of the examples in the documentation of the format: field 1 with 150, and field 4 with the packed run
      3, 270, 86942. */
  lemma {:induction false} DocumentedExamples()
    ensures EncTag(0, 1) + EncVarint(150) == [0x08, 0x96, 0x01]
    ensures EncTag(2, 4) + Prefixed(EncVarint(3) + EncVarint(270) + EncVarint(86942))
            == [0x22, 0x06, 0x03, 0x8E, 0x02, 0x9E, 0xA7, 0x05]
  {
    assert EncVarint(150) == [150 % 128 + 128] + EncVarint(1);
    assert EncVarint(270) == [270 % 128 + 128] + EncVarint(2);
    assert EncVarint(86942) == [86942 % 128 + 128] + EncVarint(679);
    assert EncVarint(679) == [679 % 128 + 128] + EncVarint(5);
  }
}
