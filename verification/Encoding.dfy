/** What pb_encode writes, as a function of the descriptor and the structure; None is an encoding error. */
module Encoding {
  import opened Bytes
  import opened Varints
  import opened Fields

  const WT_VARINT: nat := 0
  const WT_64BIT: nat := 1
  const WT_STRING: nat := 2
  const WT_32BIT: nat := 5

  function WireType(kind: Kind): (wt: nat)
    ensures wt < 8
  {
    match kind
    case Varint => WT_VARINT
    case UVarint => WT_VARINT
    case SVarint => WT_VARINT
    case Fixed32 => WT_32BIT
    case Fixed64 => WT_64BIT
    case _ => WT_STRING
  }

  function EncTag(wireType: nat, tag: nat): (r: seq<byte>)
    ensures |r| >= 1
  {
    EncVarint(8 * tag + wireType)
  }

  function EncTagFor(f: Field): seq<byte>
  {
    EncTag(WireType(f.kind), f.entry.tag)
  }

  /** n bytes of v, least significant first. */
  function LittleEndian(v: nat, n: nat): (r: seq<byte>)
    ensures |r| == n
  {
    if n == 0 then [] else [v % 256] + LittleEndian(v / 256, n - 1)
  }

  function EncNumber(kind: Kind, n: int): seq<byte>
    requires IntFits(kind, 8, n)
  {
    match kind
    case SVarint => EncVarint(ZigZag(n))
    case Fixed32 => LittleEndian(n, 4)
    case Fixed64 => LittleEndian(n, 8)
    case _ => EncVarint(n % U64)
  }

  function Prefixed(payload: seq<byte>): seq<byte>
  {
    EncVarint(|payload|) + payload
  }

  /** One item without its tag. */
  function EncItem(f: Field, v: Value): Option<seq<byte>>
    decreases f, 0
  {
    match f.kind
    case Message(sub) =>
      if v.VMsg? && EncMsg(sub, v.msg, |sub|).Some? then Some(Prefixed(EncMsg(sub, v.msg, |sub|).value)) else None
    case Bytes =>
      if v.VBytes? && |v.bytes| + BYTES_OFFSET <= f.entry.dataSize then Some(Prefixed(v.bytes)) else None
    case String =>
      if v.VBytes? && |v.bytes| <= f.entry.dataSize then Some(Prefixed(CString(v.bytes))) else None
    case FixedBytes =>
      if v.VBytes? && |v.bytes| == f.entry.dataSize then Some(Prefixed(v.bytes)) else None
    case _ =>
      if v.VInt? && IntFits(f.kind, f.entry.dataSize, v.n) then Some(EncNumber(f.kind, v.n)) else None
  }

  /** The first n items one after the other, each behind the tag if tagged. */
  function EncItems(f: Field, items: seq<Value>, n: nat, tagged: bool): Option<seq<byte>>
    requires n <= |items|
    decreases f, 1, n
  {
    if n == 0 then Some([])
    else match EncItems(f, items, n - 1, tagged)
      case None => None
      case Some(before) =>
        match EncItem(f, items[n - 1])
        case None => None
        case Some(e) => Some(before + (if tagged then EncTagFor(f) else []) + e)
  }

  function EncArray(f: Field, items: seq<Value>): Option<seq<byte>>
    decreases f, 2
  {
    if items == [] then Some([])
    else if |items| > f.entry.arraySize then None
    else if f.kind.Packable() then
      match EncItems(f, items, |items|, false)
      case None => None
      case Some(payload) => Some(EncTag(WT_STRING, f.entry.tag) + Prefixed(payload))
    else EncItems(f, items, |items|, true)
  }

  /** pb_check_proto3_default_value */
  predicate IsZero(f: Field, m: Msg, i: nat)
    decreases f, 1
  {
    match f.entry.rule
    case Required => false
    case Repeated => m.SlotAt(i).items == []
    case Oneof(group) => m.Which(group) == 0
    case Optional => !m.SlotAt(i).has
    case Singular => IsZeroValue(f, m.SlotAt(i).Item())
  }

  predicate IsZeroValue(f: Field, v: Value)
    decreases f, 0
  {
    match f.kind
    case Bytes => v.VBytes? && v.bytes == []
    case String => v.VBytes? && (v.bytes == [] || v.bytes[0] == 0)
    case FixedBytes => f.entry.dataSize == 0
    case Message(sub) => v.VMsg? && forall i :: 0 <= i < |sub| ==> IsZero(sub[i], v.msg, i)
    case _ => v.VInt? && v.n == 0
  }

  /** Field i of the structure, tag and all, if it is there to be written. */
  function EncField(f: Field, m: Msg, i: nat): Option<seq<byte>>
    decreases f, 3
  {
    if f.entry.rule.Repeated? then EncArray(f, m.SlotAt(i).items)
    else if !Present(f, m, i) then Some([])
    else match EncItem(f, m.SlotAt(i).Item())
      case None => None
      case Some(e) => Some(EncTagFor(f) + e)
  }

  predicate Present(f: Field, m: Msg, i: nat)
    requires !f.entry.rule.Repeated?
  {
    match f.entry.rule
    case Required => true
    case Optional => m.SlotAt(i).has
    case Singular => !IsZero(f, m, i)
    case Oneof(group) => m.Which(group) == f.entry.tag
  }

  /** The first n fields of the structure. */
  function EncMsg(fields: seq<Field>, m: Msg, n: nat): Option<seq<byte>>
    requires n <= |fields|
    decreases fields, 4, n
  {
    if n == 0 then Some([])
    else match EncMsg(fields, m, n - 1)
      case None => None
      case Some(before) =>
        match EncField(fields[n - 1], m, n - 1)
        case None => None
        case Some(e) => Some(before + e)
  }

  /** What pb_encode writes for a whole structure. */
  function Encode(fields: seq<Field>, m: Msg): Option<seq<byte>>
  {
    EncMsg(fields, m, |fields|)
  }
}
