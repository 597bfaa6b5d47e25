/** What pb_decode makes of a byte sequence, as a function of the descriptor and the structure it finds. */
module Decoding {
  import opened Bytes
  import opened Varints
  import opened Fields
  import opened Encoding
  import opened FieldIter

  // ---- Leaves ----

  function FromLittleEndian(b: seq<byte>): nat
  {
    if b == [] then 0 else b[0] + 256 * FromLittleEndian(b[1..])
  }

  function Take(bs: seq<byte>, n: nat): (r: Parsed<seq<byte>>)
    ensures r.Ok? <==> n <= |bs|
    ensures r.Ok? ==> r.value == bs[..n] && r.rest == bs[n..]
  {
    if n <= |bs| then Ok(bs[..n], bs[n..]) else Fail
  }

  /** A length and that many bytes. */
  function TakePrefixed(bs: seq<byte>): (r: Parsed<seq<byte>>)
    ensures r.Ok? ==> |r.value| + |r.rest| < |bs| && r.rest == bs[|bs| - |r.rest|..]
  {
    match DecVarint32(bs)
    case Fail => Fail
    case Ok(n, rest) => Take(rest, n)
  }

  /** The two's complement reading of the low bits of v, where limit is half the range. */
  function Signed(v: nat, limit: int): (n: int)
    requires limit > 0
    ensures -limit <= n < limit
  {
    var low := v % (2 * limit);
    if low < limit then low else low - 2 * limit
  }

  /** The number a varint gives in a field of this kind and size, if it fits. Signed fields of up to 32 bits
      first drop the upper half of the 64 bits read. */
  function Narrow(kind: Kind, size: nat, v: nat): (r: Option<int>)
    requires kind.Varint? || kind.UVarint? || kind.SVarint?
    requires v < U64
    ensures r.Some? ==> IntFits(kind, size, r.value)
  {
    var n := match kind
      case Varint => if size == 8 then Signed(v, I64) else Signed(v, I32)
      case SVarint => UnZigZag(v)
      case _ => v;
    if IntFits(kind, size, n) then Some(n) else None
  }

  function DecNumber(f: Field, bs: seq<byte>): (r: Parsed<Value>)
    requires f.kind.Packable()
    ensures r.Ok? ==> |r.rest| < |bs| && r.rest == bs[|bs| - |r.rest|..]
  {
    if f.kind.Fixed32? || f.kind.Fixed64? then
      match Take(bs, if f.kind.Fixed32? then 4 else 8)
      case Fail => Fail
      case Ok(b, rest) => Ok(VInt(FromLittleEndian(b)), rest)
    else
      match DecVarint(bs)
      case Fail => Fail
      case Ok(v, rest) =>
        var n := Narrow(f.kind, f.entry.dataSize, v);
        if n.None? then Fail else Ok(VInt(n.value), rest)
  }

  /** The next n bytes, as a value, of what is left of bs. */
  function TakeBlob(bs: seq<byte>, rest: seq<byte>, n: nat): (r: Parsed<Value>)
    requires |rest| < |bs| && rest == bs[|bs| - |rest|..]
    ensures r.Ok? ==> |r.rest| < |bs| && r.rest == bs[|bs| - |r.rest|..]
  {
    if n > |rest| then Fail else Ok(VBytes(rest[..n]), rest[n..])
  }

  function DecBlob(f: Field, bs: seq<byte>): (r: Parsed<Value>)
    requires f.kind.Bytes? || f.kind.String? || f.kind.FixedBytes?
    ensures r.Ok? ==> |r.rest| < |bs| && r.rest == bs[|bs| - |r.rest|..]
  {
    match DecVarint32(bs)
    case Fail => Fail
    case Ok(n, rest) =>
      if f.kind.FixedBytes? then
        if n > PB_SIZE_MAX then Fail
        else if n == 0 then Ok(ZeroValue(f.kind, f.entry.dataSize), rest)
        else if n != f.entry.dataSize then Fail
        else TakeBlob(bs, rest, n)
      else if f.kind.String? && n + 1 > f.entry.dataSize then Fail
      else if f.kind.Bytes? && (n > PB_SIZE_MAX || n + BYTES_OFFSET > f.entry.dataSize) then Fail
      else TakeBlob(bs, rest, n)
  }

  /** The items of a packed run, appended while there is room; bytes left over are an error. */
  function DecPacked(f: Field, items: seq<Value>, body: seq<byte>): (r: Option<seq<Value>>)
    requires f.kind.Packable()
    decreases |body|
  {
    if body == [] then Some(items)
    else if |items| >= f.entry.arraySize then None
    else match DecNumber(f, body)
      case Fail => None
      case Ok(v, rest) => DecPacked(f, items + [v], rest)
  }

  /** pb_skip_field */
  function Skip(wireType: nat, bs: seq<byte>): (r: Parsed<()>)
    ensures r.Ok? ==> |r.rest| <= |bs| && r.rest == bs[|bs| - |r.rest|..]
  {
    if wireType == WT_VARINT then
      match VarintEnd(bs)
      case None => Fail
      case Some(n) => Ok((), bs[n..])
    else if wireType == WT_64BIT then
      if |bs| < 8 then Fail else Ok((), bs[8..])
    else if wireType == WT_STRING then
      match TakePrefixed(bs)
      case Fail => Fail
      case Ok(_, rest) => Ok((), rest)
    else if wireType == WT_32BIT then
      if |bs| < 4 then Fail else Ok((), bs[4..])
    else Fail
  }

  // ---- Structures ----

  /** State of the decoding loop: the structure, the required fields seen so far by their index among the
      required fields, and the position of the iterator. */
  datatype State = State(msg: Msg, seen: set<nat>, pos: nat)

  /** Outcome of one turn of the loop. Stop is the zero tag that ends a message. */
  datatype Turn = Error | Stop(rest: seq<byte>) | Go(state: State, rest: seq<byte>)

  datatype Run = Failed | Done(state: State, rest: seq<byte>, stopped: bool)

  function Start(m: Msg): State
  {
    State(m, {}, 0)
  }

  /** One item, into storage that holds dest. The items of an array start from the defaults. */
  function DecItem(f: Field, dest: Value, bs: seq<byte>): (r: Parsed<Value>)
    ensures r.Ok? ==> |r.rest| < |bs|
    decreases |bs|, 0
  {
    if f.kind.Packable() then DecNumber(f, bs)
    else if !f.kind.Message? then DecBlob(f, bs)
    else match TakePrefixed(bs)
      case Fail => Fail
      case Ok(body, rest) =>
        var m := if f.entry.rule.Repeated? || !dest.VMsg? then Default(f.kind.sub) else dest.msg;
        match DecMsg(f.kind.sub, m, body)
        case Fail => Fail
        case Ok(m', _) => Ok(VMsg(m'), rest)
  }

  /** decode_static_field */
  function DecField(f: Field, i: nat, wireType: nat, m: Msg, bs: seq<byte>): (r: Parsed<Msg>)
    ensures r.Ok? ==> |r.rest| < |bs|
    decreases |bs|, 1
  {
    var slot := m.SlotAt(i);
    match f.entry.rule
    case Repeated =>
      if wireType == WT_STRING && f.kind.Packable() then
        var body := TakePrefixed(bs);
        if body.Fail? then Fail
        else
          var items := DecPacked(f, slot.items, body.value);
          if items.None? then Fail else Ok(m.Put(i, slot.(items := items.value)), body.rest)
      else if |slot.items| >= f.entry.arraySize then Fail
      else
        var v := DecItem(f, VInt(0), bs);
        if v.Fail? then Fail else Ok(m.Put(i, slot.(items := slot.items + [v.value])), v.rest)
    case Oneof(group) =>
      // A submessage in a oneof is set to its defaults before it is read.
      var dest := if f.kind.Message? then VMsg(Default(f.kind.sub)) else VInt(0);
      var v := DecItem(f, dest, bs);
      if v.Fail? then Fail
      else Ok(m.Select(group, f.entry.tag).Put(i, Slot(slot.has, [v.value])), v.rest)
    case _ =>
      var v := DecItem(f, slot.Item(), bs);
      if v.Fail? then Fail
      else Ok(m.Put(i, Slot(slot.has || f.entry.rule.Optional?, [v.value])), v.rest)
  }

  function MarkSeen(es: seq<Entry>, seen: set<nat>, i: nat): set<nat>
    requires i < |es|
  {
    if es[i].rule.Required? && RequiredBefore(es, i) < PB_MAX_REQUIRED_FIELDS
    then seen + {RequiredBefore(es, i)} else seen
  }

  /** One turn of the loop of pb_decode_noinit: a tag and the field behind it. */
  function DecTurn(fields: seq<Field>, st: State, bs: seq<byte>): (r: Turn)
    requires fields != [] ==> st.pos < |fields|
    ensures r.Go? ==> (fields != [] ==> r.state.pos < |fields|) && |r.rest| < |bs|
    ensures r.Stop? ==> |r.rest| < |bs|
    decreases |bs|, 2
  {
    match DecVarint32(bs)
    case Fail => Error
    case Ok(key, rest) =>
      var tag, wireType := key / 8, key % 8;
      if key == 0 then Stop(rest)
      else if fields == [] && tag == 0 then
        Error  // the terminator is taken for a field and cannot be decoded into
      else
        var found := if fields == [] then None else FindFrom(Entries(fields), st.pos, tag, |fields|);
        match found
        case None =>
          var s := Skip(wireType, rest);
          if s.Fail? then Error else Go(st, s.rest)
        case Some(i) =>
          var v := DecField(fields[i], i, wireType, st.msg, rest);
          if v.Fail? then Error
          else Go(State(v.value, MarkSeen(Entries(fields), st.seen, i), i), v.rest)
  }

  function DecLoop(fields: seq<Field>, st: State, bs: seq<byte>): (r: Run)
    requires fields != [] ==> st.pos < |fields|
    ensures r.Done? ==> (fields != [] ==> r.state.pos < |fields|)
    ensures r.Done? ==> |r.rest| <= |bs| && (!r.stopped ==> r.rest == [])
    decreases |bs|, 3
  {
    if bs == [] then Done(st, [], false)
    else match DecTurn(fields, st, bs)
      case Error => Failed
      case Stop(rest) => Done(st, rest, true)
      case Go(st', rest) => DecLoop(fields, st', rest)
  }

  /** Every tracked required field was seen. */
  predicate AllSeen(es: seq<Entry>, seen: set<nat>)
  {
    forall k :: 0 <= k < RequiredBefore(es, |es|) && k < PB_MAX_REQUIRED_FIELDS ==> k in seen
  }

  /** pb_decode_noinit */
  function DecMsg(fields: seq<Field>, m: Msg, bs: seq<byte>): (r: Parsed<Msg>)
    ensures r.Ok? ==> |r.rest| <= |bs|
    decreases |bs|, 4
  {
    match DecLoop(fields, Start(m), bs)
    case Failed => Fail
    case Done(st, rest, _) => if AllSeen(Entries(fields), st.seen) then Ok(st.msg, rest) else Fail
  }

  /** pb_decode */
  function Decode(fields: seq<Field>, bs: seq<byte>): Parsed<Msg>
  {
    DecMsg(fields, Default(fields), bs)
  }
}
