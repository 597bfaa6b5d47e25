/** Field descriptors (pb_field_t) and the values of the structures they describe. */
module Fields {
  import opened Bytes
  import opened Varints

  /** A field number; 0 marks the end of a field list. */
  type Tag = x: int | 0 < x < 0x1_0000_0000 witness 1

  /** The largest pb_size_t: a compile-time choice of 8, 16 or 32 bits. */
  const PB_SIZE_MAX: nat

  /** offsetof(pb_bytes_array_t, bytes) */
  const BYTES_OFFSET: nat

  /** Required fields beyond this number are not tracked. */
  const PB_MAX_REQUIRED_FIELDS: nat := 64

  /** Allocation type (PB_ATYPE) of a field. */
  datatype Storage = Static | Pointer | Callback

  /** Repetition rule (PB_HTYPE). Optional has a has_ flag; Singular is the proto3 optional without one.
      The fields of a oneof share the which_ selector of their group. */
  datatype Rule = Required | Optional | Singular | Repeated | Oneof(group: nat)

  /** What the field iterator looks at. */
  datatype Entry = Entry(
    tag: Tag, storage: Storage, rule: Rule, extension: bool,
    dataOffset: nat, sizeOffset: int, dataSize: nat, arraySize: nat)

  /** Scalar type (PB_LTYPE). */
  datatype Kind =
    | Varint | UVarint | SVarint | Fixed32 | Fixed64
    | Bytes | String | FixedBytes
    | Message(sub: seq<Field>)
  {
    /** PB_LTYPE(type) <= PB_LTYPE_LAST_PACKABLE */
    predicate Packable() {
      Varint? || UVarint? || SVarint? || Fixed32? || Fixed64?
    }
  }

  /** ptr is the descriptor's default value, None for a null pointer. */
  datatype Field = Field(entry: Entry, kind: Kind, ptr: Option<Value>)

  /** Contents of one item. A string is held as the bytes up to where its terminator was put; it may fill
      the whole array and then has no terminator. */
  datatype Value = VInt(n: int) | VBytes(bytes: seq<byte>) | VMsg(msg: Msg)

  /** A field in a structure: its has_ flag and its contents, one item or the counted items of an array. */
  datatype Slot = Slot(has: bool, items: seq<Value>)
  {
    function Item(): Value {
      if items == [] then VInt(0) else items[0]
    }
  }

  /** A structure: a slot per field, and the which_ selector of every oneof. */
  datatype Msg = Msg(slots: seq<Slot>, which: map<nat, nat>)
  {
    function SlotAt(i: nat): Slot {
      if i < |slots| then slots[i] else Slot(false, [])
    }

    function Which(group: nat): nat {
      if group in which then which[group] else 0
    }

    function Put(i: nat, s: Slot): Msg {
      if i < |slots| then this.(slots := slots[i := s]) else this
    }

    function Select(group: nat, tag: nat): Msg {
      this.(which := which[group := tag])
    }
  }

  function Entries(fields: seq<Field>): (es: seq<Entry>)
    ensures |es| == |fields| && forall i :: 0 <= i < |fields| ==> es[i] == fields[i].entry
  {
    seq(|fields|, i requires 0 <= i < |fields| => fields[i].entry)
  }

  // ---- Numbers ----

  /** Half the range of a signed integer of the given size; 0 for a size that is not supported. */
  function IntLimit(size: nat): int
  {
    if size == 1 then 0x80 else if size == 2 then 0x8000
    else if size == 4 then 0x8000_0000 else if size == 8 then 0x8000_0000_0000_0000 else 0
  }

  /** n is a number that a field of this kind and size can hold. */
  predicate IntFits(kind: Kind, size: nat, n: int)
  {
    match kind
    case Varint => -IntLimit(size) <= n < IntLimit(size)
    case SVarint => -IntLimit(size) <= n < IntLimit(size)
    case UVarint => 0 <= n < 2 * IntLimit(size)
    case Fixed32 => 0 <= n < U32
    case Fixed64 => 0 <= n < U64
    case _ => false
  }

  /** The C string that bytes hold: up to the first NUL. */
  function CString(bytes: seq<byte>): (s: seq<byte>)
    ensures |s| <= |bytes| && 0 !in s
    ensures |s| < |bytes| ==> bytes[|s|] == 0
    ensures s == bytes[..|s|]
  {
    if bytes == [] || bytes[0] == 0 then [] else [bytes[0]] + CString(bytes[1..])
  }

  // ---- Defaults ----

  function ZeroValue(kind: Kind, size: nat): Value
  {
    if kind.Packable() then VInt(0)
    else if kind.FixedBytes? then VBytes(seq(size, _ => 0))
    else VBytes([])
  }

  /** The structure that pb_message_set_to_defaults leaves: submessages too, arrays empty, no oneof selected. */
  function Default(fields: seq<Field>): (m: Msg)
    ensures |m.slots| == |fields| && m.which == map[]
    decreases fields, 2
  {
    Msg(seq(|fields|, i requires 0 <= i < |fields| => DefaultSlot(fields[i])), map[])
  }

  function DefaultSlot(f: Field): Slot
    decreases f, 1
  {
    if f.entry.rule.Repeated? || f.entry.rule.Oneof? then Slot(false, [])
    else Slot(false, [DefaultItem(f)])
  }

  function DefaultItem(f: Field): Value
    decreases f, 0
  {
    match f.kind
    case Message(sub) => VMsg(Default(sub))
    case _ => if f.ptr.Some? then f.ptr.value else ZeroValue(f.kind, f.entry.dataSize)
  }

  /** What a field is before anything is read: without its flag, an array empty, a oneof with nothing selected, a
      submessage with the defaults of its own fields, and any other field with the default of its descriptor, or
      else 0, no bytes, or for bytes of fixed length zeros. */
  lemma {:induction false} DefaultOf(fields: seq<Field>, i: nat)
    requires i < |fields|
    ensures var f, s := fields[i], Default(fields).slots[i];
      && !s.has && Default(fields).which == map[]
      && (f.entry.rule.Repeated? || f.entry.rule.Oneof? ==> s.items == [])
      && (f.entry.rule.Required? || f.entry.rule.Optional? || f.entry.rule.Singular? ==>
            && |s.items| == 1
            && (f.kind.Message? ==> s.items[0] == VMsg(Default(f.kind.sub)))
            && (!f.kind.Message? && f.ptr.Some? ==> s.items[0] == f.ptr.value)
            && (!f.kind.Message? && f.ptr.None? ==>
                  && (f.kind.Bytes? || f.kind.String? ==> s.items[0] == VBytes([]))
                  && (f.kind.FixedBytes? ==> s.items[0] == VBytes(seq(f.entry.dataSize, _ => 0)))
                  && (f.kind.Packable() ==> s.items[0] == VInt(0))))
  {
    var f := fields[i];
    assert Default(fields).slots[i] == DefaultSlot(f);
    assert !f.entry.rule.Repeated? && !f.entry.rule.Oneof? ==> DefaultSlot(f).items[0] == DefaultItem(f);
  }
}
