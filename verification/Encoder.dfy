/** pb_encode: it writes to a stream what Encoding says, all of it or, if there is no room, less. */
module Encoder {
  import opened Bytes
  import opened Varints
  import opened Fields
  import opened FieldIter
  import opened Encoding
  import opened OutStream

  /** s, which was at start, has had e written to it. */
  ghost predicate Wrote(s: OStream, start: Snap, e: Option<seq<byte>>, ok: bool)
    reads s, s.buf
  {
    s.Valid() && Outcome(s.sizing, s.Limit(), start, e, ok, s.Now())
  }

  /** pb_encode_tag_for_field */
  method EncodeTagFor(s: OStream, f: Field) returns (ok: bool)
    requires s.Valid()
    modifies s, s.buf
    ensures Wrote(s, old(s.Now()), Some(EncTagFor(f)), ok)
  {
    ok := s.EncodeTag(WireType(f.kind), f.entry.tag);
  }

  /** The loop of pb_enc_string. */
  method StringLength(bytes: seq<byte>) returns (size: nat)
    ensures size <= |bytes| && bytes[..size] == CString(bytes)
  {
    size := 0;
    while size < |bytes| && bytes[size] != 0
      invariant size <= |bytes|
      invariant forall k :: 0 <= k < size ==> bytes[k] != 0
    {
      size := size + 1;
    }
    CStringEnd(bytes, size);
  }

  lemma {:induction false} CStringEnd(bytes: seq<byte>, n: nat)
    requires n <= |bytes| && (forall k :: 0 <= k < n ==> bytes[k] != 0) && (n < |bytes| ==> bytes[n] == 0)
    ensures CString(bytes) == bytes[..n]
  {
    if n > 0 {
      CStringEnd(bytes[1..], n - 1);
      assert bytes[..n] == [bytes[0]] + bytes[1..][..n - 1];
    }
  }

  /** One item, by the encoder for its kind. */
  method EncodeItem(s: OStream, f: Field, v: Value) returns (ok: bool)
    requires s.Valid()
    modifies s, s.buf
    ensures Wrote(s, old(s.Now()), EncItem(f, v), ok)
    decreases f, 0, 0
  {
    var shaped := match f.kind
      case Message(_) => v.VMsg?
      case Bytes => v.VBytes? && |v.bytes| + BYTES_OFFSET <= f.entry.dataSize
      case String => v.VBytes? && |v.bytes| <= f.entry.dataSize
      case FixedBytes => v.VBytes? && |v.bytes| == f.entry.dataSize
      case _ => v.VInt? && IntFits(f.kind, f.entry.dataSize, v.n);
    if !shaped {
      return false;
    }
    match f.kind {
      case Message(sub) => ok := EncodeSubmessage(s, sub, v.msg);
      case String =>
        var size := StringLength(v.bytes);
        ok := s.EncodeString(v.bytes[..size]);
      case Bytes => ok := s.EncodeString(v.bytes);
      case FixedBytes => ok := s.EncodeString(v.bytes);
      case SVarint => ok := s.EncodeSvarint(v.n);
      case Fixed32 => ok := s.EncodeFixed32(v.n);
      case Fixed64 => ok := s.EncodeFixed64(v.n);
      case Varint => ok := s.EncodeVarint(v.n % U64);
      case UVarint => ok := s.EncodeVarint(v.n % U64);
    }
  }

  /** pb_encode_submessage: the size from a first pass, then the same again into a substream of that size.
      The second pass cannot come to another size. */
  method EncodeSubmessage(s: OStream, sub: seq<Field>, m: Msg) returns (ok: bool)
    requires s.Valid()
    modifies s, s.buf
    ensures Wrote(s, old(s.Now()), PrefixedMsg(sub, m), ok)
    decreases sub, 5
  {
    ghost var start := s.Now();
    ghost var e := EncMsg(sub, m, |sub|);
    var sizes := new OStream.Sizing();
    ok := EncodeMessage(sizes, sub, m);
    if !ok {
      return;
    }
    var size := sizes.bytesWritten;
    ok := s.EncodeVarint(size);
    ghost var mid := s.Now();
    if !ok {
      OutcomeFails(s.sizing, s.Limit(), start, Some(EncVarint(size)), mid, PrefixedMsg(sub, m));
      return;
    }
    if s.sizing {
      ok := s.Write([], size);
    } else if s.bytesWritten + size > s.maxSize {
      ok := false;
    } else {
      var substream := new OStream(s.buf, s.state, size);
      ok := EncodeMessage(substream, sub, m);
      s.bytesWritten := s.bytesWritten + substream.bytesWritten;
      s.state := substream.state;
      ok := ok && substream.bytesWritten == size;
    }
    OutcomeThen(s.sizing, s.Limit(), start, EncVarint(size), mid, e, ok, s.Now());
  }

  function PrefixedMsg(sub: seq<Field>, m: Msg): Option<seq<byte>>
  {
    var e := EncMsg(sub, m, |sub|);
    if e.Some? then Some(Prefixed(e.value)) else None
  }

  lemma {:induction false} ItemsGrow(f: Field, items: seq<Value>, k: nat, n: nat, tagged: bool)
    requires k <= n <= |items| && EncItems(f, items, n, tagged).Some?
    ensures EncItems(f, items, k, tagged).Some?
    ensures |EncItems(f, items, k, tagged).value| <= |EncItems(f, items, n, tagged).value|
    decreases n
  {
    if k < n {
      ItemsGrow(f, items, k, n - 1, tagged);
    }
  }

  lemma {:induction false} FieldsGrow(fields: seq<Field>, m: Msg, k: nat, n: nat)
    requires k <= n <= |fields| && EncMsg(fields, m, n).Some?
    ensures EncMsg(fields, m, k).Some?
    ensures |EncMsg(fields, m, k).value| <= |EncMsg(fields, m, n).value|
    decreases n
  {
    if k < n {
      FieldsGrow(fields, m, k, n - 1);
    }
  }

  /** The loops of encode_array over the items. */
  method EncodeItems(s: OStream, f: Field, items: seq<Value>, tagged: bool) returns (ok: bool)
    requires s.Valid()
    modifies s, s.buf
    ensures Wrote(s, old(s.Now()), EncItems(f, items, |items|, tagged), ok)
    decreases f, 1
  {
    hide EncItem, EncTagFor, EncItems, TaggedItem;
    ItemsSnoc(f, items, tagged);
    ghost var start := s.Now();
    OutcomeNothing(s.sizing, s.Limit(), start);
    var i := 0;
    while i < |items|
      invariant i <= |items| && EncItems(f, items, i, tagged).Some?
      invariant Wrote(s, start, EncItems(f, items, i, tagged), true)
    {
      ok := EncodeTagged(s, f, items[i], tagged, start, EncItems(f, items, i, tagged).value);
      if !ok {
        NoMoreItems(s, f, items, i, tagged, start);
        return;
      }
      i := i + 1;
    }
    return true;
  }

  lemma {:induction false} ItemsSnoc(f: Field, items: seq<Value>, tagged: bool)
    ensures EncItems(f, items, 0, tagged) == Some([])
    ensures forall i: nat :: i < |items| ==>
              EncItems(f, items, i + 1, tagged) ==
                  Concat(EncItems(f, items, i, tagged), TaggedItem(f, items[i], tagged))
  {
    hide EncItem, EncTagFor;
    forall i: nat | i < |items|
      ensures EncItems(f, items, i + 1, tagged) ==
              Concat(EncItems(f, items, i, tagged), TaggedItem(f, items[i], tagged))
    {
      var tag := if tagged then EncTagFor(f) else [];
      var before, e := EncItems(f, items, i, tagged), EncItem(f, items[i]);
      if before.Some? && e.Some? {
        assert before.value + tag + e.value == before.value + (tag + e.value);
      }
    }
  }

  lemma {:induction false} NoMoreItems(s: OStream, f: Field, items: seq<Value>, i: nat, tagged: bool, start: Snap)
    requires i < |items| && Wrote(s, start, EncItems(f, items, i + 1, tagged), false)
    ensures Wrote(s, start, EncItems(f, items, |items|, tagged), false)
  {
    if EncItems(f, items, |items|, tagged).Some? { ItemsGrow(f, items, i + 1, |items|, tagged); }
    OutcomeFails(s.sizing, s.Limit(), start, EncItems(f, items, i + 1, tagged), s.Now(),
                 EncItems(f, items, |items|, tagged));
  }

  function TaggedItem(f: Field, v: Value, tagged: bool): Option<seq<byte>>
  {
    Concat(Some(if tagged then EncTagFor(f) else []), EncItem(f, v))
  }

  /** One item behind what was written since start. */
  method EncodeTagged(s: OStream, f: Field, v: Value, tagged: bool, ghost start: Snap, ghost before: seq<byte>)
    returns (ok: bool)
    requires Wrote(s, start, Some(before), true)
    modifies s, s.buf
    ensures Wrote(s, start, Concat(Some(before), TaggedItem(f, v, tagged)), ok)
    decreases f, 0, 1
  {
    ghost var mid := s.Now();
    ghost var tag := if tagged then EncTagFor(f) else [];
    if tagged {
      ok := EncodeTagFor(s, f);
      if !ok {
        OutcomeFails(s.sizing, s.Limit(), mid, Some(tag), s.Now(), TaggedItem(f, v, tagged));
        OutcomeThen(s.sizing, s.Limit(), start, before, mid, TaggedItem(f, v, tagged), false, s.Now());
        return;
      }
    } else {
      OutcomeNothing(s.sizing, s.Limit(), mid);
    }
    ghost var mid' := s.Now();
    ok := EncodeItem(s, f, v);
    OutcomeThen(s.sizing, s.Limit(), mid, tag, mid', EncItem(f, v), ok, s.Now());
    OutcomeThen(s.sizing, s.Limit(), start, before, mid, TaggedItem(f, v, tagged), ok, s.Now());
  }

  /** Bytes of the items of a packed run: known for fixed-width numbers, else from a sizing stream. */
  method PackedSize(f: Field, items: seq<Value>) returns (ok: bool, size: nat)
    requires f.kind.Packable()
    ensures ok <==> EncItems(f, items, |items|, false).Some? && |EncItems(f, items, |items|, false).value| < U64
    ensures ok ==> size == |EncItems(f, items, |items|, false).value|
    decreases f, 2, 0
  {
    if f.kind.Fixed32? || f.kind.Fixed64? {
      size := (if f.kind.Fixed32? then 4 else 8) * |items|;
      ok := size < U64 && forall k :: 0 <= k < |items| ==> EncItem(f, items[k]).Some?;
      FixedItems(f, items, |items|);
    } else {
      var sizes := new OStream.Sizing();
      ok := EncodeItems(sizes, f, items, false);
      size := sizes.bytesWritten;
    }
  }

  lemma {:induction false} FixedItems(f: Field, items: seq<Value>, n: nat)
    requires (f.kind.Fixed32? || f.kind.Fixed64?) && n <= |items|
    ensures EncItems(f, items, n, false).Some? <==> forall k :: 0 <= k < n ==> EncItem(f, items[k]).Some?
    ensures EncItems(f, items, n, false).Some? ==>
              |EncItems(f, items, n, false).value| == (if f.kind.Fixed32? then 4 else 8) * n
  {
    if n > 0 {
      FixedItems(f, items, n - 1);
    }
  }

  method EncodeArray(s: OStream, f: Field, items: seq<Value>) returns (ok: bool)
    requires s.Valid()
    modifies s, s.buf
    ensures Wrote(s, old(s.Now()), EncArray(f, items), ok)
    decreases f, 3
  {
    if |items| == 0 {
      return true;
    }
    if |items| > f.entry.arraySize {
      return false;
    }
    if f.kind.Packable() {
      ok := EncodePacked(s, f, items);
    } else {
      ok := EncodeItems(s, f, items, true);
    }
  }

  method EncodePacked(s: OStream, f: Field, items: seq<Value>) returns (ok: bool)
    requires s.Valid() && f.kind.Packable() && 0 < |items| <= f.entry.arraySize
    modifies s, s.buf
    ensures Wrote(s, old(s.Now()), EncArray(f, items), ok)
    decreases f, 2, 1
  {
    ghost var start := s.Now();
    ghost var payload := EncItems(f, items, |items|, false);
    ghost var tag := EncTag(WT_STRING, f.entry.tag);
    ok := s.EncodeTag(WT_STRING, f.entry.tag);
    ghost var mid := s.Now();
    if !ok {
      OutcomeFails(s.sizing, s.Limit(), start, Some(tag), mid, EncArray(f, items));
      return;
    }
    var size;
    ok, size := PackedSize(f, items);
    if ok {
      ok := EncodePayload(s, f, items, size);
    }
    OutcomeThen(s.sizing, s.Limit(), start, tag, mid, if payload.Some? then Some(Prefixed(payload.value)) else None,
                ok, s.Now());
  }

  method EncodePayload(s: OStream, f: Field, items: seq<Value>, size: nat) returns (ok: bool)
    requires s.Valid() && size < U64
    requires EncItems(f, items, |items|, false).Some? && |EncItems(f, items, |items|, false).value| == size
    modifies s, s.buf
    ensures Wrote(s, old(s.Now()), Some(Prefixed(EncItems(f, items, |items|, false).value)), ok)
    decreases f, 2, 0
  {
    ghost var start := s.Now();
    ghost var payload := EncItems(f, items, |items|, false);
    ok := s.EncodeVarint(size);
    ghost var mid := s.Now();
    if !ok {
      OutcomeFails(s.sizing, s.Limit(), start, Some(EncVarint(size)), mid, Some(Prefixed(payload.value)));
      return;
    }
    if s.sizing {
      ok := s.Write([], size);
    } else {
      ok := EncodeItems(s, f, items, false);
    }
    OutcomeThen(s.sizing, s.Limit(), start, EncVarint(size), mid, payload, ok, s.Now());
  }

  /** encode_basic_field */
  method EncodeField(s: OStream, f: Field, m: Msg, i: nat) returns (ok: bool)
    requires s.Valid()
    modifies s, s.buf
    ensures Wrote(s, old(s.Now()), EncField(f, m, i), ok)
    decreases f, 4
  {
    var present := match f.entry.rule
      case Required => true
      case Optional => m.SlotAt(i).has
      case Singular => !IsZero(f, m, i)
      case Oneof(group) => m.Which(group) == f.entry.tag
      case Repeated => false;
    if f.entry.rule.Repeated? {
      ok := EncodeArray(s, f, m.SlotAt(i).items);
    } else if present {
      OutcomeNothing(s.sizing, s.Limit(), s.Now());
      ok := EncodeTagged(s, f, m.SlotAt(i).Item(), true, s.Now(), []);
    } else {
      ok := true;
    }
  }

  /** pb_encode: every field, by the iterator. */
  method EncodeMessage(s: OStream, fields: seq<Field>, m: Msg) returns (ok: bool)
    requires s.Valid()
    modifies s, s.buf
    ensures Wrote(s, old(s.Now()), Encode(fields, m), ok)
    decreases fields, 4
  {
    hide EncField;
    ghost var start := s.Now();
    var iter := new Iter(Entries(fields), 0, 0);
    if fields == [] {
      return true;
    }
    var more := true;
    ghost var n := 0;
    while more
      invariant iter.Valid() && iter.start == Entries(fields) && fresh(iter) && n <= |fields|
      invariant more ==> n < |fields| && iter.pos == n
      invariant !more ==> n == |fields|
      invariant Wrote(s, start, EncMsg(fields, m, n), true)
      decreases |fields| - n
    {
      ghost var mid := s.Now();
      ok := EncodeField(s, fields[iter.pos], m, iter.pos);
      OutcomeThen(s.sizing, s.Limit(), start, EncMsg(fields, m, n).value, mid, EncField(fields[n], m, n), ok, s.Now());
      if !ok {
        NoMoreFields(s, fields, m, n, start);
        return;
      }
      more := iter.Next();
      n := n + 1;
    }
    return true;
  }

  lemma {:induction false} NoMoreFields(s: OStream, fields: seq<Field>, m: Msg, n: nat, start: Snap)
    requires n < |fields| && Wrote(s, start, EncMsg(fields, m, n + 1), false)
    ensures Wrote(s, start, Encode(fields, m), false)
  {
    if Encode(fields, m).Some? { FieldsGrow(fields, m, n + 1, |fields|); }
    OutcomeFails(s.sizing, s.Limit(), start, EncMsg(fields, m, n + 1), s.Now(), Encode(fields, m));
  }

  /** pb_get_encoded_size */
  method GetEncodedSize(fields: seq<Field>, m: Msg) returns (ok: bool, size: nat)
    ensures ok <==> Encode(fields, m).Some? && |Encode(fields, m).value| < U64
    ensures ok ==> size == |Encode(fields, m).value|
  {
    var s := new OStream.Sizing();
    ok := EncodeMessage(s, fields, m);
    size := s.bytesWritten;
  }

  /** pb_encode into the buffer of pb_ostream_from_buffer: exactly when the size that pb_get_encoded_size gives
      is no larger than the buffer does it succeed, and then it writes exactly that many bytes at the front. */
  method EncodeToBuffer(dest: array<byte>, fields: seq<Field>, m: Msg) returns (ok: bool, written: nat)
    requires dest.Length < U64
    modifies dest
    ensures ok <==> Encode(fields, m).Some? && |Encode(fields, m).value| <= dest.Length
    ensures ok ==> written == |Encode(fields, m).value| && dest[..] == Encode(fields, m).value + old(dest[written..])
  {
    var s := new OStream(dest, 0, dest.Length);
    ok := EncodeMessage(s, fields, m);
    written := s.bytesWritten;
    if ok {
      assert dest[..] == dest[0..written] + dest[written..];
    }
  }

  /** Sizing and writing one after the other agree. */
  method SizeThenEncode(dest: array<byte>, fields: seq<Field>, m: Msg)
    returns (sized: bool, size: nat, ok: bool, written: nat)
    requires dest.Length < U64
    modifies dest
    ensures ok <==> sized && size <= dest.Length
    ensures ok ==> written == size
  {
    sized, size := GetEncodedSize(fields, m);
    ok, written := EncodeToBuffer(dest, fields, m);
  }
}
