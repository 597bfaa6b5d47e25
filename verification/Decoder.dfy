/** pb_decode: it reads from a stream what Decoding says, and never past the end of the stream. */
module Decoder {
  import opened Bytes
  import opened Varints
  import opened Fields
  import opened FieldIter
  import opened FieldsSeen
  import opened Encoding
  import opened Decoding
  import opened InStream

  /** s has moved forward from state0 without passing the end it had, where left0 bytes were left. */
  ghost predicate Bounded(s: IStream, state0: nat, left0: nat)
    reads s
  {
    s.Valid() && state0 <= s.state && s.bytesLeft <= left0 && s.state + s.bytesLeft <= state0 + left0
  }

  /** s went from all its bytes to what p left of them, or p failed. A stream that was read successfully still
      ends where it ended. */
  ghost predicate Took<T>(s: IStream, state0: nat, left0: nat, p: Parsed<T>, ok: bool, v: T)
    reads s
  {
    && Bounded(s, state0, left0)
    && (ok <==> p.Ok?)
    && (ok ==> p == Ok(v, s.Rest()) && s.state + s.bytesLeft == state0 + left0)
  }

  // ---- Strings, submessages ----

  /** pb_make_string_substream; until the substream is closed s does not know how far it has come. */
  method MakeSubstream(s: IStream) returns (ok: bool, sub: IStream)
    requires s.Valid()
    modifies s
    ensures Bounded(s, old(s.state), old(s.bytesLeft)) && fresh(sub) && sub.Valid()
    ensures ok <==> TakePrefixed(old(s.Rest())).Ok?
    ensures ok ==>
              && sub.data == s.data && sub.state >= s.state && sub.bytesLeft + s.bytesLeft < old(s.bytesLeft)
              && sub.state + sub.bytesLeft + s.bytesLeft == old(s.state) + old(s.bytesLeft)
              && TakePrefixed(old(s.Rest()))
                 == Ok(sub.Rest(), s.data[sub.state + sub.bytesLeft..sub.state + sub.bytesLeft + s.bytesLeft])
  {
    hide DecVarint32;
    var size;
    ok, size := s.DecodeVarint32();
    sub := new IStream.Sub([], 0, 0);
    if !ok {
      return;
    }
    if s.bytesLeft < size {
      return false, sub;
    }
    sub := new IStream.Sub(s.data, s.state, size);
    SliceSplit(s.data, s.state, size, s.bytesLeft);
    s.bytesLeft := s.bytesLeft - size;
  }

  lemma {:induction false} SliceSplit(data: seq<byte>, at: nat, n: nat, left: nat)
    requires n <= left && at + left <= |data|
    ensures data[at..at + left][..n] == data[at..at + n] && data[at..at + left][n..] == data[at + n..at + left]
  {}

  /** pb_close_string_substream: whatever is left of the substream is skipped. */
  method CloseSubstream(s: IStream, sub: IStream)
    requires s != sub && s.Valid() && sub.Valid() && s.data == sub.data
    requires s.state <= sub.state && sub.state + sub.bytesLeft + s.bytesLeft <= |s.data|
    modifies s, sub
    ensures s.Valid() && s.bytesLeft == old(s.bytesLeft) && s.state == old(sub.state) + old(sub.bytesLeft)
  {
    if sub.bytesLeft != 0 {
      var _, _ := sub.Read(sub.bytesLeft);
    }
    s.state := sub.state;
  }

  /** pb_skip_varint */
  method SkipVarint(s: IStream) returns (ok: bool)
    requires s.Valid()
    modifies s
    ensures Took(s, old(s.state), old(s.bytesLeft), Skip(WT_VARINT, old(s.Rest())), ok, ())
  {
    ghost var all := s.Rest();
    ghost var n := 0;
    var b: byte, more := 0, true;
    while more
      invariant s.Valid() && s.Advanced(old(s.state), old(s.bytesLeft))
      invariant n <= |all| && s.Rest() == all[n..]
      invariant more ==> Continues(all, n)
      invariant !more ==> n > 0 && Continues(all, n - 1) && all[n - 1] < 128
      decreases more, s.bytesLeft
    {
      ok, b := s.ReadByte();
      if !ok {
        NoEnd(all, n);
        return;
      }
      more := b >= 0x80;
      n := n + 1;
    }
    EndAt(all, n);
    return true;
  }

  /** pb_skip_field */
  method SkipField(s: IStream, wireType: nat) returns (ok: bool)
    requires s.Valid()
    modifies s
    ensures Took(s, old(s.state), old(s.bytesLeft), Skip(wireType, old(s.Rest())), ok, ())
  {
    var skipped: seq<byte>;
    if wireType == WT_VARINT {
      ok := SkipVarint(s);
    } else if wireType == WT_64BIT {
      ok, skipped := s.Read(8);
    } else if wireType == WT_STRING {
      var length;
      ok, length := s.DecodeVarint32();
      if ok {
        ok, skipped := s.Read(length);
      }
    } else if wireType == WT_32BIT {
      ok, skipped := s.Read(4);
    } else {
      ok := false;
    }
  }

  // ---- Items ----

  /** pb_dec_varint, pb_dec_uvarint, pb_dec_svarint, pb_dec_fixed32, pb_dec_fixed64 */
  method DecodeNumber(s: IStream, f: Field) returns (ok: bool, v: Value)
    requires s.Valid() && f.kind.Packable()
    modifies s
    ensures Took(s, old(s.state), old(s.bytesLeft), DecNumber(f, old(s.Rest())), ok, v)
  {
    v := VInt(0);
    if f.kind.Fixed32? || f.kind.Fixed64? {
      var bytes;
      ok, bytes := s.Read(if f.kind.Fixed32? then 4 else 8);
      if ok {
        var n := Assemble(bytes);
        v := VInt(n);
      }
      return;
    }
    var value;
    ok, value := s.DecodeVarint();
    if !ok {
      return;
    }
    var size := f.entry.dataSize;
    var n: int;
    var half: int := value / 2;
    if f.kind.SVarint? {
      n := if value % 2 == 1 then -1 - half else half;
    } else if f.kind.Varint? {
      n := if size == 8 then Signed(value, I64) else Signed(value, I32);
    } else {
      n := value;
    }
    // "integer too large": the number does not survive the cast to the field's size
    ok := IntFits(f.kind, size, n);
    v := VInt(n);
  }

  /** bytes[0] | bytes[1] << 8 | ... */
  method Assemble(bytes: seq<byte>) returns (n: nat)
    ensures n == FromLittleEndian(bytes)
  {
    n := 0;
    var i := |bytes|;
    while i > 0
      invariant 0 <= i <= |bytes| && n == FromLittleEndian(bytes[i..])
    {
      i := i - 1;
      assert bytes[i..][1..] == bytes[i + 1..];
      n := bytes[i] + 0x100 * n;
    }
    assert bytes[0..] == bytes;
  }

  /** pb_dec_bytes, pb_dec_string, pb_dec_fixed_length_bytes */
  method DecodeBlob(s: IStream, f: Field) returns (ok: bool, v: Value)
    requires s.Valid() && (f.kind.Bytes? || f.kind.String? || f.kind.FixedBytes?)
    modifies s
    ensures Took(s, old(s.state), old(s.bytesLeft), DecBlob(f, old(s.Rest())), ok, v)
  {
    v := VInt(0);
    var size;
    ok, size := s.DecodeVarint32();
    if !ok {
      return;
    }
    if f.kind.FixedBytes? {
      if size > PB_SIZE_MAX {
        return false, v;
      }
      if size == 0 {
        return true, VBytes(seq(f.entry.dataSize, _ => 0));
      }
      if size != f.entry.dataSize {
        return false, v;
      }
    } else if f.kind.String? {
      if size + 1 > f.entry.dataSize {
        return false, v;
      }
    } else if size > PB_SIZE_MAX || size + BYTES_OFFSET > f.entry.dataSize {
      return false, v;
    }
    var bytes;
    ok, bytes := s.Read(size);
    if ok {
      v := VBytes(bytes);
    }
  }

  /** pb_dec_submessage */
  method DecodeSubmessage(s: IStream, f: Field, dest: Value) returns (ok: bool, v: Value)
    requires s.Valid() && f.kind.Message?
    modifies s
    ensures Took(s, old(s.state), old(s.bytesLeft), DecItem(f, dest, old(s.Rest())), ok, v)
    decreases s.bytesLeft, 0
  {
    hide DecLoop, DecVarint32, DecBlob, DecNumber, Default, TakePrefixed, DecMsg;
    v := dest;
    var sub;
    ok, sub := MakeSubstream(s);
    if !ok {
      return;
    }
    var m: Msg;
    if f.entry.rule.Repeated? || !dest.VMsg? {
      ok, m := Decode(sub, f.kind.sub);
    } else {
      ok, m := DecodeNoinit(sub, f.kind.sub, dest.msg);
    }
    CloseSubstream(s, sub);
    v := VMsg(m);
  }

  method DecodeItem(s: IStream, f: Field, dest: Value) returns (ok: bool, v: Value)
    requires s.Valid()
    modifies s
    ensures Took(s, old(s.state), old(s.bytesLeft), DecItem(f, dest, old(s.Rest())), ok, v)
    decreases s.bytesLeft, 1
  {
    if f.kind.Packable() {
      ok, v := DecodeNumber(s, f);
    } else if f.kind.Message? {
      ok, v := DecodeSubmessage(s, f, dest);
    } else {
      ok, v := DecodeBlob(s, f);
    }
  }

  /** The packed case of decode_static_field. */
  method DecodePacked(s: IStream, f: Field, items: seq<Value>) returns (ok: bool, all: seq<Value>)
    requires s.Valid() && f.kind.Packable()
    modifies s
    ensures Took(s, old(s.state), old(s.bytesLeft), PackedRun(f, items, old(s.Rest())), ok, all)
  {
    hide DecNumber, DecVarint32, TakePrefixed;
    all := items;
    var sub;
    ok, sub := MakeSubstream(s);
    if !ok {
      return;
    }
    ghost var end, body := sub.state + sub.bytesLeft, sub.Rest();
    ghost var state1, left1 := s.state, s.bytesLeft;
    while sub.bytesLeft > 0 && |all| < f.entry.arraySize && ok
      invariant s.state == state1 && s.bytesLeft == left1
      invariant fresh(sub) && sub.Valid() && Bounded(sub, state1, end - state1) && sub.data == s.data
      invariant ok ==> DecPacked(f, items, body) == DecPacked(f, all, sub.Rest()) && sub.state + sub.bytesLeft == end
      invariant !ok ==> DecPacked(f, items, body).None?
      decreases ok, sub.bytesLeft
    {
      var v;
      ok, v := DecodeNumber(sub, f);
      if ok {
        all := all + [v];
      }
    }
    if sub.bytesLeft != 0 {
      return false, all;
    }
    CloseSubstream(s, sub);
  }

  function PackedRun(f: Field, items: seq<Value>, bs: seq<byte>): Parsed<seq<Value>>
    requires f.kind.Packable()
  {
    var body := TakePrefixed(bs);
    if body.Fail? then Fail
    else
      var r := DecPacked(f, items, body.value);
      if r.None? then Fail else Ok(r.value, body.rest)
  }

  /** decode_static_field */
  method DecodeField(s: IStream, f: Field, i: nat, wireType: nat, m: Msg) returns (ok: bool, m': Msg)
    requires s.Valid()
    modifies s
    ensures Took(s, old(s.state), old(s.bytesLeft), DecField(f, i, wireType, m, old(s.Rest())), ok, m')
    decreases s.bytesLeft, 2
  {
    m' := m;
    var slot := m.SlotAt(i);
    var v: Value;
    match f.entry.rule {
      case Repeated =>
        if wireType == WT_STRING && f.kind.Packable() {
          var items;
          ok, items := DecodePacked(s, f, slot.items);
          m' := m.Put(i, slot.(items := items));
        } else if |slot.items| >= f.entry.arraySize {
          ok := false;
        } else {
          ok, v := DecodeItem(s, f, VInt(0));
          m' := m.Put(i, slot.(items := slot.items + [v]));
        }
      case Oneof(group) =>
        m' := m.Select(group, f.entry.tag);
        var dest := VInt(0);
        if f.kind.Message? {
          var initial := SetToDefaults(f.kind.sub);
          dest := VMsg(initial);
        }
        ok, v := DecodeItem(s, f, dest);
        m' := m'.Put(i, Slot(slot.has, [v]));
      case Optional =>
        ok, v := DecodeItem(s, f, slot.Item());
        m' := m.Put(i, Slot(true, [v]));
      case _ =>
        ok, v := DecodeItem(s, f, slot.Item());
        m' := m.Put(i, Slot(slot.has, [v]));
    }
  }

  // ---- Messages ----

  /** pb_field_set_to_default */
  method SetFieldToDefault(f: Field) returns (slot: Slot)
    ensures slot == DefaultSlot(f)
    decreases f, 1
  {
    if f.entry.rule.Repeated? || f.entry.rule.Oneof? {
      slot := Slot(false, []);
    } else if f.kind.Message? {
      var sub := SetToDefaults(f.kind.sub);
      slot := Slot(false, [VMsg(sub)]);
    } else if f.ptr.Some? {
      slot := Slot(false, [f.ptr.value]);
    } else {
      slot := Slot(false, [ZeroValue(f.kind, f.entry.dataSize)]);
    }
  }

  /** pb_message_set_to_defaults */
  method SetToDefaults(fields: seq<Field>) returns (m: Msg)
    ensures m == Default(fields)
    decreases fields, 2
  {
    hide DefaultSlot, Offset, Anchor;
    var slots := [];
    if fields != [] {
      var iter := new Iter(Entries(fields), 0, 0);
      var more := true;
      while more
        invariant iter.Valid() && iter.start == Entries(fields) && fresh(iter)
        invariant |slots| <= |fields| && forall i :: 0 <= i < |slots| ==> slots[i] == DefaultSlot(fields[i])
        invariant if more then |slots| < |fields| && iter.pos == |slots| else |slots| == |fields|
        decreases |fields| - |slots|
      {
        var slot := SetFieldToDefault(fields[iter.pos]);
        slots := slots + [slot];
        more := iter.Next();
      }
    }
    m := Msg(slots, map[]);
    assert slots == Default(fields).slots;
  }

  /** The end of pb_decode_noinit: the iterator is run to the end of the list to count the required fields. */
  method CheckRequired(iter: Iter, seen: Seen) returns (ok: bool)
    requires iter.Valid() && seen.Valid()
    requires forall k :: k in seen.members ==> k < RequiredBefore(iter.start, |iter.start|)
    modifies iter
    ensures ok <==> AllSeen(iter.start, seen.members)
  {
    if iter.start == [] {
      return true;
    }
    ghost var es := iter.start;
    var count, lastRequired, more := 0, false, true;
    ghost var at := iter.pos;
    while more
      invariant iter.Valid() && (more ==> iter.pos == at)
      invariant at < |es| && seen.Valid()
      invariant !more ==> at == |es| - 1 && count == RequiredBefore(es, at) && lastRequired == es[at].rule.Required?
      decreases more, |es| - at
    {
      at := iter.pos;
      count := iter.requiredFieldIndex;
      lastRequired := iter.start[iter.pos].rule.Required?;
      more := iter.Next();
      if more { at := at + 1; }
    }
    if lastRequired {
      count := count + 1;
    }
    if count > PB_MAX_REQUIRED_FIELDS {
      count := PB_MAX_REQUIRED_FIELDS;
    }
    ok := seen.AllSet(count);
  }

  /** pb_decode_noinit */
  method DecodeNoinit(s: IStream, fields: seq<Field>, m: Msg) returns (ok: bool, m': Msg)
    requires s.Valid()
    modifies s
    ensures Took(s, old(s.state), old(s.bytesLeft), DecMsg(fields, m, old(s.Rest())), ok, m')
    decreases s.bytesLeft, 3
  {
    ghost var all := s.Rest();
    ghost var es := Entries(fields);
    var seen := new Seen();
    var iter := new Iter(Entries(fields), 0, 0);
    m' := m;
    var stopped := false;
    while s.bytesLeft > 0 && !stopped
      invariant s.Valid() && s.Advanced(old(s.state), old(s.bytesLeft))
      invariant iter.Valid() && seen.Valid() && fresh(iter) && fresh(seen) && fresh(seen.words) && iter.start == es
      invariant forall k :: k in seen.members ==> k < RequiredBefore(es, |es|)
      invariant DecLoop(fields, Start(m), all) ==
                if stopped then Done(State(m', seen.members, iter.pos), s.Rest(), true)
                else DecLoop(fields, State(m', seen.members, iter.pos), s.Rest())
      decreases !stopped, s.bytesLeft
    {
      ghost var st, bs := State(m', seen.members, iter.pos), s.Rest();
      var more;
      ok, more, m' := DecodeRecord(s, fields, iter, seen, m');
      if !ok {
        return;
      }
      stopped := !more;
    }
    ok := CheckRequired(iter, seen);
  }

  /** One turn of the loop. */
  method DecodeRecord(s: IStream, fields: seq<Field>, iter: Iter, seen: Seen, m: Msg)
    returns (ok: bool, more: bool, m': Msg)
    requires s.Valid() && s.bytesLeft > 0 && iter.Valid() && seen.Valid() && iter.start == Entries(fields)
    requires forall k :: k in seen.members ==> k < RequiredBefore(iter.start, |iter.start|)
    modifies s, iter, seen, seen.words
    ensures Bounded(s, old(s.state), old(s.bytesLeft)) && iter.Valid() && seen.Valid()
    ensures forall k :: k in seen.members ==> k < RequiredBefore(iter.start, |iter.start|)
    ensures ok ==> s.Advanced(old(s.state), old(s.bytesLeft)) && s.bytesLeft < old(s.bytesLeft)
    ensures DecTurn(fields, State(m, old(seen.members), old(iter.pos)), old(s.Rest())) ==
            if !ok then Error else if more then Go(State(m', seen.members, iter.pos), s.Rest()) else Stop(s.Rest())
    ensures ok && !more ==> m' == m && seen.members == old(seen.members) && iter.pos == old(iter.pos)
    decreases s.bytesLeft, 2, 1
  {
    hide DecField, DecVarint32, Skip, FindFrom, RequiredBefore, MarkSeen, Seen.Valid, Offset, Anchor, Matches;
    m', more := m, true;
    var key;
    ok, key := s.DecodeVarint32();
    if !ok {
      return;
    }
    if key == 0 {
      return true, false, m;
    }
    var tag, wireType := key / 8, key % 8;
    var found := iter.Find(tag);
    if !found {
      ok := SkipField(s, wireType);
      return;
    }
    if fields == [] {
      return false, true, m;
    }
    MarkRequired(iter, seen);
    ok, m' := DecodeField(s, fields[iter.pos], iter.pos, wireType, m);
  }

  method MarkRequired(iter: Iter, seen: Seen)
    requires iter.Valid() && seen.Valid() && iter.start != []
    requires forall k :: k in seen.members ==> k < RequiredBefore(iter.start, |iter.start|)
    modifies seen, seen.words
    ensures seen.Valid() && seen.members == MarkSeen(iter.start, old(seen.members), iter.pos)
    ensures forall k :: k in seen.members ==> k < RequiredBefore(iter.start, |iter.start|)
  {
    if iter.start[iter.pos].rule.Required? && iter.requiredFieldIndex < PB_MAX_REQUIRED_FIELDS {
      RequiredBelow(iter.start, iter.pos);
      seen.Mark(iter.requiredFieldIndex);
    }
  }

  lemma {:induction false} RequiredBelow(es: seq<Entry>, i: nat)
    requires i < |es| && es[i].rule.Required?
    ensures RequiredBefore(es, i) < RequiredBefore(es, |es|)
  {
    RequiredMono(es, i + 1, |es|);
  }

  lemma {:induction false} RequiredMono(es: seq<Entry>, i: nat, n: nat)
    requires i <= n <= |es|
    ensures RequiredBefore(es, i) <= RequiredBefore(es, n)
  {
    if i < n {
      RequiredMono(es, i, n - 1);
    }
  }

  /** pb_decode */
  method Decode(s: IStream, fields: seq<Field>) returns (ok: bool, m: Msg)
    requires s.Valid()
    modifies s
    ensures Took(s, old(s.state), old(s.bytesLeft), DecMsg(fields, Default(fields), old(s.Rest())), ok, m)
    decreases s.bytesLeft, 4
  {
    m := SetToDefaults(fields);
    ok, m := DecodeNoinit(s, fields, m);
  }
}
