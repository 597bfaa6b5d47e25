/** Output streams over a buffer, and streams that only count (pb_ostream_t). */
module OutStream {
  import opened Bytes
  import opened Varints
  import opened Encoding

  /** What a write can change: the memory behind the stream, where the stream stands in it, and its count. */
  datatype Snap = Snap(mem: seq<byte>, at: nat, written: nat)

  /** after is before, except perhaps from lo up to hi. */
  ghost predicate Kept(before: seq<byte>, after: seq<byte>, lo: nat, hi: nat)
  {
    && lo <= hi <= |before| == |after|
    && after[..lo] == before[..lo] && after[hi..] == before[hi..]
  }

  /** The bytes e, and nothing else, went from s to t. A sizing stream only counts them. */
  ghost predicate Emits(sizing: bool, s: Snap, e: seq<byte>, t: Snap)
  {
    && t.written == s.written + |e|
    && t.at == s.at + (if sizing then 0 else |e|)
    && Kept(s.mem, t.mem, s.at, t.at)
    && (!sizing ==> t.mem[s.at..t.at] == e)
  }

  /** Outcome of writing e (None: e cannot be encoded) under a limit on the count. A failed write stays within
      the room the stream had. */
  ghost predicate Outcome(sizing: bool, limit: nat, s: Snap, e: Option<seq<byte>>, ok: bool, t: Snap)
  {
    && (ok <==> e.Some? && s.written + |e.value| <= limit)
    && (ok ==> Emits(sizing, s, e.value, t))
    && (!ok ==> s.written <= limit && Kept(s.mem, t.mem, s.at, if sizing then s.at else s.at + (limit - s.written)))
  }

  lemma {:induction false} KeptTrans(a: seq<byte>, b: seq<byte>, c: seq<byte>, lo: nat, m1: nat, m2: nat, hi: nat)
    requires Kept(a, b, lo, m1) && Kept(b, c, m2, hi) && lo <= m2
    ensures m1 <= hi ==> Kept(a, c, lo, hi)
    ensures hi <= m1 ==> Kept(a, c, lo, m1)
  {
    assert c[..lo] == c[..m2][..lo] && b[..lo] == b[..m2][..lo];
    if m1 <= hi {
      assert b[hi..] == b[m1..][hi - m1..] && a[hi..] == a[m1..][hi - m1..];
    } else {
      assert c[m1..] == c[hi..][m1 - hi..] && b[m1..] == b[hi..][m1 - hi..];
    }
  }

  lemma {:induction false} EmitsThen(sizing: bool, s: Snap, e1: seq<byte>, t: Snap, e2: seq<byte>, u: Snap)
    requires Emits(sizing, s, e1, t) && Emits(sizing, t, e2, u)
    ensures Emits(sizing, s, e1 + e2, u)
  {
    KeptTrans(s.mem, t.mem, u.mem, s.at, t.at, t.at, u.at);
    if !sizing {
      assert u.mem[s.at..t.at] == u.mem[..t.at][s.at..] == t.mem[..t.at][s.at..] == e1;
      assert u.mem[s.at..u.at] == u.mem[s.at..t.at] + u.mem[t.at..u.at];
    }
  }

  function Concat(a: Option<seq<byte>>, b: Option<seq<byte>>): Option<seq<byte>>
  {
    if a.Some? && b.Some? then Some(a.value + b.value) else None
  }

  /** A first write that succeeds, then a second one: together a write of both. */
  lemma {:induction false} OutcomeThen(sizing: bool, limit: nat, s: Snap, e1: seq<byte>, t: Snap,
                                       e2: Option<seq<byte>>, ok: bool, u: Snap)
    requires Outcome(sizing, limit, s, Some(e1), true, t) && Outcome(sizing, limit, t, e2, ok, u)
    ensures Outcome(sizing, limit, s, Concat(Some(e1), e2), ok, u)
  {
    if ok {
      EmitsThen(sizing, s, e1, t, e2.value, u);
    } else {
      KeptTrans(s.mem, t.mem, u.mem, s.at, t.at, t.at, if sizing then t.at else t.at + (limit - t.written));
    }
  }

  /** Where a part fails, so does the whole. */
  lemma {:induction false} OutcomeFails(sizing: bool, limit: nat, s: Snap, part: Option<seq<byte>>, t: Snap,
                                        whole: Option<seq<byte>>)
    requires Outcome(sizing, limit, s, part, false, t)
    requires whole.Some? ==> part.Some? && |part.value| <= |whole.value|
    ensures Outcome(sizing, limit, s, whole, false, t)
  {}

  lemma {:induction false} OutcomeNothing(sizing: bool, limit: nat, s: Snap)
    requires s.written <= limit && s.at <= |s.mem|
    ensures Outcome(sizing, limit, s, Some([]), true, s)
  {}

  class OStream {
    /** callback == NULL: the stream counts and writes nothing. */
    const sizing: bool
    const buf: array<byte>
    const maxSize: nat
    var state: nat
    var bytesWritten: nat

    /** What is left of max_size is left in the buffer. Counts are size_t. */
    ghost predicate Valid()
      reads this
    {
      && maxSize < U64
      && bytesWritten <= Limit()
      && state + (if sizing then 0 else maxSize - bytesWritten) <= buf.Length
    }

    /** The largest count: max_size, or for a sizing stream what a size_t can hold. */
    function Limit(): nat {
      if sizing then U64 - 1 else maxSize
    }

    ghost function Now(): Snap
      reads this, buf
    {
      Snap(buf[..], state, bytesWritten)
    }

    /** PB_OSTREAM_SIZING */
    constructor Sizing()
      ensures Valid() && fresh(buf) && sizing && bytesWritten == 0
    {
      sizing, maxSize, state, bytesWritten := true, 0, 0, 0;
      buf := new byte[0];
    }

    /** A stream over part of a buffer: pb_ostream_from_buffer, or the substream of a submessage. */
    constructor (dest: array<byte>, start: nat, size: nat)
      requires start + size <= dest.Length && size < U64
      ensures Valid() && buf == dest && !sizing && maxSize == size && state == start && bytesWritten == 0
    {
      sizing, buf, maxSize, state, bytesWritten := false, dest, size, start, 0;
    }

    /** pb_write; src is a null pointer where the stream is sizing and only the count matters. */
    method Write(src: seq<byte>, count: nat) returns (ok: bool)
      requires Valid() && (sizing || count == |src|)
      modifies this, buf
      ensures Valid()
      ensures count == |src| ==> Outcome(sizing, Limit(), old(Now()), Some(src), ok, Now())
      ensures sizing ==> (ok <==>
                            old(bytesWritten) + count <= Limit()) && buf[..] == old(buf[..]) && state == old(state)
                         && bytesWritten == old(bytesWritten) + if ok then count else 0
    {
      if bytesWritten + count > Limit() {
        return false;  // "stream full"
      }
      if !sizing {
        CopyIn(src);
        state := state + count;
      }
      bytesWritten := bytesWritten + count;
      return true;
    }

    /** The loop of buf_write. */
    method CopyIn(src: seq<byte>)
      requires state + |src| <= buf.Length
      modifies buf
      ensures Kept(old(buf[..]), buf[..], state, state + |src|) && buf[state..state + |src|] == src
    {
      var i := 0;
      while i < |src|
        invariant i <= |src|
        invariant Kept(old(buf[..]), buf[..], state, state + |src|) && buf[state..state + i] == src[..i]
      {
        buf[state + i] := src[i];
        i := i + 1;
      }
    }

    /** pb_encode_varint. The ten bytes of the buffer are enough for every 64-bit number. */
    method EncodeVarint(value: nat) returns (ok: bool)
      requires Valid() && value < U64
      modifies this, buf
      ensures Valid() && Outcome(sizing, Limit(), old(Now()), Some(EncVarint(value)), ok, Now())
    {
      if value <= 0x7F {
        ok := Write([value], 1);
        return;
      }
      var bytes := VarintBytes(value);
      ok := Write(bytes, |bytes|);
    }

    static method VarintBytes(value: nat) returns (bytes: seq<byte>)
      requires 0x7F < value < U64
      ensures bytes == EncVarint(value)
    {
      var buffer := new byte[10];
      var i: nat, v: nat := 0, value;
      EncVarintLength64(value);
      while v > 0
        invariant i <= 10 && (v > 0 ==> i < 10)
        invariant v > 0 ==> EncVarint(value) == buffer[..i] + EncVarint(v)
        invariant v == 0 ==> i > 0 && buffer[i - 1] >= 128
        invariant v == 0 ==> EncVarint(value) == buffer[..i - 1] + [buffer[i - 1] - 128]
        decreases v
      {
        var before := buffer[..i];
        buffer[i] := v % 128 + 128;
        assert buffer[..i + 1] == before + [v % 128 + 128];
        v := v / 128;
        i := i + 1;
        assert buffer[..i - 1] == before;
      }
      var shown := buffer[..i - 1];
      buffer[i - 1] := buffer[i - 1] - 128;
      assert buffer[..i] == shown + [buffer[i - 1]];
      return buffer[..i];
    }

    method EncodeSvarint(value: int) returns (ok: bool)
      requires Valid() && -I64 <= value < I64
      modifies this, buf
      ensures Valid() && Outcome(sizing, Limit(), old(Now()), Some(EncVarint(ZigZag(value))), ok, Now())
    {
      hide EncVarint;
      var shifted := (2 * value) % U64;  // (uint64_t)value << 1
      ShiftedZigZag(value);
      ok := EncodeVarint(if value < 0 then U64 - 1 - shifted else shifted);
    }

    method EncodeFixed32(v: nat) returns (ok: bool)
      requires Valid() && v < U32
      modifies this, buf
      ensures Valid() && Outcome(sizing, Limit(), old(Now()), Some(LittleEndian(v, 4)), ok, Now())
    {
      var bytes: seq<byte> := [v % 0x100, v / 0x100 % 0x100, v / 0x1_0000 % 0x100, v / 0x100_0000 % 0x100];
      FourBytes(v);
      ok := Write(bytes, 4);
    }

    method EncodeFixed64(v: nat) returns (ok: bool)
      requires Valid() && v < U64
      modifies this, buf
      ensures Valid() && Outcome(sizing, Limit(), old(Now()), Some(LittleEndian(v, 8)), ok, Now())
    {
      var w := v / 0x1_0000_0000;
      var bytes: seq<byte> := [v % 0x100, v / 0x100 % 0x100, v / 0x1_0000 % 0x100, v / 0x100_0000 % 0x100,
                               w % 0x100, w / 0x100 % 0x100, w / 0x1_0000 % 0x100, w / 0x100_0000 % 0x100];
      EightBytes(v);
      ok := Write(bytes, 8);
    }

    method EncodeTag(wireType: nat, tag: nat) returns (ok: bool)
      requires Valid() && wireType < 8 && tag < U32
      modifies this, buf
      ensures Valid() && Outcome(sizing, Limit(), old(Now()), Some(EncTag(wireType, tag)), ok, Now())
    {
      ok := EncodeVarint(8 * tag + wireType);
    }

    /** pb_encode_string */
    method EncodeString(bytes: seq<byte>) returns (ok: bool)
      requires Valid()
      modifies this, buf
      ensures Valid() && Outcome(sizing, Limit(), old(Now()), Some(Prefixed(bytes)), ok, Now())
    {
      if |bytes| >= U64 {
        return false;  // no such object
      }
      ok := EncodeVarint(|bytes|);
      ghost var mid := Now();
      if !ok {
        OutcomeFails(sizing, Limit(), old(Now()), Some(EncVarint(|bytes|)), mid, Some(Prefixed(bytes)));
        return;
      }
      ok := Write(bytes, |bytes|);
      OutcomeThen(sizing, Limit(), old(Now()), EncVarint(|bytes|), mid, Some(bytes), ok, Now());
    }
  }

  lemma {:induction false} FourBytes(v: nat)
    ensures LittleEndian(v, 4) == [v % 0x100, v / 0x100 % 0x100, v / 0x1_0000 % 0x100, v / 0x100_0000 % 0x100]
  {
    assert LittleEndian(v / 0x100_0000, 1) == [v / 0x100_0000 % 0x100];
    assert v / 0x100 / 0x100 == v / 0x1_0000 && v / 0x1_0000 / 0x100 == v / 0x100_0000;
    assert LittleEndian(v / 0x1_0000, 2) == [v / 0x1_0000 % 0x100] + LittleEndian(v / 0x100_0000, 1);
    assert LittleEndian(v / 0x100, 3) == [v / 0x100 % 0x100] + LittleEndian(v / 0x1_0000, 2);
  }

  lemma {:induction false} EightBytes(v: nat)
    ensures var w := v / 0x1_0000_0000;
      LittleEndian(v, 8) == [v % 0x100, v / 0x100 % 0x100, v / 0x1_0000 % 0x100, v / 0x100_0000 % 0x100,
                             w % 0x100, w / 0x100 % 0x100, w / 0x1_0000 % 0x100, w / 0x100_0000 % 0x100]
  {
    FourBytes(v);
    FourBytes(v / 0x1_0000_0000);
    Tail4(v, 4);
  }

  lemma {:induction false} Tail2(v: nat, n: nat)
    ensures LittleEndian(v, 2 + n) == LittleEndian(v, 2) + LittleEndian(v / 0x1_0000, n)
  {
    assert v / 0x100 / 0x100 == v / 0x1_0000;
    assert LittleEndian(v / 0x100, 1 + n) == [v / 0x100 % 0x100] + LittleEndian(v / 0x1_0000, n);
    assert LittleEndian(v / 0x100, 1) == [v / 0x100 % 0x100];
  }

  lemma {:induction false} Tail4(v: nat, n: nat)
    ensures LittleEndian(v, 4 + n) == LittleEndian(v, 4) + LittleEndian(v / 0x1_0000_0000, n)
  {
    hide LittleEndian;
    assert v / 0x1_0000 / 0x1_0000 == v / 0x1_0000_0000;
    Tail2(v, 2 + n);
    Tail2(v, 2);
    Tail2(v / 0x1_0000, n);
  }

  /** The shifted number, complemented if it is negative, is the zigzag form. */
  lemma {:induction false} ShiftedZigZag(value: int)
    requires -I64 <= value < I64
    ensures var shifted := (2 * value) % U64;
      ZigZag(value) == if value < 0 then U64 - 1 - shifted else shifted
  {
    if value < 0 { WrapDouble(value); }
  }
}
