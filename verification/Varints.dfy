/** Base-128 varints and zigzag: what the bytes mean, independent of the streams that carry them. */
module Varints {
  import opened Bits
  import opened Bytes

  const U32: nat := 0x1_0000_0000
  const U64: nat := 0x1_0000_0000_0000_0000
  const I32: int := 0x8000_0000
  const I64: int := 0x8000_0000_0000_0000

  function EncVarint(v: nat): (r: seq<byte>)
    ensures |r| >= 1
  {
    if v < 128 then [v] else [v % 128 + 128] + EncVarint(v / 128)
  }

  /** Length of the varint that bs starts with: up to the first byte without the continuation bit. */
  function VarintEnd(bs: seq<byte>): (r: Option<nat>)
    ensures r.Some? ==> 1 <= r.value <= |bs|
  {
    if bs == [] then None
    else if bs[0] < 128 then Some(1)
    else match VarintEnd(bs[1..])
      case None => None
      case Some(n) => Some(n + 1)
  }

  /** The number that a group of varint bytes denotes, least significant seven bits first. */
  function VarintValue(g: seq<byte>): nat
  {
    if g == [] then 0 else g[0] % 128 + 128 * VarintValue(g[1..])
  }

  /** A 64-bit varint: at most ten bytes, higher bits lost. */
  function DecVarint(bs: seq<byte>): (r: Parsed<nat>)
    ensures r.Ok? ==> r.value < U64 && |r.rest| < |bs| && r.rest == bs[|bs| - |r.rest|..]
  {
    match VarintEnd(bs)
    case None => Fail
    case Some(n) => if n > 10 then Fail else Ok(VarintValue(bs[..n]) % U64, bs[n..])
  }

  /** The bytes of a 32-bit varint after the first, as pb_decode_varint32_eof takes them one at a time.
      bitpos is a uint_fast8_t of eight bits. */
  function Varint32Tail(result: nat, bitpos: nat, bs: seq<byte>): (r: Parsed<nat>)
    requires result < U32 && bitpos < 256
    ensures r.Ok? ==> r.value < U32 && |r.rest| < |bs| && r.rest == bs[|bs| - |r.rest|..]
    decreases |bs|
  {
    if bs == [] then Fail
    else
      var b := bs[0];
      var signExtension := if bitpos < 63 then 0xFF else 0x01;
      if bitpos >= 32 && b % 128 != 0 && (result < I32 || b != signExtension) then Fail
      else
        var result' := if bitpos >= 32 then result else Merge32(result, b % 128, bitpos);
        var bitpos' := (bitpos + 7) % 256;
        if b >= 128 then Varint32Tail(result', bitpos', bs[1..])
        else if bitpos' == 35 && (b / 16) % 8 != 0 then Fail
        else Ok(result', bs[1..])
  }

  /** result | (uint32_t)septet << bitpos */
  function Merge32(result: nat, septet: nat, bitpos: nat): (r: nat)
    requires result < U32
    ensures r < U32
  {
    WordSizes();
    OrBound(result, Shl(septet, bitpos, 32), 32);
    BitOr(result, Shl(septet, bitpos, 32))
  }

  function DecVarint32(bs: seq<byte>): (r: Parsed<nat>)
    ensures r.Ok? ==> r.value < U32 && |r.rest| < |bs| && r.rest == bs[|bs| - |r.rest|..]
  {
    if bs == [] then Fail
    else if bs[0] < 128 then Ok(bs[0], bs[1..])
    else Varint32Tail(bs[0] % 128, 7, bs[1..])
  }

  // ---- Encoding, length and meaning ----

  function Pow128(k: nat): (r: nat)
    ensures r >= 1
  {
    if k == 0 then 1 else 128 * Pow128(k - 1)
  }

  lemma {:induction false} Pow128IsPow2(k: nat)
    ensures Pow128(k) == Pow2(7 * k)
  {
    if k > 0 {
      Pow128IsPow2(k - 1);
      assert Pow2(7 * k) == 128 * Pow2(7 * k - 7) by { Pow2Add(7, 7 * k - 7); }
    }
  }

  lemma {:induction false} EncVarintLength(v: nat, k: nat)
    requires k >= 1
    ensures |EncVarint(v)| <= k <==> v < Pow128(k)
  {
    assert Pow128(k) == 128 * Pow128(k - 1);
    if v >= 128 {
      if k == 1 {
      } else {
        EncVarintLength(v / 128, k - 1);
      }
    }
  }

  lemma {:induction false} EncVarintShape(v: nat, rest: seq<byte>)
    ensures VarintEnd(EncVarint(v) + rest) == Some(|EncVarint(v)|)
    ensures VarintValue(EncVarint(v)) == v
  {
    if v >= 128 {
      EncVarintShape(v / 128, rest);
      assert (EncVarint(v) + rest)[1..] == EncVarint(v / 128) + rest;
      assert EncVarint(v)[1..] == EncVarint(v / 128);
    }
  }

  lemma {:induction false} SmallMod(v: nat, n: nat)
    requires v < n
    ensures v % n == v
  {}

  lemma {:induction false} EncVarintLength64(v: nat)
    requires v < U64
    ensures |EncVarint(v)| <= 10
  {
    EncVarintLength(v, 10);
    Pow128IsPow2(10);
    Pow2Add(64, 6);
    WordSizes();
  }

  /** Every uint64 takes one to ten bytes and reads back, consuming exactly those bytes. */
  lemma {:induction false} VarintRoundTrip(v: nat, rest: seq<byte>)
    requires v < U64
    ensures 1 <= |EncVarint(v)| <= 10
    ensures DecVarint(EncVarint(v) + rest) == Ok(v, rest)
  {
    EncVarintShape(v, rest);
    EncVarintLength64(v);
    var e := EncVarint(v);
    var bs := e + rest;
    assert bs[..|e|] == e && bs[|e|..] == rest;
    assert VarintEnd(bs) == Some(|e|);
    SmallMod(v, U64);
  }

  /** What is read does not depend on the bytes behind it. */
  lemma {:induction false} VarintEndExtend(a: seq<byte>, b: seq<byte>)
    requires VarintEnd(a).Some?
    ensures VarintEnd(a + b) == VarintEnd(a)
  {
    if a[0] >= 128 {
      assert (a + b)[1..] == a[1..] + b;
      VarintEndExtend(a[1..], b);
    }
  }

  lemma {:induction false} VarintExtend(a: seq<byte>, b: seq<byte>)
    requires DecVarint(a).Ok?
    ensures DecVarint(a + b) == Ok(DecVarint(a).value, DecVarint(a).rest + b)
  {
    VarintEndExtend(a, b);
    var n := VarintEnd(a).value;
    assert (a + b)[..n] == a[..n] && (a + b)[n..] == a[n..] + b;
  }

  lemma {:induction false} Varint32TailExtend(result: nat, bitpos: nat, a: seq<byte>, b: seq<byte>)
    requires result < U32 && bitpos < 256
    requires Varint32Tail(result, bitpos, a).Ok?
    ensures var r := Varint32Tail(result, bitpos, a);
      Varint32Tail(result, bitpos, a + b) == Ok(r.value, r.rest + b)
    decreases |a|
  {
    assert (a + b)[1..] == a[1..] + b;
    if a[0] >= 128 {
      var result' := if bitpos >= 32 then result else Merge32(result, a[0] % 128, bitpos);
      Varint32TailExtend(result', (bitpos + 7) % 256, a[1..], b);
    }
  }

  lemma {:induction false} Varint32Extend(a: seq<byte>, b: seq<byte>)
    requires DecVarint32(a).Ok?
    ensures DecVarint32(a + b) == Ok(DecVarint32(a).value, DecVarint32(a).rest + b)
  {
    assert (a + b)[1..] == a[1..] + b;
    if a[0] >= 128 {
      Varint32TailExtend(a[0] % 128, 7, a[1..], b);
    }
  }

  // ---- The 32-bit reader ----

  /** The word after the (k+1)-st septet, that of byte b. */
  function Next(result: nat, k: nat, b: byte): (r: nat)
    requires result < U32
    ensures r < U32
  {
    if k >= 5 then result else Merge32(result, b % 128, 7 * k)
  }

  /** One turn of the loop within ten bytes. */
  lemma {:induction false} TailStep(result: nat, k: nat, bs: seq<byte>)
    requires 1 <= k <= 9 && result < U32 && bs != []
    ensures Varint32Tail(result, 7 * k, bs) ==
            if k >= 5 && bs[0] % 128 != 0 && (result < I32 || bs[0] != if k < 9 then 0xFF else 0x01) then Fail
            else if bs[0] >= 128 then Varint32Tail(Next(result, k, bs[0]), 7 * (k + 1), bs[1..])
            else if k == 4 && bs[0] >= 16 then Fail
            else Ok(Next(result, k, bs[0]), bs[1..])
  {
    assert (7 * k + 7) % 256 == 7 * (k + 1);
  }

  /** result holds the first k septets of u, as far as they fit in 32 bits, and v is what follows them. */
  ghost predicate Split(result: nat, k: nat, v: nat, u: nat)
  {
    && result < U32
    && (forall i: nat :: Bit(result, i) <==> i < 32 && i < 7 * k && Bit(u, i))
    && (forall i: nat :: Bit(v, i) <==> Bit(u, 7 * k + i))
  }

  lemma {:induction false} NextBit(result: nat, k: nat, b: byte, i: nat)
    requires result < U32
    ensures Bit(Next(result, k, b), i) <==>
            Bit(result, i) || (k < 5 && 7 * k <= i < 32 && Bit(b % 128, i - 7 * k))
  {
    if k < 5 {
      OrBit(result, Shl(b % 128, 7 * k, 32), i);
      ShlBit(b % 128, 7 * k, 32, i);
    }
  }

  lemma {:induction false} SeptetBit(v: nat, i: nat)
    ensures Bit(v % 128, i) <==> i < 7 && Bit(v, i)
    ensures Bit(v / 128, i) <==> Bit(v, 7 + i)
  {
    WordSizes();
    ModBit(v, 7, i);
    JoinBit(v % 128, v / 128, 7, 7 + i);
  }

  lemma {:induction false} SplitFirst(u: nat)
    ensures Split(u % 128, 1, u / 128, u)
  {
    hide Bit;
    forall i: nat
      ensures Bit(u % 128, i) <==> i < 7 && Bit(u, i)
      ensures Bit(u / 128, i) <==> Bit(u, 7 + i)
    {
      SeptetBit(u, i);
    }
  }

  lemma {:induction false} SplitNext(result: nat, k: nat, v: nat, u: nat, b: byte)
    requires Split(result, k, v, u) && b % 128 == v % 128
    ensures Split(Next(result, k, b), k + 1, v / 128, u)
  {
    var result' := Next(result, k, b);
    hide Next, Bit;
    forall i: nat
      ensures Bit(result', i) <==> i < 32 && i < 7 * (k + 1) && Bit(u, i)
      ensures Bit(v / 128, i) <==> Bit(u, 7 * (k + 1) + i)
    {
      NextBit(result, k, b, i);
      SeptetBit(v, i);
      assert Bit(v, 7 + i) <==> Bit(u, 7 * k + (7 + i));
      if 7 * k <= i {
        SeptetBit(v, i - 7 * k);
        assert Bit(v, i - 7 * k) <==> Bit(u, 7 * k + (i - 7 * k));
      }
    }
  }

  /** Once the word is full, or nothing follows, it is the low word of u. */
  lemma {:induction false} SplitLow(result: nat, k: nat, v: nat, u: nat)
    requires Split(result, k, v, u) && (k >= 5 || v == 0)
    ensures result == u % U32
  {
    WordSizes();
    hide Bit;
    forall i: nat | i < 32
      ensures Bit(result, i) <==> Bit(u % U32, i)
    {
      ModBit(u, 32, i);
      if i >= 7 * k {
        ZeroBit(i - 7 * k);
        assert Bit(v, i - 7 * k) <==> Bit(u, 7 * k + (i - 7 * k));
      }
    }
    BitExt(result, u % U32, 32);
  }

  /** Within ten bytes the reader keeps the low 32 bits of the number read. */
  lemma {:induction false} Varint32TailLow(result: nat, k: nat, bs: seq<byte>, u: nat)
    requires 1 <= k && VarintEnd(bs).Some? && k + VarintEnd(bs).value <= 10 && result < U32
    requires Split(result, k, VarintValue(bs[..VarintEnd(bs).value]), u)
    requires Varint32Tail(result, 7 * k, bs).Ok?
    ensures Varint32Tail(result, 7 * k, bs) == Ok(u % U32, bs[VarintEnd(bs).value..])
    decreases |bs|
  {
    hide Split, Varint32Tail, Next;
    var n := VarintEnd(bs).value;
    var tail := bs[1..];
    assert bs[..n][1..] == bs[1..n] == tail[..n - 1];
    TailStep(result, k, bs);
    SplitNext(result, k, VarintValue(bs[..n]), u, bs[0]);
    if bs[0] >= 128 {
      assert tail[n - 1..] == bs[n..];
      Varint32TailLow(Next(result, k, bs[0]), k + 1, tail, u);
    } else {
      assert VarintValue(bs[..n]) / 128 == 0;
      SplitLow(Next(result, k, bs[0]), k + 1, 0, u);
    }
  }

  /** Any varint of at most ten bytes that the 32-bit reader accepts is read as its low 32 bits. */
  lemma {:induction false} Varint32IsLowWord(bs: seq<byte>)
    requires DecVarint32(bs).Ok? && VarintEnd(bs).Some? && VarintEnd(bs).value <= 10
    ensures DecVarint32(bs) == Ok(VarintValue(bs[..VarintEnd(bs).value]) % U32, bs[VarintEnd(bs).value..])
  {
    hide Split, Varint32Tail;
    if bs[0] >= 128 {
      LowWordLong(bs);
    } else {
      assert bs[..1][1..] == [];
    }
  }

  lemma {:induction false} LowWordLong(bs: seq<byte>)
    requires bs != [] && bs[0] >= 128
    requires DecVarint32(bs).Ok? && VarintEnd(bs).Some? && VarintEnd(bs).value <= 10
    ensures DecVarint32(bs) == Ok(VarintValue(bs[..VarintEnd(bs).value]) % U32, bs[VarintEnd(bs).value..])
  {
    hide Split, Varint32Tail;
    var n := VarintEnd(bs).value;
    var u, tail := VarintValue(bs[..n]), bs[1..];
    assert tail[n - 1..] == bs[n..];
    assert bs[..n][1..] == tail[..n - 1];
    SplitFirst(u);
    Varint32TailLow(bs[0] % 128, 1, tail, u);
  }

  /** What is left of a 32-bit number after k septets is below Room(k). */
  function Room(k: nat): nat
    requires 1 <= k <= 5
  {
    if k == 5 then 1 else 16 * Pow128(4 - k)
  }

  lemma {:induction false} Varint32TailAccepts(result: nat, k: nat, v: nat, rest: seq<byte>)
    requires 1 <= k <= 4 && result < U32 && v < Room(k)
    ensures Varint32Tail(result, 7 * k, EncVarint(v) + rest).Ok?
    decreases v
  {
    hide Varint32Tail, Next;
    var bs := EncVarint(v) + rest;
    TailStep(result, k, bs);
    RoomStep(k, v);
    if v < 128 {
      assert bs[0] == v;
    } else {
      assert bs[0] == v % 128 + 128 && bs[1..] == EncVarint(v / 128) + rest;
      Varint32TailAccepts(Next(result, k, bs[0]), k + 1, v / 128, rest);
    }
  }

  lemma {:induction false} RoomStep(k: nat, v: nat)
    requires 1 <= k <= 4 && v < Room(k)
    ensures v < 128 || (k < 4 && v / 128 < Room(k + 1))
    ensures k == 4 ==> v < 16
  {
    assert Pow128(1) == 128 && Pow128(2) == 128 * 128 && Pow128(3) == 128 * 128 * 128;
  }

  /** v is what is left of a sign-extended negative int32 after k septets: high bits all set. */
  ghost predicate SignExtended(k: nat, v: nat)
    requires 1 <= k <= 5
  {
    if k == 5 then v == 0x1FFF_FFFF
    else 0x1_FFFF_FFFF * 8 * Pow128(4 - k) <= v < 0x2_0000_0000 * 8 * Pow128(4 - k)
  }

  lemma {:induction false} SignExtendedStep(k: nat, v: nat)
    requires 1 <= k <= 4 && SignExtended(k, v)
    ensures v >= 128 && SignExtended(k + 1, v / 128)
  {
    assert Pow128(1) == 128 && Pow128(2) == 128 * 128 && Pow128(3) == 128 * 128 * 128;
  }

  /** From the fifth septet on a sign extension is all ones. */
  lemma {:induction false} Varint32TailNegative(result: nat, k: nat, v: nat, u: nat, rest: seq<byte>)
    requires 1 <= k <= 5 && result < U32 && Split(result, k, v, u) && SignExtended(k, v) && u % U32 >= I32
    ensures Varint32Tail(result, 7 * k, EncVarint(v) + rest).Ok?
    decreases 5 - k
  {
    hide Split, Varint32Tail, Next;
    if k == 5 {
      SplitLow(result, k, v, u);
      AllOnes(result, rest);
    } else {
      var bs := EncVarint(v) + rest;
      SignExtendedStep(k, v);
      TailStep(result, k, bs);
      assert bs[0] == v % 128 + 128 && bs[1..] == EncVarint(v / 128) + rest;
      SplitNext(result, k, v, u, bs[0]);
      Varint32TailNegative(Next(result, k, bs[0]), k + 1, v / 128, u, rest);
    }
  }

  lemma {:induction false} AllOnes(result: nat, rest: seq<byte>)
    requires I32 <= result < U32
    ensures Varint32Tail(result, 35, EncVarint(0x1FFF_FFFF) + rest) == Ok(result, rest)
  {
    var last: seq<byte> := [0x01];
    assert EncVarint(0x1FFF_FFFF) == [0xFF, 0xFF, 0xFF, 0xFF] + last;
    assert EncVarint(0x1FFF_FFFF) + rest == [0xFF, 0xFF, 0xFF, 0xFF] + (last + rest);
    assert Varint32Tail(result, 63, last + rest) == Ok(result, rest) by {
      hide Varint32Tail;
      TailStep(result, 9, last + rest);
      assert (last + rest)[1..] == rest;
    }
    AllOnesFrom(result, 4, last + rest);
  }

  function Ones(n: nat): seq<byte>
  {
    if n == 0 then [] else [0xFF] + Ones(n - 1)
  }

  lemma {:induction false} AllOnesFrom(result: nat, n: nat, bs: seq<byte>)
    requires I32 <= result < U32 && n <= 4
    ensures Varint32Tail(result, 63 - 7 * n, Ones(n) + bs) == Varint32Tail(result, 63, bs)
    ensures Ones(4) == [0xFF, 0xFF, 0xFF, 0xFF]
  {
    hide Varint32Tail;
    if n == 0 {
      assert Ones(0) + bs == bs;
    } else {
      TailStep(result, 9 - n, Ones(n) + bs);
      assert (Ones(n) + bs)[1..] == Ones(n - 1) + bs;
      AllOnesFrom(result, n - 1, bs);
    }
  }

  /** The 32-bit reader on what pb_encode_varint writes: unsigned numbers of 32 bits, and negative int32
      values that were extended to 64 bits, come back as their low word. */
  lemma {:induction false} Varint32RoundTrip(u: nat, rest: seq<byte>)
    requires u < U32 || U64 - I32 <= u < U64
    ensures DecVarint32(EncVarint(u) + rest) == Ok(u % U32, rest)
  {
    var e := EncVarint(u);
    var bs := e + rest;
    EncVarintShape(u, rest);
    EncVarintLength64(u);
    assert bs[..|e|] == e && bs[|e|..] == rest;
    Varint32Accepts(u, rest);
    Varint32IsLowWord(bs);
  }

  lemma {:induction false} Varint32Accepts(u: nat, rest: seq<byte>)
    requires u < U32 || U64 - I32 <= u < U64
    ensures DecVarint32(EncVarint(u) + rest).Ok?
  {
    hide Split, Varint32Tail;
    var bs := EncVarint(u) + rest;
    if u >= 128 {
      assert bs[0] == u % 128 + 128 && bs[1..] == EncVarint(u / 128) + rest;
      assert Pow128(3) == 128 * 128 * 128;
      if u < U32 {
        Varint32TailAccepts(bs[0] % 128, 1, u / 128, rest);
      } else {
        SplitFirst(u);
        Varint32TailNegative(bs[0] % 128, 1, u / 128, u, rest);
      }
    }
  }

  // ---- Zigzag ----

  function ZigZag(n: int): (r: nat)
    requires -I64 <= n < I64
  {
    if n < 0 then U64 - 1 - (2 * n) % U64 else 2 * n
  }

  function UnZigZag(v: nat): (r: int)
    requires v < U64
    ensures -I64 <= r < I64
  {
    if v % 2 == 1 then -1 - v / 2 else v / 2
  }

  lemma {:induction false} ZigZagInverse(n: int)
    requires -I64 <= n < I64
    ensures ZigZag(n) < U64 && UnZigZag(ZigZag(n)) == n
    ensures ZigZag(n) < 128 <==> -64 <= n < 64
  {
    if n < 0 {
      WrapDouble(n);
      Halves(-n - 1);
    } else {
      Halves(n);
    }
  }

  lemma {:induction false} WrapDouble(n: int)
    requires -I64 <= n < 0
    ensures (2 * n) % U64 == 2 * n + U64
  {}

  lemma {:induction false} Halves(k: nat)
    ensures (2 * k) % 2 == 0 && (2 * k) / 2 == k && (2 * k + 1) % 2 == 1 && (2 * k + 1) / 2 == k
  {}
}
