/** Input streams over a buffer and their substreams (pb_istream_t). */
module InStream {
  import opened Bits
  import opened Bytes
  import opened Varints

  class IStream {
    const data: seq<byte>
    var state: nat
    var bytesLeft: nat

    ghost predicate Valid()
      reads this
    {
      state + bytesLeft <= |data|
    }

    /** The bytes that can still be read. */
    ghost function Rest(): (r: seq<byte>)
      requires Valid()
      reads this
      ensures |r| == bytesLeft
    {
      data[state..state + bytesLeft]
    }

    /** pb_istream_from_buffer */
    constructor (bytes: seq<byte>)
      ensures Valid() && data == bytes && state == 0 && bytesLeft == |bytes| && Rest() == bytes
    {
      data, state, bytesLeft := bytes, 0, |bytes|;
    }

    /** A substream: a copy of a stream, with its own number of bytes. */
    constructor Sub(bytes: seq<byte>, at: nat, size: nat)
      requires at + size <= |bytes|
      ensures Valid() && data == bytes && state == at && bytesLeft == size
    {
      data, state, bytesLeft := bytes, at, size;
    }

    /** pb_read; the bytes read are the result. A null buffer is the same without the copy. */
    method Read(count: nat) returns (ok: bool, bytes: seq<byte>)
      requires Valid()
      modifies this
      ensures Valid() && Advanced(old(state), old(bytesLeft))
      ensures ok <==> count <= old(bytesLeft)
      ensures ok ==> bytes == old(Rest())[..count] && Rest() == old(Rest())[count..]
    {
      if bytesLeft < count {
        return false, [];
      }
      bytes := data[state..state + count];
      state := state + count;
      bytesLeft := bytesLeft - count;
      ok := true;
    }

    /** pb_readbyte */
    method ReadByte() returns (ok: bool, b: byte)
      requires Valid()
      modifies this
      ensures Valid() && Advanced(old(state), old(bytesLeft))
      ensures ok <==> old(bytesLeft) > 0
      ensures ok ==> old(Rest()) == [b] + Rest() && bytesLeft == old(bytesLeft) - 1
      ensures !ok ==> Rest() == old(Rest())
    {
      if bytesLeft == 0 {
        return false, 0;
      }
      b := data[state];
      state := state + 1;
      bytesLeft := bytesLeft - 1;
      ok := true;
    }

    /** The stream has only moved forward, and its end is where it was. */
    ghost predicate Advanced(state0: nat, left0: nat)
      reads this
    {
      state0 <= state && state + bytesLeft == state0 + left0
    }

    /** pb_decode_varint32_eof */
    method DecodeVarint32() returns (ok: bool, dest: nat)
      requires Valid()
      modifies this
      ensures Valid() && Advanced(old(state), old(bytesLeft))
      ensures ok <==> DecVarint32(old(Rest())).Ok?
      ensures ok ==> DecVarint32(old(Rest())) == Ok(dest, Rest())
    {
      hide Merge32;
      var b: byte;
      ok, b := ReadByte();
      if !ok {
        return false, 0;
      }
      if b < 0x80 {
        return true, b;
      }
      ghost var all := Rest();
      ghost var first: nat := b % 128;
      var bitpos: nat, result: nat, more := 7, b % 128, true;
      while more
        invariant Valid() && Advanced(old(state), old(bytesLeft)) && result < U32 && bitpos < 256
        invariant more ==> Varint32Tail(first, 7, all) == Varint32Tail(result, bitpos, Rest())
        invariant !more ==> Varint32Tail(first, 7, all)
                            == if bitpos == 35 && (b / 16) % 8 != 0 then Fail else Ok(result, Rest())
        decreases more, bytesLeft
      {
        ghost var was := Rest();
        ok, b := ReadByte();
        if !ok {
          return false, 0;
        }
        assert was[1..] == Rest();
        if bitpos >= 32 {
          var signExtension := if bitpos < 63 then 0xFF else 0x01;
          if b % 128 != 0 && (result < I32 || b != signExtension) {
            return false, 0;
          }
        } else {
          result := Merge32(result, b % 128, bitpos);
        }
        bitpos := (bitpos + 7) % 256;
        more := b >= 0x80;
      }
      if bitpos == 35 && (b / 16) % 8 != 0 {
        return false, 0;
      }
      return true, result;
    }

    /** pb_decode_varint */
    method DecodeVarint() returns (ok: bool, dest: nat)
      requires Valid()
      modifies this
      ensures Valid() && Advanced(old(state), old(bytesLeft))
      ensures ok <==> DecVarint(old(Rest())).Ok?
      ensures ok ==> DecVarint(old(Rest())) == Ok(dest, Rest())
    {
      hide VarintValue, VarintEnd, BitOr, Shl;
      ghost var all := Rest();
      ghost var n := 0;
      var bitpos: nat, result: nat, more := 0, 0, true;
      NoValue(all[..0]);
      var b: byte;
      while more
        invariant Valid() && Advanced(old(state), old(bytesLeft))
        invariant n <= 10 && bitpos == 7 * n && n <= |all| && Rest() == all[n..]
        invariant more ==> Continues(all, n)
        invariant !more ==> n > 0 && Continues(all, n - 1) && all[n - 1] < 128
        invariant result == VarintValue(all[..n]) % U64
        decreases more, bytesLeft
      {
        if bitpos >= 64 {
          NoEnd(all, n);
          return false, 0;
        }
        ok, b := ReadByte();
        if !ok {
          NoEnd(all, n);
          return false, 0;
        }
        MergeSeptet(all, n);
        result := BitOr(result, Shl(b % 128, bitpos, 64));
        bitpos := (bitpos + 7) % 256;
        more := b >= 0x80;
        n := n + 1;
      }
      EndAt(all, n);
      return true, result;
    }
  }

  /** The first n bytes have the continuation bit. */
  ghost predicate Continues(bs: seq<byte>, n: nat)
  {
    n <= |bs| && forall k :: 0 <= k < n ==> bs[k] >= 128
  }

  lemma {:induction false} NoEnd(bs: seq<byte>, n: nat)
    requires Continues(bs, n)
    ensures VarintEnd(bs).Some? ==> VarintEnd(bs).value > n
    ensures n == |bs| ==> VarintEnd(bs).None?
  {
    if n > 0 {
      assert forall k :: 0 <= k < n - 1 ==> bs[1..][k] == bs[k + 1];
      NoEnd(bs[1..], n - 1);
    }
  }

  lemma {:induction false} EndAt(bs: seq<byte>, n: nat)
    requires 0 < n <= |bs| && Continues(bs, n - 1) && bs[n - 1] < 128
    ensures VarintEnd(bs) == Some(n)
  {
    if n > 1 {
      assert bs[0] >= 128;
      assert forall k :: 0 <= k < n - 2 ==> bs[1..][k] == bs[k + 1];
      EndAt(bs[1..], n - 1);
    }
  }

  lemma {:induction false} NoValue(g: seq<byte>)
    requires g == []
    ensures VarintValue(g) == 0
  {}

  lemma {:induction false} ValueSnoc(g: seq<byte>, b: byte)
    ensures VarintValue(g + [b]) == VarintValue(g) + (b % 128) * Pow128(|g|)
    ensures VarintValue(g) < Pow128(|g|)
  {
    if g == [] {
      assert [b][1..] == [] && g + [b] == [b];
    } else {
      assert (g + [b])[1..] == g[1..] + [b];
      ValueSnoc(g[1..], b);
      Distribute(VarintValue(g[1..]), Pow128(|g| - 1), b % 128);
    }
  }

  lemma {:induction false} Distribute(x: nat, p: nat, s: nat)
    ensures 128 * (x + s * p) == 128 * x + s * (128 * p)
  {}

  /** The next septet, shifted in. */
  lemma {:induction false} MergeSeptet(all: seq<byte>, n: nat)
    requires n < |all| && n < 10
    ensures VarintValue(all[..n + 1]) % U64 == BitOr(VarintValue(all[..n]) % U64, Shl(all[n] % 128, 7 * n, 64))
  {
    hide VarintValue, Pow128, Pow2, BitOr;
    var x, s := VarintValue(all[..n]), all[n] % 128;
    assert all[..n + 1] == all[..n] + [all[n]];
    ValueSnoc(all[..n], all[n]);
    Pow128IsPow2(n);
    Pow2Mono(7 * n, 63);
    Pow2Add(7 * n, 64 - 7 * n);
    Pow2Add(63, 1);
    WordSizes();
    SmallMod(x, U64);
    ShiftMerge(x, s, Pow2(7 * n), Pow2(64 - 7 * n));
    OrDisjoint(x, s % Pow2(64 - 7 * n), 7 * n);
  }

  lemma {:induction false} Regroup(s: nat, h: nat, l: nat, p: nat, q: nat)
    requires s == h * q + l
    ensures s * p == h * (p * q) + l * p
  {
    assert h * q * p == h * (q * p);
  }

  /** Modulo p * q: the low part stays, and of s the part below q counts. */
  lemma {:induction false} ShiftMerge(x: nat, s: nat, p: nat, q: nat)
    requires x < p && q > 0
    ensures (x + s * p) % (p * q) == x + (s % q) * p && (s * p) % (p * q) == (s % q) * p
  {
    Regroup(s, s / q, s % q, p, q);
    assert x + (s % q) * p < p * q by { MulGap(p, q, s % q); }
    ShiftMod(x, s * p, (s % q) * p, p * q, s / q);
  }

  lemma {:induction false} ShiftMod(x: nat, sp: nat, lp: nat, pq: nat, h: nat)
    requires x + lp < pq && sp == h * pq + lp
    ensures (x + sp) % pq == x + lp && sp % pq == lp
  {
    ModUnique(sp, pq, h, lp);
    ModUnique(x + sp, pq, h, x + lp);
  }
}
