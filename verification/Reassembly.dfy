/** Reassembly of a DTLS handshake message from its fragments (d1_both.cc; section 4.2.3 of RFC 6347). */
module Reassembly {
  import opened Bits
  import opened Bytes
  import opened DtlsWire

  // ---- Reference: what is known of a message in terms of the bytes received ----

  /** A message of which the bytes in covered have arrived; epochs are those of the records that it was made by and
      that bytes were taken from. */
  datatype Partial = Partial(typ: byte, seqNo: nat, epochs: set<nat>, bytes: seq<byte>, covered: set<nat>)
  {
    predicate Complete() {
      forall j :: 0 <= j < |bytes| ==> j in covered
    }
  }

  function Range(lo: nat, hi: nat): (r: set<nat>)
    ensures forall j: nat :: j in r <==> lo <= j < hi
  {
    if lo >= hi then {} else Range(lo, hi - 1) + {hi - 1}
  }

  /** More bytes of the message, from a record of the given epoch. */
  function Take(p: Partial, off: nat, body: seq<byte>, epoch: nat): (r: Partial)
    requires off + |body| <= |p.bytes|
    ensures |r.bytes| == |p.bytes|
  {
    p.(bytes := p.bytes[..off] + body + p.bytes[off + |body|..], covered := p.covered + Range(off, off + |body|),
       epochs := p.epochs + {epoch})
  }

  // ---- The bit mask ----

  /** bit_range: bits start, inclusive, to end, exclusive. */
  function BitRange(start: nat, end: nat): (r: nat)
    requires start <= 8 && end <= 8
    ensures r < 0x100
  {
    WordSizes();
    Pow2Mono(start, 8);
    Pow2Mono(8, 32);
    BitAnd(BitNot(Pow2(start) - 1, 32), Pow2(end) - 1) % 0x100
  }

  lemma {:induction false} BitRangeBits(start: nat, end: nat, i: nat)
    requires start <= 8 && end <= 8
    ensures Bit(BitRange(start, end), i) <==> start <= i < end
  {
    hide Bit, BitAnd, BitNot, Pow2;
    WordSizes();
    Pow2Mono(start, 8);
    Pow2Mono(8, 32);
    var low := BitNot(Pow2(start) - 1, 32);
    ModBit(BitAnd(low, Pow2(end) - 1), 8, i);
    AndBit(low, Pow2(end) - 1, i);
    OnesBit(end, i);
    OnesBit(start, i);
    NotBit(Pow2(start) - 1, 32, i);
  }

  /** Bit j of a mask of bytes. */
  predicate MaskBit(mask: seq<byte>, j: nat)
    requires j / 8 < |mask|
  {
    Bit(mask[j / 8], j % 8)
  }

  /** Byte i of the mask with a range of bits added. */
  lemma {:induction false} OrByte(b: byte, lo: nat, hi: nat, k: nat)
    requires lo <= 8 && hi <= 8
    ensures BitOr(b, BitRange(lo, hi)) < 0x100
    ensures Bit(BitOr(b, BitRange(lo, hi)), k) <==> Bit(b, k) || lo <= k < hi
  {
    hide Bit, BitOr, BitRange;
    WordSizes();
    OrBound(b, BitRange(lo, hi), 8);
    OrBit(b, BitRange(lo, hi), k);
    BitRangeBits(lo, hi, k);
  }

  /** Of the bits of a byte, the first n and no others are set. */
  ghost predicate LowBits(b: byte, n: nat)
  {
    forall k: nat :: k < 8 ==> (Bit(b, k) <==> k < n)
  }

  lemma {:induction false} FullByte(b: byte, n: nat)
    requires n <= 8
    ensures b == BitRange(0, n) <==> LowBits(b, n)
    ensures BitRange(0, 8) == 0xFF
  {
    hide Bit, BitRange, Pow2;
    WordSizes();
    LowRange(n);
    LowRange(8);
    assert LowBits(0xFF, 8) by {
      forall k: nat | k < 8 ensures Bit(0xFF, k) { OnesBit(8, k); }
    }
    BitExt(BitRange(0, 8), 0xFF, 8);
    if LowBits(b, n) {
      BitExt(b, BitRange(0, n), 8);
    }
  }

  lemma {:induction false} LowRange(n: nat)
    requires n <= 8
    ensures LowBits(BitRange(0, n), n)
  {
    hide Bit, BitRange;
    forall k: nat | k < 8
      ensures Bit(BitRange(0, n), k) <==> k < n
    {
      BitRangeBits(0, n, k);
    }
  }

  /** The header of a message in one piece. */
  function WholeHeader(typ: byte, msgLen: nat, seqNo: nat): (h: seq<byte>)
    ensures |h| == HM_HEADER_LENGTH
  {
    BigEndian(typ, 1) + BigEndian(msgLen, 3) + BigEndian(seqNo, 2) + BigEndian(0, 3) + BigEndian(msgLen, 3)
  }

  lemma {:induction false} WholeBytes(typ: byte, body: seq<byte>, seqNo: nat)
    ensures WholeHeader(typ, |body|, seqNo) + body == FragmentBytes(Fragment(typ, |body|, seqNo, 0, body))
  {
    hide BigEndian;
    var l := BigEndian(|body|, 3);
    var o, q, t := BigEndian(0, 3), BigEndian(seqNo, 2), BigEndian(typ, 1);
    assert t + l + q + o + l + body == t + (l + (q + (o + (l + body))));
  }

  /** hm_fragment: a message being put together. */
  class HmFragment {
    const typ: byte
    const seqNo: nat
    const msgLen: nat
    const data: array<byte>
    /** One bit per byte of the message; null once all are set. */
    var reassembly: array?<byte>
    /** The bytes that fragments have covered, and the epochs of the records they came in. */
    ghost var covered: set<nat>
    ghost var epochs: set<nat>
    ghost const Repr: set<object>

    ghost predicate Valid()
      reads this, Repr
    {
      && this in Repr && data in Repr && data.Length == HM_HEADER_LENGTH + msgLen
      && (forall j :: j in covered ==> j < msgLen)
      && data[..HM_HEADER_LENGTH] == WholeHeader(typ, msgLen, seqNo)
      && (reassembly == null <==> Now().Complete())
      && (reassembly != null ==>
            && reassembly in Repr && reassembly != data && reassembly.Length == (msgLen + 7) / 8
            && forall j: nat :: j < 8 * reassembly.Length ==> (MaskBit(reassembly[..], j) <==> j in covered))
    }

    ghost function Now(): Partial
      requires data.Length == HM_HEADER_LENGTH + msgLen
      reads this, data
    {
      Partial(typ, seqNo, epochs, data[HM_HEADER_LENGTH..], covered)
    }

    /** dtls1_hm_fragment_new */
    constructor (f: Fragment, ghost inEpoch: nat)
      requires f.Fits()
      ensures Valid() && fresh(Repr) && typ == f.typ && seqNo == f.seqNo && msgLen == f.msgLen && epochs == {inEpoch}
      ensures covered == {} && (reassembly == null <==> f.msgLen == 0)
      ensures data[HM_HEADER_LENGTH..] == seq(f.msgLen, _ => 0)
    {
      typ, seqNo, msgLen, epochs := f.typ, f.seqNo, f.msgLen, {inEpoch};
      var header := WholeHeader(f.typ, f.msgLen, f.seqNo);
      var d := new byte[HM_HEADER_LENGTH + f.msgLen](i => if 0 <= i < 12 then header[i] else 0);
      data := d;
      covered := {};
      if f.msgLen > 0 {
        var mask := new byte[(f.msgLen + 7) / 8](_ => 0);
        reassembly := mask;
        Repr := {this, d, mask};
      } else {
        reassembly := null;
        Repr := {this, d};
      }
      new;
      assert data[..HM_HEADER_LENGTH] == header;
      assert data[HM_HEADER_LENGTH..] == seq(f.msgLen, _ => 0);
      if reassembly != null {
        assert 0 !in covered;
        forall j: nat | j < 8 * reassembly.Length
          ensures !MaskBit(reassembly[..], j)
        {
          ZeroBit(j % 8);
        }
      }
    }

    /** dtls1_hm_fragment_mark. */
    method Mark(start: nat, end: nat)
      requires Valid() && reassembly != null && start <= end <= msgLen
      modifies this`reassembly, this`covered, reassembly
      ensures Valid() && covered == old(covered) + Range(start, end)
      ensures reassembly == null || reassembly == old(reassembly)
    {
      if start == end {
        assert Range(start, end) == {};
        return;
      }
      SetRange(start, end);
      covered := covered + Range(start, end);
      var complete := Check();
      if complete {
        reassembly := null;
      }
    }

    /** The part that sets the bits. */
    method SetRange(start: nat, end: nat)
      requires reassembly != null && reassembly.Length == (msgLen + 7) / 8 && start < end <= msgLen
      modifies reassembly
      ensures forall j: nat :: j < 8 * reassembly.Length ==>
                (MaskBit(reassembly[..], j) <==> MaskBit(old(reassembly[..]), j) || start <= j < end)
    {
      hide Bit, BitOr, BitRange;
      ghost var was := reassembly[..];
      var first, last := start / 8, end / 8;
      if first == last {
        OrByte(reassembly[first], start % 8, end % 8, 0);
        reassembly[first] := BitOr(reassembly[first], BitRange(start % 8, end % 8));
        SetWithin(was, reassembly[..], start, end);
        return;
      }
      OrByte(reassembly[first], start % 8, 8, 0);
      reassembly[first] := BitOr(reassembly[first], BitRange(start % 8, 8));
      var i := first + 1;
      while i < last
        invariant first < i <= last
        invariant forall k :: 0 <= k < |was| && k != first && !(first < k < i) ==> reassembly[k] == was[k]
        invariant reassembly[first] == BitOr(was[first], BitRange(start % 8, 8))
        invariant forall k :: first < k < i ==> reassembly[k] == 0xFF
      {
        reassembly[i] := 0xFF;
        i := i + 1;
      }
      if end % 8 != 0 {
        OrByte(reassembly[last], 0, end % 8, 0);
        reassembly[last] := BitOr(reassembly[last], BitRange(0, end % 8));
      }
      SetAcross(was, reassembly[..], start, end);
    }

    /** The part that looks whether every byte has arrived. */
    method Check() returns (complete: bool)
      requires reassembly != null && reassembly.Length == (msgLen + 7) / 8
      requires forall j :: j in covered ==> j < msgLen
      requires forall j: nat :: j < 8 * reassembly.Length ==> (MaskBit(reassembly[..], j) <==> j in covered)
      ensures complete <==> forall j :: 0 <= j < msgLen ==> j in covered
    {
      hide Bit, BitRange;
      var i := 0;
      while i < msgLen / 8
        invariant i <= msgLen / 8
        invariant forall j :: 0 <= j < 8 * i ==> j in covered
      {
        ByteCovered(i, 8);
        if reassembly[i] != 0xFF {
          return false;
        }
        i := i + 1;
      }
      if msgLen % 8 != 0 {
        ByteCovered(i, msgLen % 8);
        if reassembly[i] != BitRange(0, msgLen % 8) {
          return false;
        }
      }
      return true;
    }

    /** Byte i of the mask, of which only the first n bits are in use. */
    lemma {:induction false} ByteCovered(i: nat, n: nat)
      requires reassembly != null && i < reassembly.Length && n <= 8
      requires forall j: nat :: j < 8 * reassembly.Length ==> (MaskBit(reassembly[..], j) <==> j in covered)
      requires forall j :: j in covered ==> j < 8 * i + n || j >= 8 * i + 8
      ensures reassembly[i] == BitRange(0, n) <==> forall j :: 8 * i <= j < 8 * i + n ==> j in covered
      ensures BitRange(0, 8) == 0xFF
    {
      hide Bit, BitRange;
      FullByte(reassembly[i], n);
      forall k: nat | k < 8
        ensures Bit(reassembly[i], k) <==> 8 * i + k in covered
      {
        assert (8 * i + k) / 8 == i && (8 * i + k) % 8 == k;
        assert MaskBit(reassembly[..], 8 * i + k) <==> 8 * i + k in covered;
      }
      if forall j :: 8 * i <= j < 8 * i + n ==> j in covered {
        assert LowBits(reassembly[i], n);
      }
      if reassembly[i] == BitRange(0, n) {
        forall j | 8 * i <= j < 8 * i + n
          ensures j in covered
        {
          assert Bit(reassembly[i], j - 8 * i);
        }
      }
    }

    /** The memcpy into the message. */
    method CopyBody(off: nat, body: seq<byte>)
      requires data.Length == HM_HEADER_LENGTH + msgLen && off + |body| <= msgLen
      modifies data
      ensures data[..HM_HEADER_LENGTH] == old(data[..HM_HEADER_LENGTH])
      ensures var was := old(data[HM_HEADER_LENGTH..]);
        data[HM_HEADER_LENGTH..] == was[..off] + body + was[off + |body|..]
    {
      ghost var was := data[..];
      var i, at := 0, HM_HEADER_LENGTH + off;
      while i < |body|
        invariant i <= |body|
        invariant forall k :: 0 <= k < i ==> data[at + k] == body[k]
        invariant forall k :: 0 <= k < data.Length && !(at <= k < at + i) ==> data[k] == was[k]
      {
        data[at + i] := body[i];
        i := i + 1;
      }
      assert was[HM_HEADER_LENGTH..] == old(data[HM_HEADER_LENGTH..]);
      assert data[HM_HEADER_LENGTH..][..off] == was[HM_HEADER_LENGTH..][..off];
    }

    /** What dtls1_open_handshake does with a fragment for this message: nothing once it is complete, so that
        its data no longer changes; else copy the body in and mark it. */
    method Add(off: nat, body: seq<byte>, ghost epoch: nat)
      requires Valid() && off + |body| <= msgLen
      modifies Repr
      ensures Valid() && (reassembly == null || reassembly == old(reassembly))
      ensures Now() == if old(Now()).Complete() then old(Now()) else Take(old(Now()), off, body, epoch)
    {
      if reassembly == null {
        return;
      }
      ghost var was := Now();
      CopyBody(off, body);
      Mark(off, off + |body|);
      epochs := epochs + {epoch};
    }
  }

  lemma {:induction false} SetWithin(was: seq<byte>, now: seq<byte>, start: nat, end: nat)
    requires start < end && start / 8 == end / 8 < |was| == |now|
    requires now == was[start / 8 := now[start / 8]]
    requires now[start / 8] == BitOr(was[start / 8], BitRange(start % 8, end % 8))
    ensures forall j: nat :: j < 8 * |was| ==> (MaskBit(now, j) <==> MaskBit(was, j) || start <= j < end)
  {
    hide Bit, BitOr, BitRange;
    forall j: nat | j < 8 * |was|
      ensures MaskBit(now, j) <==> MaskBit(was, j) || start <= j < end
    {
      OrByte(was[start / 8], start % 8, end % 8, j % 8);
    }
  }

  lemma {:induction false} SetAcross(was: seq<byte>, now: seq<byte>, start: nat, end: nat)
    requires start < end <= 8 * |was| && |was| == |now| && start / 8 < end / 8
    requires now[start / 8] == BitOr(was[start / 8], BitRange(start % 8, 8))
    requires forall k :: start / 8 < k < end / 8 ==> now[k] == 0xFF
    requires end % 8 != 0 ==> now[end / 8] == BitOr(was[end / 8], BitRange(0, end % 8))
    requires forall k :: 0 <= k < |was| && (k < start / 8 || k > end / 8 || (k == end / 8 && end % 8 == 0)) ==>
              now[k] == was[k]
    ensures forall j: nat :: j < 8 * |was| ==> (MaskBit(now, j) <==> MaskBit(was, j) || start <= j < end)
  {
    hide Bit, BitOr, BitRange;
    forall j: nat | j < 8 * |was|
      ensures MaskBit(now, j) <==> MaskBit(was, j) || start <= j < end
    {
      OrByte(was[start / 8], start % 8, 8, j % 8);
      if end % 8 != 0 { OrByte(was[end / 8], 0, end % 8, j % 8); }
      WordSizes();
      OnesBit(8, j % 8);
    }
  }

  // ---- Any sequence of fragments ----

  /** A fragment of a message of the given length: where it starts and what it holds. */
  datatype Piece = Piece(off: nat, body: seq<byte>)

  ghost predicate Covers(pieces: seq<Piece>, j: nat)
  {
    exists i :: 0 <= i < |pieces| && pieces[i].off <= j < pieces[i].off + |pieces[i].body|
  }

  ghost predicate OfBody(pieces: seq<Piece>, body: seq<byte>)
  {
    forall i :: 0 <= i < |pieces| ==> pieces[i].off + |pieces[i].body| <= |body| &&
                                      pieces[i].body == body[pieces[i].off..pieces[i].off + |pieces[i].body|]
  }

  /** What has been covered, until the message is complete, is what the pieces cover. */
  ghost predicate Tracks(p: Partial, pieces: seq<Piece>)
  {
    && (forall j :: j in p.covered ==> Covers(pieces, j))
    && (!p.Complete() ==> forall j: nat :: Covers(pieces, j) ==> j in p.covered)
  }

  /** Whatever in-bounds pieces arrive, in whatever order, overlapping or repeated: the message is complete
      exactly when every byte was covered, and pieces of one body then give that body. */
  method Assemble(header: Fragment, pieces: seq<Piece>, ghost body: seq<byte>)
    returns (complete: bool, bytes: seq<byte>)
    requires header.Fits() && |body| == header.msgLen
    requires forall i :: 0 <= i < |pieces| ==> pieces[i].off + |pieces[i].body| <= header.msgLen
    ensures complete <==> forall j: nat :: j < header.msgLen ==> Covers(pieces, j)
    ensures complete && OfBody(pieces, body) ==> bytes == body
  {
    hide Bit, MaskBit, Range, WholeHeader, Covers, Tracks, Take, Shows;
    var frag := new HmFragment(header, 0);
    TracksNothing(frag.Now(), body);
    assert pieces[..0] == [];
    var n := 0;
    while n < |pieces|
      invariant n <= |pieces| && frag.Valid() && fresh(frag.Repr) && frag.msgLen == header.msgLen
      invariant Tracks(frag.Now(), pieces[..n])
      invariant OfBody(pieces, body) ==> Shows(frag.Now(), body)
    {
      ghost var was := frag.Now();
      assert |was.bytes| == header.msgLen;
      frag.Add(pieces[n].off, pieces[n].body, 0);
      TracksNext(was, pieces, n, 0);
      if OfBody(pieces, body) { TakeShows(was, pieces[n].off, pieces[n].body, 0, body); }
      n := n + 1;
    }
    assert pieces[..n] == pieces;
    complete := frag.reassembly == null;
    bytes := frag.data[HM_HEADER_LENGTH..];
    TracksAll(frag.Now(), pieces, body);
  }

  lemma {:induction false} TracksNothing(p: Partial, body: seq<byte>)
    requires p.covered == {} && |p.bytes| == |body|
    ensures Tracks(p, []) && Shows(p, body)
  {}

  lemma {:induction false} TracksNext(p: Partial, pieces: seq<Piece>, n: nat, epoch: nat)
    requires n < |pieces| && pieces[n].off + |pieces[n].body| <= |p.bytes| && Tracks(p, pieces[..n])
    ensures Tracks(if p.Complete() then p else Take(p, pieces[n].off, pieces[n].body, epoch), pieces[..n + 1])
  {
    hide Covers;
    CoversSnoc(pieces, n);
  }

  lemma {:induction false} TracksAll(p: Partial, pieces: seq<Piece>, body: seq<byte>)
    requires Tracks(p, pieces) && |p.bytes| == |body|
    ensures p.Complete() <==> forall j: nat :: j < |body| ==> Covers(pieces, j)
    ensures p.Complete() && Shows(p, body) ==> p.bytes == body
  {
    hide Covers;
  }

  lemma {:induction false} CoversSnoc(pieces: seq<Piece>, n: nat)
    requires n < |pieces|
    ensures forall j: nat ::
              Covers(pieces[..n + 1], j) <==>
                        Covers(pieces[..n], j) || pieces[n].off <= j < pieces[n].off + |pieces[n].body|
  {
    forall j: nat
      ensures Covers(pieces[..n + 1], j) <==>
                Covers(pieces[..n], j) || pieces[n].off <= j < pieces[n].off + |pieces[n].body|
    {
      var a, b := pieces[..n], pieces[..n + 1];
      if Covers(a, j) {
        var i :| 0 <= i < |a| && a[i].off <= j < a[i].off + |a[i].body|;
        assert b[i] == a[i];
      }
      if Covers(b, j) && !(pieces[n].off <= j < pieces[n].off + |pieces[n].body|) {
        var i :| 0 <= i < |b| && b[i].off <= j < b[i].off + |b[i].body|;
        assert a[i] == b[i];
      }
      assert b[n] == pieces[n];
    }
  }

  /** The bytes that have arrived are those of the body. */
  ghost predicate Shows(p: Partial, body: seq<byte>)
  {
    |p.bytes| == |body| && forall j :: j in p.covered && j < |body| ==> p.bytes[j] == body[j]
  }

  lemma {:induction false} TakeShows(p: Partial, off: nat, part: seq<byte>, epoch: nat, body: seq<byte>)
    requires Shows(p, body) && off + |part| <= |body| && part == body[off..off + |part|]
    ensures Shows(Take(p, off, part, epoch), body)
  {}
}
