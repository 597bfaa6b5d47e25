/** The sliding window against replayed records (dtls_record.cc; section 4.1.2.6 of RFC 6347). */
module Replay {
  import opened Bits
  import opened Bytes

  /** sizeof(bitmap->map) * 8 */
  const WINDOW_SIZE: nat := 64

  const MAX64: nat := 0x1_0000_0000_0000_0000

  /** What the window is for: n was recorded, or is 64 or more below something that was. */
  ghost predicate Stale(recorded: set<nat>, n: nat)
  {
    n in recorded || exists r :: r in recorded && n + WINDOW_SIZE <= r
  }

  class Bitmap {
    var window: nat
    var maxSeqNum: nat
    /** Everything recorded since the window was last cleared. */
    ghost var recorded: set<nat>

    ghost predicate Valid()
      reads this
    {
      && window < Pow2(WINDOW_SIZE) && maxSeqNum < MAX64
      && (recorded == {} ==> maxSeqNum == 0)
      && (recorded != {} ==> maxSeqNum in recorded)
      && (forall r :: r in recorded ==> r <= maxSeqNum)
      && Shows(window, maxSeqNum, recorded)
    }

    constructor ()
      ensures Valid() && recorded == {}
    {
      window, maxSeqNum, recorded := 0, 0, {};
      new;
      forall i: nat ensures !Bit(window, i) { ZeroBit(i); }
    }

    /** The memset that a change of the read state does. */
    method Clear()
      modifies this
      ensures Valid() && recorded == {}
    {
      window, maxSeqNum, recorded := 0, 0, {};
      forall i: nat ensures !Bit(window, i) { ZeroBit(i); }
    }

    /** dtls1_bitmap_should_discard */
    method ShouldDiscard(seqNum: nat) returns (discard: bool)
      requires Valid() && seqNum < MAX64
      ensures discard <==> Stale(recorded, seqNum)
      ensures discard <==> seqNum in recorded || exists r :: r in recorded && seqNum + 64 <= r
    {
      if seqNum > maxSeqNum {
        return false;
      }
      var idx := maxSeqNum - seqNum;
      if idx >= WINDOW_SIZE {
        return true;
      }
      discard := BitAnd(window, Shl(1, idx, WINDOW_SIZE)) != 0;
      TestBit(window, idx, WINDOW_SIZE);
      assert Bit(window, idx) <==> maxSeqNum - idx in recorded;
    }

    /** dtls1_bitmap_record. A number that is already out of the window leaves no trace in it. */
    method Record(seqNum: nat)
      requires Valid() && seqNum < MAX64
      modifies this
      ensures Valid() && recorded == old(recorded) + {seqNum}
    {
      hide Bit, Shl, BitOr, Shows;
      if seqNum > maxSeqNum {
        SlideShows(window, maxSeqNum, recorded, seqNum);
        var shift := seqNum - maxSeqNum;
        window := if shift >= WINDOW_SIZE then 0 else Shl(window, shift, WINDOW_SIZE);
        maxSeqNum := seqNum;
      }
      MarkShows(window, maxSeqNum, recorded, seqNum);
      var idx := maxSeqNum - seqNum;
      if idx < WINDOW_SIZE {
        OrBound(window, Shl(1, idx, WINDOW_SIZE), WINDOW_SIZE);
        window := BitOr(window, Shl(1, idx, WINDOW_SIZE));
      }
      recorded := recorded + {seqNum};
    }
  }

  /** Bit i of the window is the number i below the highest. */
  ghost predicate Shows(window: nat, highest: nat, recorded: set<nat>)
  {
    forall i: nat :: Bit(window, i) <==> i < WINDOW_SIZE && i <= highest && highest - i in recorded
  }

  lemma {:induction false} SlideShows(window: nat, highest: nat, recorded: set<nat>, n: nat)
    requires Shows(window, highest, recorded) && n > highest && (forall r :: r in recorded ==> r <= highest)
    ensures var d := n - highest;
      Shows(if d >= WINDOW_SIZE then 0 else Shl(window, d, WINDOW_SIZE), n, recorded)
  {
    hide Bit, Shl;
    var d := n - highest;
    var window' := if d >= WINDOW_SIZE then 0 else Shl(window, d, WINDOW_SIZE);
    forall i: nat
      ensures Bit(window', i) <==> i < WINDOW_SIZE && i <= n && n - i in recorded
    {
      ZeroBit(i);
      if d < WINDOW_SIZE { ShlBit(window, d, WINDOW_SIZE, i); }
      if i >= d {
        assert Bit(window, i - d) <==> i - d < WINDOW_SIZE && i - d <= highest && highest - (i - d) in recorded;
      }
    }
  }

  lemma {:induction false} MarkShows(window: nat, highest: nat, recorded: set<nat>, n: nat)
    requires Shows(window, highest, recorded) && n <= highest
    ensures var idx := highest - n;
      Shows(if idx < WINDOW_SIZE then BitOr(window, Shl(1, idx, WINDOW_SIZE)) else window, highest, recorded + {n})
  {
    hide Bit, Shl, BitOr;
    var idx := highest - n;
    var window' := if idx < WINDOW_SIZE then BitOr(window, Shl(1, idx, WINDOW_SIZE)) else window;
    forall i: nat
      ensures Bit(window', i) <==> i < WINDOW_SIZE && i <= highest && highest - i in recorded + {n}
    {
      SetOneBit(window, idx, i);
      assert Bit(window, i) <==> i < WINDOW_SIZE && i <= highest && highest - i in recorded;
    }
  }

  lemma {:induction false} SetOneBit(w: nat, idx: nat, i: nat)
    ensures idx < WINDOW_SIZE ==> (Bit(BitOr(w, Shl(1, idx, WINDOW_SIZE)), i) <==> Bit(w, i) || i == idx)
  {
    if idx < WINDOW_SIZE {
      OrBit(w, Shl(1, idx, WINDOW_SIZE), i);
      ShlBit(1, idx, WINDOW_SIZE, i);
      if i >= idx { Pow2Bit(0, i - idx); }
    }
  }

  /** w & (1 << idx) */
  lemma {:induction false} TestBit(w: nat, idx: nat, n: nat)
    requires idx < n
    ensures BitAnd(w, Shl(1, idx, n)) != 0 <==> Bit(w, idx)
  {
    var one := Shl(1, idx, n);
    var r := BitAnd(w, one);
    forall i: nat
      ensures Bit(r, i) <==> i == idx && Bit(w, idx)
    {
      AndBit(w, one, i);
      ShlBit(1, idx, n, i);
      if i >= idx { Pow2Bit(0, i - idx); }
    }
    ZeroBit(idx);
    if r != 0 {
      var i := SomeBit(r);
    }
  }

  lemma {:induction false} SomeBit(w: nat) returns (i: nat)
    requires w > 0
    ensures Bit(w, i)
  {
    if w % 2 == 1 {
      i := 0;
    } else {
      var j := SomeBit(w / 2);
      i := j + 1;
    }
  }

  /** The loop of to_u64_be. */
  method ToU64(bytes: seq<byte>) returns (v: nat)
    requires |bytes| == 8
    ensures v == FromBigEndian(bytes) && v < MAX64
  {
    v := 0;
    var i := 0;
    while i < 8
      invariant i <= 8 && v == FromBigEndian(bytes[..i])
    {
      assert bytes[..i + 1][..i] == bytes[..i];
      v := 256 * v + bytes[i];
      i := i + 1;
    }
    assert bytes[..8] == bytes;
    Pow256s();
  }
}
