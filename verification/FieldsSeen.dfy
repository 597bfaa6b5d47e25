/** The bitset of required fields that pb_decode_noinit has seen (fields_seen). */
module FieldsSeen {
  import opened Bits
  import opened Fields

  const ALL_BITS: nat := 0xFFFF_FFFF

  class Seen {
    const words: array<nat>
    /** The set that the words stand for. */
    ghost var members: set<nat>

    ghost predicate Valid()
      reads this, words
    {
      && words.Length == (PB_MAX_REQUIRED_FIELDS + 31) / 32
      && (forall w :: 0 <= w < words.Length ==> words[w] < Pow2(32))
      && (forall k :: k in members ==> k < PB_MAX_REQUIRED_FIELDS)
      && (forall k: nat :: k < PB_MAX_REQUIRED_FIELDS ==> (k in members <==> HasBit(k)))
    }

    ghost predicate HasBit(k: nat)
      requires words.Length == 2 && k < 64
      reads words
    {
      Bit(words[k / 32], k % 32)
    }

    constructor ()
      ensures Valid() && fresh(words) && members == {}
    {
      words := new nat[2](_ => 0);
      members := {};
      new;
      forall k: nat | k < 64
        ensures !HasBit(k)
      {
        ZeroBit(k % 32);
      }
    }

    /** fields_seen[index >> 5] |= 1 << (index & 31) */
    method Mark(index: nat)
      requires Valid() && index < PB_MAX_REQUIRED_FIELDS
      modifies this, words
      ensures Valid() && members == old(members) + {index}
    {
      var w, b := index / 32, index % 32;
      hide Bit, BitOr, Pow2, Shl;
      ghost var was := words[w];
      OrBound(words[w], Shl(1, b, 32), 32);
      words[w] := BitOr(words[w], Shl(1, b, 32));
      members := members + {index};
      forall k: nat | k < PB_MAX_REQUIRED_FIELDS
        ensures k in members <==> HasBit(k)
      {
        assert k in old(members) <==> old(HasBit(k));
        OneBit(was, b, k % 32);
        assert k == index <==> k / 32 == w && k % 32 == b;
      }
    }

    /** The check of the whole words and of the remaining bits: exactly when each of the first count required
        fields was seen does it pass. It never looks beyond the last word. */
    method AllSet(count: nat) returns (r: bool)
      requires Valid() && count <= PB_MAX_REQUIRED_FIELDS && (forall k :: k in members ==> k < count)
      ensures r <==> forall k :: 0 <= k < count ==> k in members
    {
      hide Bit, Pow2;
      var i := 0;
      while i < count / 32
        invariant i <= count / 32
        invariant forall k :: 0 <= k < 32 * i ==> k in members
      {
        WordFull(i, 32);
        if words[i] != ALL_BITS {
          return false;
        }
        i := i + 1;
      }
      if count % 32 != 0 {
        WordFull(i, count % 32);
        if words[i] != ALL_BITS / Pow2(32 - count % 32) {
          return false;
        }
      }
      return true;
    }

    /** A word with no bit from n on equals n ones exactly when its first n members are there. */
    lemma {:induction false} WordFull(w: nat, n: nat)
      requires Valid() && w < 2 && n <= 32
      requires forall k :: k in members ==> k < 32 * w + n || 32 * (w + 1) <= k
      ensures words[w] == ALL_BITS / Pow2(32 - n) <==> forall k :: 32 * w <= k < 32 * w + n ==> k in members
      ensures ALL_BITS / Pow2(0) == ALL_BITS
    {
      hide Bit, HasBit;
      Ones(n);
      Full(w, n);
    }

    lemma {:induction false} Full(w: nat, n: nat)
      requires Valid() && w < 2 && n <= 32
      requires forall k :: k in members ==> k < 32 * w + n || 32 * (w + 1) <= k
      ensures words[w] == Pow2(n) - 1 <==> forall k :: 32 * w <= k < 32 * w + n ==> k in members
    {
      hide Bit, Pow2;
      if forall k :: 32 * w <= k < 32 * w + n ==> k in members {
        AllThere(w, n);
      }
      if words[w] == Pow2(n) - 1 {
        forall k | 32 * w <= k < 32 * w + n
          ensures k in members
        {
          OnesBit(n, k - 32 * w);
          Member(w, k - 32 * w);
        }
      }
    }

    lemma {:induction false} AllThere(w: nat, n: nat)
      requires Valid() && w < 2 && n <= 32
      requires forall k :: 32 * w <= k < 32 * (w + 1) ==> (k in members <==> k < 32 * w + n)
      ensures words[w] == Pow2(n) - 1
    {
      hide Bit, Pow2;
      var all := Pow2(n) - 1;
      Pow2Mono(n, 32);
      forall j: nat | j < 32
        ensures Bit(words[w], j) <==> Bit(all, j)
      {
        OnesBit(n, j);
        Member(w, j);
      }
      BitExt(words[w], all, 32);
    }

    lemma {:induction false} Member(w: nat, j: nat)
      requires Valid() && w < 2 && j < 32
      ensures Bit(words[w], j) <==> 32 * w + j in members
    {
      assert (32 * w + j) / 32 == w && (32 * w + j) % 32 == j;
      assert HasBit(32 * w + j) <==> 32 * w + j in members;
    }
  }

  lemma {:induction false} OneBit(w: nat, b: nat, j: nat)
    requires b < 32
    ensures Bit(BitOr(w, Shl(1, b, 32)), j) <==> Bit(w, j) || j == b
  {
    OrBit(w, Shl(1, b, 32), j);
    ShlBit(1, b, 32, j);
    if j >= b {
      OnlyBitOfOne(j - b);
    }
  }

  lemma {:induction false} OnlyBitOfOne(j: nat)
    ensures Bit(1, j) <==> j == 0
  {
    Pow2Bit(0, j);
  }

  /** allbits >> (32 - n) is n ones. */
  lemma {:induction false} Ones(n: nat)
    requires n <= 32
    ensures ALL_BITS / Pow2(32 - n) == Pow2(n) - 1
  {
    WordSizes();
    Pow2Add(n, 32 - n);
    Quotient(Pow2(n), Pow2(32 - n));
  }

  lemma {:induction false} Quotient(p: nat, q: nat)
    requires q > 0 && p > 0
    ensures (p * q - 1) / q == p - 1
  {
    assert p * q - 1 == (p - 1) * q + (q - 1);
    ModUnique(p * q - 1, q, p - 1, q - 1);
  }
}
