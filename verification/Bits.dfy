/** Bitwise operators of the C sources, defined on natural numbers one bit at a time. */
module Bits {

  function Pow2(n: nat): (r: nat)
    ensures r >= 1
  {
    if n == 0 then 1 else 2 * Pow2(n - 1)
  }

  /** True iff bit i of w is set. */
  predicate Bit(w: nat, i: nat)
  {
    if i == 0 then w % 2 == 1 else Bit(w / 2, i - 1)
  }

  function BitOr(a: nat, b: nat): nat
  {
    if a == 0 then b
    else if b == 0 then a
    else (if a % 2 == 1 || b % 2 == 1 then 1 else 0) + 2 * BitOr(a / 2, b / 2)
  }

  function BitAnd(a: nat, b: nat): nat
  {
    if a == 0 || b == 0 then 0
    else (if a % 2 == 1 && b % 2 == 1 then 1 else 0) + 2 * BitAnd(a / 2, b / 2)
  }

  /** Complement of w in a word of n bits. */
  function BitNot(w: nat, n: nat): nat
    requires w < Pow2(n)
  {
    Pow2(n) - 1 - w
  }

  /** Left shift in a word of n bits: what is shifted out is lost. */
  function Shl(a: nat, k: nat, n: nat): (r: nat)
    ensures r < Pow2(n)
  {
    (a * Pow2(k)) % Pow2(n)
  }

  lemma {:induction false} ZeroBit(i: nat)
    ensures !Bit(0, i)
  {
    if i > 0 { ZeroBit(i - 1); }
  }

  lemma {:induction false} OrBit(a: nat, b: nat, i: nat)
    ensures Bit(BitOr(a, b), i) <==> Bit(a, i) || Bit(b, i)
  {
    if a == 0 || b == 0 {
      ZeroBit(i);
    } else if i > 0 {
      OrBit(a / 2, b / 2, i - 1);
    }
  }

  lemma {:induction false} AndBit(a: nat, b: nat, i: nat)
    ensures Bit(BitAnd(a, b), i) <==> Bit(a, i) && Bit(b, i)
  {
    if a == 0 || b == 0 {
      ZeroBit(i);
    } else if i > 0 {
      AndBit(a / 2, b / 2, i - 1);
    }
  }

  lemma {:induction false} Pow2Bit(k: nat, i: nat)
    ensures Bit(Pow2(k), i) <==> i == k
  {
    if k == 0 {
      if i > 0 { ZeroBit(i - 1); }
    } else if i > 0 {
      Pow2Bit(k - 1, i - 1);
    }
  }

  /** Pow2(n) - 1 has exactly the bits below n. */
  lemma {:induction false} OnesBit(n: nat, i: nat)
    ensures Bit(Pow2(n) - 1, i) <==> i < n
  {
    if n == 0 {
      ZeroBit(i);
    } else if i > 0 {
      assert (Pow2(n) - 1) / 2 == Pow2(n - 1) - 1;
      OnesBit(n - 1, i - 1);
    }
  }

  lemma {:induction false} NotBit(w: nat, n: nat, i: nat)
    requires w < Pow2(n)
    ensures Bit(BitNot(w, n), i) <==> i < n && !Bit(w, i)
  {
    if n == 0 {
      ZeroBit(i);
    } else {
      HalfNot(w, Pow2(n - 1));
      if i > 0 { NotBit(w / 2, n - 1, i - 1); }
    }
  }

  lemma {:induction false} HalfNot(w: nat, p: nat)
    requires w < 2 * p
    ensures (2 * p - 1 - w) / 2 == p - 1 - w / 2 && ((2 * p - 1 - w) % 2 == 1 <==> w % 2 != 1)
  {
    var h := w / 2;
    assert w == 2 * h || w == 2 * h + 1;
  }

  lemma {:induction false} OrBound(a: nat, b: nat, n: nat)
    requires a < Pow2(n) && b < Pow2(n)
    ensures BitOr(a, b) < Pow2(n)
  {
    if a != 0 && b != 0 {
      OrBound(a / 2, b / 2, n - 1);
    }
  }

  /** Where the operands share no bit, `|` is `+`. */
  lemma {:induction false} OrDisjoint(a: nat, b: nat, p: nat)
    requires a < Pow2(p)
    ensures BitOr(a, b * Pow2(p)) == a + b * Pow2(p)
  {
    if p > 0 && a != 0 && b != 0 {
      assert b * Pow2(p) == 2 * (b * Pow2(p - 1));
      assert b * Pow2(p - 1) >= 1;
      OrDisjoint(a / 2, b, p - 1);
    }
  }

  lemma {:induction false} DoubleBit(a: nat, i: nat)
    ensures Bit(2 * a, i) <==> i > 0 && Bit(a, i - 1)
  {
    if i > 0 { assert (2 * a) / 2 == a; }
  }

  lemma {:induction false} ModBit(a: nat, n: nat, i: nat)
    ensures Bit(a % Pow2(n), i) <==> i < n && Bit(a, i)
  {
    if n == 0 {
      assert a % 1 == 0;
      ZeroBit(i);
    } else {
      var m := Pow2(n - 1);
      var q, r := (a / 2) / m, (a / 2) % m;
      assert a / 2 == q * m + r;
      assert a == q * Pow2(n) + (2 * r + a % 2) by {
        assert q * Pow2(n) == 2 * (q * m);
      }
      ModUnique(a, Pow2(n), q, 2 * r + a % 2);
      if i > 0 { ModBit(a / 2, n - 1, i - 1); }
    }
  }

  lemma {:induction false} ModUnique(a: nat, n: nat, q: nat, r: nat)
    requires n > 0 && a == q * n + r && r < n
    ensures a % n == r && a / n == q
  {
    DivModUnique(n, q, r, a / n, a % n);
  }

  lemma {:induction false} DivModUnique(n: nat, q: int, r: nat, q': int, r': nat)
    requires r < n && r' < n && q * n + r == q' * n + r'
    ensures q == q' && r == r'
  {
    if q > q' {
      MulGap(n, q, q');
    } else if q < q' {
      MulGap(n, q', q);
    }
  }

  lemma {:induction false} MulGap(n: nat, q: int, q': int)
    requires q > q'
    ensures q * n >= q' * n + n
  {
    assert (q - q' - 1) * n >= 0;
  }

  lemma {:induction false} ScaleBit(a: nat, k: nat, i: nat)
    ensures Bit(a * Pow2(k), i) <==> i >= k && Bit(a, i - k)
  {
    if k > 0 {
      assert a * Pow2(k) == 2 * (a * Pow2(k - 1));
      DoubleBit(a * Pow2(k - 1), i);
      if i > 0 { ScaleBit(a, k - 1, i - 1); }
    }
  }

  lemma {:induction false} ShlBit(a: nat, k: nat, n: nat, i: nat)
    ensures Bit(Shl(a, k, n), i) <==> k <= i < n && Bit(a, i - k)
  {
    ModBit(a * Pow2(k), n, i);
    ScaleBit(a, k, i);
  }

  /** Words are equal when their bits are. */
  lemma {:induction false} BitExt(a: nat, b: nat, n: nat)
    requires a < Pow2(n) && b < Pow2(n)
    requires forall i: nat | i < n :: Bit(a, i) <==> Bit(b, i)
    ensures a == b
  {
    if n > 0 {
      assert Bit(a, 0) <==> Bit(b, 0);
      forall i: nat | i < n - 1
        ensures Bit(a / 2, i) <==> Bit(b / 2, i)
      {
        assert Bit(a, i + 1) <==> Bit(b, i + 1);
      }
      BitExt(a / 2, b / 2, n - 1);
    }
  }

  /** The bits of low + 2^n * high: those of low, then those of high. */
  lemma {:induction false} JoinBit(low: nat, high: nat, n: nat, i: nat)
    requires low < Pow2(n)
    ensures Bit(low + Pow2(n) * high, i) <==> if i < n then Bit(low, i) else Bit(high, i - n)
  {
    if n > 0 {
      var w := low + Pow2(n) * high;
      assert Pow2(n) * high == 2 * (Pow2(n - 1) * high);
      assert w / 2 == low / 2 + Pow2(n - 1) * high && w % 2 == low % 2;
      if i > 0 { JoinBit(low / 2, high, n - 1, i - 1); }
    }
  }

  lemma {:induction false} Pow2Add(a: nat, b: nat)
    ensures Pow2(a + b) == Pow2(a) * Pow2(b)
  {
    if a > 0 { Pow2Add(a - 1, b); }
  }

  lemma {:induction false} Pow2Mono(a: nat, b: nat)
    requires a <= b
    ensures Pow2(a) <= Pow2(b)
  {
    if a < b { Pow2Mono(a, b - 1); }
  }

  lemma {:induction false} WordSizes()
    ensures Pow2(3) == 8 && Pow2(6) == 64 && Pow2(7) == 128 && Pow2(8) == 0x100 && Pow2(16) == 0x1_0000
    ensures Pow2(32) == 0x1_0000_0000 && Pow2(64) == 0x1_0000_0000_0000_0000
  {
    assert Pow2(4) == 16 && Pow2(8) == 16 * Pow2(4);
    Pow2Add(8, 8);
    Pow2Add(16, 16);
    Pow2Add(32, 32);
  }
}
