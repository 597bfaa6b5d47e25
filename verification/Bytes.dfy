/** Bytes, optional values, readers, and integers in network byte order. */
module Bytes {

  type byte = x: int | 0 <= x < 0x100

  datatype Option<+T> = None | Some(value: T)

  /** What a reader makes of a byte sequence: failure, or a value and the bytes it left. */
  datatype Parsed<+T> = Fail | Ok(value: T, rest: seq<byte>)

  function Pow256(n: nat): (r: nat)
    ensures r >= 1
  {
    if n == 0 then 1 else 256 * Pow256(n - 1)
  }

  /** The low n bytes of v, most significant first. */
  function BigEndian(v: nat, n: nat): (r: seq<byte>)
    ensures |r| == n
  {
    if n == 0 then [] else BigEndian(v / 256, n - 1) + [v % 256]
  }

  function FromBigEndian(bs: seq<byte>): (v: nat)
    ensures v < Pow256(|bs|)
  {
    if bs == [] then 0 else 256 * FromBigEndian(bs[..|bs| - 1]) + bs[|bs| - 1]
  }

  lemma {:induction false} BigEndianInverse(v: nat, n: nat)
    requires v < Pow256(n)
    ensures FromBigEndian(BigEndian(v, n)) == v
  {
    if n > 0 {
      BigEndianInverse(v / 256, n - 1);
      assert BigEndian(v, n)[..n - 1] == BigEndian(v / 256, n - 1);
    }
  }

  /** Two integers one behind the other are one integer. */
  lemma {:induction false} FromBigEndianConcat(a: seq<byte>, b: seq<byte>)
    ensures FromBigEndian(a + b) == FromBigEndian(a) * Pow256(|b|) + FromBigEndian(b)
    decreases |b|
  {
    if b == [] {
      assert a + b == a;
    } else {
      var c, d := b[..|b| - 1], b[|b| - 1];
      assert (a + b)[..|a + b| - 1] == a + c;
      FromBigEndianConcat(a, c);
      Shift(FromBigEndian(a), Pow256(|c|), FromBigEndian(c), d);
    }
  }

  lemma {:induction false} Shift(x: nat, p: nat, y: nat, d: nat)
    ensures 256 * (x * p + y) + d == x * (256 * p) + (256 * y + d)
  {}

  /** Reads an n-byte integer. */
  function GetUint(bs: seq<byte>, n: nat): (r: Parsed<nat>)
    ensures r.Ok? <==> |bs| >= n
    ensures r.Ok? ==> r.value < Pow256(n) && r.rest == bs[n..]
  {
    if |bs| < n then Fail else Ok(FromBigEndian(bs[..n]), bs[n..])
  }

  lemma {:induction false} GetPut(v: nat, n: nat, rest: seq<byte>)
    requires v < Pow256(n)
    ensures GetUint(BigEndian(v, n) + rest, n) == Ok(v, rest)
  {
    BigEndianInverse(v, n);
    var bs := BigEndian(v, n) + rest;
    assert bs[..n] == BigEndian(v, n) && bs[n..] == rest;
  }

  lemma {:induction false} Pow256s()
    ensures Pow256(1) == 0x100 && Pow256(2) == 0x1_0000 && Pow256(3) == 0x100_0000
    ensures Pow256(6) == 0x1_0000_0000_0000 && Pow256(8) == 0x1_0000_0000_0000_0000
  {
    assert Pow256(4) == 256 * Pow256(3) && Pow256(6) == 256 * 256 * Pow256(4);
    assert Pow256(3) == 256 * Pow256(2) && Pow256(8) == 256 * 256 * Pow256(6);
  }
}
