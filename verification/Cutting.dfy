/** How a flight is cut into fragments: in order, without gap or overlap. */
module Cutting {
  import opened Bytes

  /** How far a flight has been written: whole messages, and bytes of the next one. */
  datatype Pos = Pos(written: nat, offset: nat)
  {
    /** Lexicographic order. */
    predicate Before(p: Pos) {
      written < p.written || (written == p.written && offset < p.offset)
    }
  }

  /** Bytes off up to off + len of the body of message index. */
  datatype Cut = Cut(index: nat, off: nat, len: nat)

  /** The position after a cut; bodies are those of the flight, empty for ChangeCipherSpec. */
  function Next(bodies: seq<seq<byte>>, c: Cut): Pos
    requires c.index < |bodies|
  {
    if c.off + c.len == |bodies[c.index]| then Pos(c.index + 1, 0) else Pos(c.index, c.off + c.len)
  }

  /** The cuts lead from one position to the other: each starts where the one before it ended, and none is empty
      unless the message ends there. */
  ghost predicate Leads(bodies: seq<seq<byte>>, from: Pos, cuts: seq<Cut>, to: Pos)
  {
    if cuts == [] then from == to
    else
      var c := cuts[|cuts| - 1];
      && c.index < |bodies| && c.off + c.len <= |bodies[c.index]| && (c.len > 0 || c.off + c.len == |bodies[c.index]|)
      && Leads(bodies, from, cuts[..|cuts| - 1], Pos(c.index, c.off)) && to == Next(bodies, c)
  }

  lemma {:induction false} LeadsMore(bodies: seq<seq<byte>>, from: Pos, cuts: seq<Cut>, to: Pos, c: Cut)
    requires Leads(bodies, from, cuts, to) && c.index == to.written < |bodies|
    requires c.off == to.offset && c.off + c.len <= |bodies[c.index]|
    requires (c.len > 0 || c.off + c.len == |bodies[c.index]|)
    ensures Leads(bodies, from, cuts + [c], Next(bodies, c))
  {
    assert (cuts + [c])[..|cuts|] == cuts;
  }

  lemma {:induction false} LeadsConcat(bodies: seq<seq<byte>>, a: Pos, first: seq<Cut>, b: Pos, second: seq<Cut>,
                                       c: Pos)
    requires Leads(bodies, a, first, b) && Leads(bodies, b, second, c)
    ensures Leads(bodies, a, first + second, c)
    decreases |second|
  {
    if second == [] {
      assert first + second == first;
    } else {
      var last := second[|second| - 1];
      LeadsConcat(bodies, a, first, b, second[..|second| - 1], Pos(last.index, last.off));
      assert (first + second)[..|first + second| - 1] == first + second[..|second| - 1];
    }
  }

  /** Where the flight is cut, what was sent of message i, put together in the order it was sent. */
  function Collected(bodies: seq<seq<byte>>, cuts: seq<Cut>, i: nat): seq<byte>
    requires i < |bodies|
  {
    if cuts == [] then []
    else
      var c := cuts[|cuts| - 1];
      Collected(bodies, cuts[..|cuts| - 1], i) +
        if c.index == i && c.off + c.len <= |bodies[i]| then bodies[i][c.off..c.off + c.len] else []
  }

  /** What has been sent of message i at a position. */
  function Part(bodies: seq<seq<byte>>, p: Pos, i: nat): seq<byte>
    requires i < |bodies|
  {
    if i < p.written then bodies[i]
    else if i == p.written && p.offset <= |bodies[i]| then bodies[i][..p.offset]
    else []
  }

  /** Cuts that lead from the start to a position have sent exactly what the position says: of every message the
      fragments partition its body, in order. At the end of the flight that is all of it. */
  lemma {:induction false} CutsPartition(bodies: seq<seq<byte>>, cuts: seq<Cut>, to: Pos, i: nat)
    requires Leads(bodies, Pos(0, 0), cuts, to) && i < |bodies|
    ensures Collected(bodies, cuts, i) == Part(bodies, to, i)
    ensures to == Pos(|bodies|, 0) ==> Collected(bodies, cuts, i) == bodies[i]
    decreases |cuts|
  {
    if cuts != [] {
      var c := cuts[|cuts| - 1];
      CutsPartition(bodies, cuts[..|cuts| - 1], Pos(c.index, c.off), i);
      if c.index == i {
        NextSlice(bodies[i], c.off, c.off + c.len);
      }
    }
  }

  lemma {:induction false} NextSlice(s: seq<byte>, a: nat, b: nat)
    requires a <= b <= |s|
    ensures s[..a] + s[a..b] == s[..b] && (b == |s| ==> s[..b] == s)
  {}

  /** The first cut starts at the position, and the others lead on from behind it. */
  lemma {:induction false} LeadsFront(bodies: seq<seq<byte>>, from: Pos, cuts: seq<Cut>, to: Pos)
    requires Leads(bodies, from, cuts, to) && cuts != []
    ensures var c := cuts[0];
      && c.index == from.written < |bodies| && c.off == from.offset && c.off + c.len <= |bodies[c.index]|
      && (c.len > 0 || c.off + c.len == |bodies[c.index]|) && Leads(bodies, Next(bodies, c), cuts[1..], to)
    decreases |cuts|
  {
    var n := |cuts| - 1;
    var last := cuts[n];
    if n == 0 {
      assert cuts[..n] == [] && cuts[1..] == [];
    } else {
      LeadsFront(bodies, from, cuts[..n], Pos(last.index, last.off));
      assert cuts[..n][1..] == cuts[1..][..n - 1];
    }
  }

  // ---- How many cuts there can be ----

  /** The bytes of the bodies, and one more for each. */
  function Weight(bodies: seq<seq<byte>>): nat
  {
    if bodies == [] then 0 else Weight(bodies[..|bodies| - 1]) + |bodies[|bodies| - 1]| + 1
  }

  /** What of the weight is before a position. */
  function Spent(bodies: seq<seq<byte>>, p: Pos): nat
    requires p.written <= |bodies|
  {
    Weight(bodies[..p.written]) + p.offset
  }

  /** Behind a cut more of the weight is spent. */
  lemma {:induction false} Spends(bodies: seq<seq<byte>>, from: Pos, to: Pos)
    requires from.written < |bodies| && from.offset <= |bodies[from.written]|
    requires to == Pos(from.written + 1, 0) ||
            (to.written == from.written && from.offset < to.offset <= |bodies[from.written]|)
    ensures Spent(bodies, from) < Spent(bodies, to) <= Weight(bodies)
  {
    assert bodies[..from.written + 1][..from.written] == bodies[..from.written];
    WeightUpto(bodies, from.written + 1);
  }

  /** A later position has more of the weight before it. */
  lemma {:induction false} SpentBefore(bodies: seq<seq<byte>>, a: Pos, b: Pos)
    requires a.Before(b) && b.written <= |bodies| && (a.written < |bodies| ==> a.offset <= |bodies[a.written]|)
    ensures Spent(bodies, a) < Spent(bodies, b)
  {
    if a.written < b.written {
      assert bodies[..a.written + 1][..a.written] == bodies[..a.written];
      WeightUpto(bodies[..b.written], a.written + 1);
      assert bodies[..b.written][..a.written + 1] == bodies[..a.written + 1];
    }
  }

  lemma {:induction false} SpentMost(bodies: seq<seq<byte>>, p: Pos)
    requires if p.written < |bodies| then p.offset <= |bodies[p.written]| else p == Pos(|bodies|, 0)
    ensures Spent(bodies, p) <= Weight(bodies)
  {
    if p.written < |bodies| {
      assert bodies[..p.written + 1][..p.written] == bodies[..p.written];
      WeightUpto(bodies, p.written + 1);
    } else {
      assert bodies[..|bodies|] == bodies;
    }
  }

  lemma {:induction false} WeightUpto(bodies: seq<seq<byte>>, n: nat)
    requires n <= |bodies|
    ensures Weight(bodies[..n]) <= Weight(bodies)
    decreases |bodies|
  {
    if n == |bodies| {
      assert bodies[..n] == bodies;
    } else {
      var k := |bodies| - 1;
      WeightUpto(bodies[..k], n);
      assert bodies[..k][..n] == bodies[..n];
    }
  }

  lemma {:induction false} WeightBound(bodies: seq<seq<byte>>, limit: nat)
    requires forall i :: 0 <= i < |bodies| ==> |bodies[i]| < limit
    ensures Weight(bodies) <= |bodies| * limit
  {
    if bodies != [] {
      WeightBound(bodies[..|bodies| - 1], limit);
    }
  }
}
