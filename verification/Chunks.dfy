/** Packed and unpacked encodings of an array of numbers are interchangeable. */
module Chunks {
  import opened Bytes
  import opened Varints
  import opened Fields
  import opened Encoding
  import opened Decoding
  import opened Folding
  import opened Leaves

  /** A record for a repeated number field: a packed run of any length, or a single element. */
  datatype Chunk = Packed(run: seq<int>) | Single(n: int)
  {
    function Numbers(): seq<int> {
      if Packed? then run else [n]
    }
  }

  function EncRun(kind: Kind, ns: seq<int>): seq<byte>
    requires forall k :: 0 <= k < |ns| ==> IntFits(kind, 8, ns[k])
  {
    if ns == [] then [] else EncNumber(kind, ns[0]) + EncRun(kind, ns[1..])
  }

  predicate NumbersFit(f: Field, ns: seq<int>)
  {
    f.kind.Packable() && forall k :: 0 <= k < |ns| ==>
              IntFits(f.kind, f.entry.dataSize, ns[k]) && IntFits(f.kind, 8, ns[k])
  }

  function Wire(f: Field, c: Chunk): (bs: seq<byte>)
    requires NumbersFit(f, c.Numbers())
    ensures bs != []
  {
    assert c.Single? ==> c.n == c.Numbers()[0];
    match c
    case Packed(run) => EncTag(WT_STRING, f.entry.tag) + Prefixed(EncRun(f.kind, run))
    case Single(n) => EncTagFor(f) + EncNumber(f.kind, n)
  }

  predicate ChunkOk(f: Field, c: Chunk)
  {
    NumbersFit(f, c.Numbers()) && (c.Packed? ==> |EncRun(f.kind, c.run)| < U32)
  }

  function WireAll(f: Field, cs: seq<Chunk>): seq<byte>
    requires forall k :: 0 <= k < |cs| ==> ChunkOk(f, cs[k])
  {
    assert cs != [] ==> ChunkOk(f, cs[0]);
    if cs == [] then [] else Wire(f, cs[0]) + WireAll(f, cs[1..])
  }

  function Numbers(cs: seq<Chunk>): seq<int>
  {
    if cs == [] then [] else cs[0].Numbers() + Numbers(cs[1..])
  }

  function Values(ns: seq<int>): (vs: seq<Value>)
    ensures |vs| == |ns| && forall k :: 0 <= k < |ns| ==> vs[k] == VInt(ns[k])
  {
    seq(|ns|, k requires 0 <= k < |ns| => VInt(ns[k]))
  }

  /** A run is appended as a whole, or fails as a whole if it does not fit in the array. */
  lemma {:induction false} RunDecodes(f: Field, ns: seq<int>, acc: seq<Value>)
    requires NumbersFit(f, ns) && |acc| <= f.entry.arraySize
    ensures DecPacked(f, acc, EncRun(f.kind, ns)) ==
            if |acc| + |ns| <= f.entry.arraySize then Some(acc + Values(ns)) else None
    decreases |ns|
  {
    hide DecNumber, EncNumber;
    if ns == [] {
      assert acc + Values(ns) == acc;
    } else {
      NumberRoundTrip(f, ns[0], EncRun(f.kind, ns[1..]));
      if |acc| < f.entry.arraySize {
        RunDecodes(f, ns[1..], acc + [VInt(ns[0])]);
        assert acc + [VInt(ns[0])] + Values(ns[1..]) == acc + Values(ns);
      }
    }
  }

  /** What a record for the array does: the numbers are appended if there is room for all of them. */
  ghost predicate Appends(f: Field, i: nat, m: Msg, ns: seq<int>, r: Parsed<Msg>, rest: seq<byte>)
    requires i < |m.slots|
  {
    var slot := m.slots[i];
    if |slot.items| + |ns| <= f.entry.arraySize
    then r == Ok(m.Put(i, slot.(items := slot.items + Values(ns))), rest)
    else r.Fail?
  }

  lemma {:induction false} PackedAppends(f: Field, i: nat, run: seq<int>, m: Msg, rest: seq<byte>)
    requires i < |m.slots| && f.entry.rule.Repeated? && ChunkOk(f, Packed(run))
    requires |m.slots[i].items| <= f.entry.arraySize
    ensures Appends(f, i, m, run, DecField(f, i, WT_STRING, m, Prefixed(EncRun(f.kind, run)) + rest), rest)
  {
    hide DecPacked, EncNumber, TakePrefixed, EncRun, DecItem, Prefixed;
    assert Packed(run).Numbers() == run;
    PrefixedRoundTrip(EncRun(f.kind, run), rest);
    RunDecodes(f, run, m.slots[i].items);
  }

  lemma {:induction false} SingleAppends(f: Field, i: nat, n: int, m: Msg, rest: seq<byte>)
    requires i < |m.slots| && f.entry.rule.Repeated? && ChunkOk(f, Single(n)) && IntFits(f.kind, 8, n)
    requires |m.slots[i].items| <= f.entry.arraySize
    ensures Appends(f, i, m, [n], DecField(f, i, WireType(f.kind), m, EncNumber(f.kind, n) + rest), rest)
  {
    hide DecPacked, EncNumber, TakePrefixed, DecNumber;
    assert n == Single(n).Numbers()[0];
    NumberRoundTrip(f, n, rest);
    assert Values([n]) == [VInt(n)];
  }

  /** One record, whatever follows it. */
  lemma {:induction false} ChunkTurn(fields: seq<Field>, i: nat, c: Chunk, st: State, acc: seq<Value>, rest: seq<byte>)
    returns (st': State)
    requires Plain(fields) && i < |fields| == |st.msg.slots| && st.pos < |fields|
    requires fields[i].entry.rule.Repeated? && fields[i].entry.tag < 0x2000_0000 && ChunkOk(fields[i], c)
    requires st.msg.slots[i].items == acc && |acc| <= fields[i].entry.arraySize
    ensures var f, t := fields[i], DecTurn(fields, st, Wire(fields[i], c) + rest);
      if |acc| + |c.Numbers()| <= f.entry.arraySize then t == Go(st', rest) else t == Error
    ensures st'.pos == i && st'.seen == st.seen
    ensures st'.msg == st.msg.Put(i, st.msg.slots[i].(items := acc + Values(c.Numbers())))
  {
    hide DecTurn, DecField, EncTag, EncNumber, EncRun, Prefixed;
    var f := fields[i];
    st' := State(st.msg.Put(i, st.msg.slots[i].(items := acc + Values(c.Numbers()))), st.seen, i);
    if c.Packed? {
      var body := Prefixed(EncRun(f.kind, c.run));
      PackedAppends(f, i, c.run, st.msg, rest);
      TurnFound(fields, st, i, WT_STRING, body + rest);
      assert Wire(f, c) + rest == EncTag(WT_STRING, f.entry.tag) + (body + rest);
    } else {
      assert c.n == c.Numbers()[0];
      var body := EncNumber(f.kind, c.n);
      SingleAppends(f, i, c.n, st.msg, rest);
      TurnFound(fields, st, i, WireType(f.kind), body + rest);
      assert Wire(f, c) + rest == EncTag(WireType(f.kind), f.entry.tag) + (body + rest);
    }
  }

  /** Any split of the same numbers into packed runs and single elements decodes to the same array, as long as
      they fit; one number too many is an error wherever the splits are. */
  lemma {:induction false} SplitIrrelevant(fields: seq<Field>, i: nat, cs: seq<Chunk>, st: State, acc: seq<Value>)
    returns (st': State)
    requires Plain(fields) && i < |fields| == |st.msg.slots| && st.pos < |fields|
    requires fields[i].entry.rule.Repeated? && fields[i].entry.tag < 0x2000_0000
    requires forall k :: 0 <= k < |cs| ==> ChunkOk(fields[i], cs[k])
    requires st.msg.slots[i].items == acc && |acc| <= fields[i].entry.arraySize
    ensures st'.seen == st.seen && st'.pos < |fields|
    ensures st'.msg == st.msg.Put(i, st.msg.slots[i].(items := acc + Values(Numbers(cs))))
    ensures if |acc| + |Numbers(cs)| <= fields[i].entry.arraySize
            then Runs(fields, st, WireAll(fields[i], cs), st')
            else DecLoop(fields, st, WireAll(fields[i], cs)) == Failed
    decreases |cs|
  {
    hide DecTurn, Wire, ChunkOk;
    var f := fields[i];
    if cs == [] {
      st' := st;
      assert acc + Values([]) == acc;
      assert st.msg.slots[i := st.msg.slots[i]] == st.msg.slots;
    } else {
      var rest := WireAll(f, cs[1..]);
      var ns := cs[0].Numbers();
      var st1 := ChunkTurn(fields, i, cs[0], st, acc, rest);
      assert acc + Values(Numbers(cs)) == acc + Values(ns) + Values(Numbers(cs[1..]));
      assert WireAll(f, cs) != [];
      if |acc| + |ns| <= f.entry.arraySize {
        st' := SplitIrrelevant(fields, i, cs[1..], st1, acc + Values(ns));
      } else {
        st' := State(st.msg.Put(i, st.msg.slots[i].(items := acc + Values(Numbers(cs)))), st.seen, st.pos);
      }
    }
  }
}
