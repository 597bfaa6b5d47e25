/** Decoding is a fold over the records of the input. */
module Folding {
  import opened Bytes
  import opened Varints
  import opened Fields
  import opened Encoding
  import opened FieldIter
  import opened Decoding

  /** r with more bytes behind those it left. */
  function Before<T>(r: Parsed<T>, b: seq<byte>): Parsed<T>
  {
    if r.Fail? then Fail else Ok(r.value, r.rest + b)
  }

  // ---- What succeeds does not look at the bytes behind ----

  lemma {:induction false} TakePrefixedExtend(a: seq<byte>, b: seq<byte>)
    requires TakePrefixed(a).Ok?
    ensures TakePrefixed(a + b) == Before(TakePrefixed(a), b)
  {
    hide DecVarint32;
    Varint32Extend(a, b);
    var n, rest := DecVarint32(a).value, DecVarint32(a).rest;
    assert (rest + b)[..n] == rest[..n] && (rest + b)[n..] == rest[n..] + b;
  }

  lemma {:induction false} DecNumberExtend(f: Field, a: seq<byte>, b: seq<byte>)
    requires f.kind.Packable() && DecNumber(f, a).Ok?
    ensures DecNumber(f, a + b) == Before(DecNumber(f, a), b)
  {
    if f.kind.Fixed32? || f.kind.Fixed64? {
      var n := if f.kind.Fixed32? then 4 else 8;
      assert (a + b)[..n] == a[..n] && (a + b)[n..] == a[n..] + b;
    } else {
      VarintExtend(a, b);
    }
  }

  lemma {:induction false} DecBlobExtend(f: Field, a: seq<byte>, b: seq<byte>)
    requires f.kind.Bytes? || f.kind.String? || f.kind.FixedBytes?
    requires DecBlob(f, a).Ok?
    ensures DecBlob(f, a + b) == Before(DecBlob(f, a), b)
  {
    hide DecVarint32, ZeroValue;
    Varint32Extend(a, b);
    var n, rest := DecVarint32(a).value, DecVarint32(a).rest;
    if n <= |rest| {
      assert (rest + b)[..n] == rest[..n] && (rest + b)[n..] == rest[n..] + b;
    }
  }

  lemma {:induction false} SkipExtend(wireType: nat, a: seq<byte>, b: seq<byte>)
    requires Skip(wireType, a).Ok?
    ensures Skip(wireType, a + b) == Before(Skip(wireType, a), b)
  {
    if wireType == WT_VARINT {
      VarintEndExtend(a, b);
      var n := VarintEnd(a).value;
      assert (a + b)[n..] == a[n..] + b;
    } else if wireType == WT_64BIT {
      assert (a + b)[8..] == a[8..] + b;
    } else if wireType == WT_STRING {
      TakePrefixedExtend(a, b);
    } else {
      assert (a + b)[4..] == a[4..] + b;
    }
  }

  lemma {:induction false} DecItemExtend(f: Field, dest: Value, a: seq<byte>, b: seq<byte>)
    requires DecItem(f, dest, a).Ok?
    ensures DecItem(f, dest, a + b) == Before(DecItem(f, dest, a), b)
  {
    if f.kind.Packable() {
      DecNumberExtend(f, a, b);
    } else if !f.kind.Message? {
      DecBlobExtend(f, a, b);
    } else {
      TakePrefixedExtend(a, b);
    }
  }

  lemma {:induction false} DecFieldExtend(f: Field, i: nat, wireType: nat, m: Msg, a: seq<byte>, b: seq<byte>)
    requires DecField(f, i, wireType, m, a).Ok?
    ensures DecField(f, i, wireType, m, a + b) == Before(DecField(f, i, wireType, m, a), b)
  {
    var slot := m.SlotAt(i);
    if f.entry.rule.Repeated? && wireType == WT_STRING && f.kind.Packable() {
      TakePrefixedExtend(a, b);
    } else {
      var dest := if f.entry.rule.Repeated? then VInt(0)
                  else if !f.entry.rule.Oneof? then slot.Item()
                  else if f.kind.Message? then VMsg(Default(f.kind.sub)) else VInt(0);
      DecItemExtend(f, dest, a, b);
    }
  }

  function GoBefore(t: Turn, b: seq<byte>): Turn
  {
    match t
    case Error => Error
    case Stop(rest) => Stop(rest + b)
    case Go(st, rest) => Go(st, rest + b)
  }

  lemma {:induction false} DecTurnExtend(fields: seq<Field>, st: State, a: seq<byte>, b: seq<byte>)
    requires fields != [] ==> st.pos < |fields|
    requires !DecTurn(fields, st, a).Error?
    ensures DecTurn(fields, st, a + b) == GoBefore(DecTurn(fields, st, a), b)
  {
    Varint32Extend(a, b);
    var key, rest := DecVarint32(a).value, DecVarint32(a).rest;
    var tag, wireType := key / 8, key % 8;
    if key != 0 {
      var found := if fields == [] then None else FindFrom(Entries(fields), st.pos, tag, |fields|);
      if found.None? {
        SkipExtend(wireType, rest, b);
      } else {
        DecFieldExtend(fields[found.value], found.value, wireType, st.msg, rest, b);
      }
    }
  }

  /** A submessage that decodes consumes exactly its length prefix and as many bytes as it says, whether or not its
      content uses them all. */
  lemma {:induction false} SubmessageExtent(f: Field, dest: Value, bs: seq<byte>, tail: seq<byte>)
    requires f.kind.Message? && DecItem(f, dest, bs).Ok?
    ensures DecVarint32(bs).Ok? && DecVarint32(bs).rest[DecVarint32(bs).value..] == DecItem(f, dest, bs).rest
    ensures DecItem(f, dest, bs + tail) == Ok(DecItem(f, dest, bs).value, DecItem(f, dest, bs).rest + tail)
  {
    hide DecVarint32, DecMsg;
    DecItemExtend(f, dest, bs, tail);
  }

  // ---- Runs ----

  predicate InList(fields: seq<Field>, st: State)
  {
    fields != [] ==> st.pos < |fields|
  }

  /** The loop consumes all of a, record by record, and goes from st to st'. */
  predicate Runs(fields: seq<Field>, st: State, a: seq<byte>, st': State)
    requires InList(fields, st)
  {
    DecLoop(fields, st, a) == Done(st', [], false)
  }

  /** A run over a can be continued over whatever follows. */
  lemma {:induction false} RunThen(fields: seq<Field>, st: State, a: seq<byte>, st': State, b: seq<byte>)
    requires InList(fields, st) && Runs(fields, st, a, st')
    ensures InList(fields, st') && DecLoop(fields, st, a + b) == DecLoop(fields, st', b)
    decreases |a|
  {
    hide DecTurn;
    if a == [] {
      assert a + b == b;
    } else {
      var t := DecTurn(fields, st, a);
      DecTurnExtend(fields, st, a, b);
      RunThen(fields, t.state, t.rest, st', b);
    }
  }

  /** A single record is a run. */
  lemma {:induction false} RunOne(fields: seq<Field>, st: State, a: seq<byte>, st': State)
    requires InList(fields, st) && a != [] && DecTurn(fields, st, a) == Go(st', [])
    ensures InList(fields, st') && Runs(fields, st, a, st')
  {
    hide DecTurn;
    assert DecLoop(fields, st', []) == Done(st', [], false);
  }

  lemma {:induction false} RunsCompose(fields: seq<Field>, st: State, a: seq<byte>, st1: State, b: seq<byte>,
                                       st2: State)
    requires InList(fields, st) && Runs(fields, st, a, st1) && InList(fields, st1) && Runs(fields, st1, b, st2)
    ensures Runs(fields, st, a + b, st2)
  {
    RunThen(fields, st, a, st1, b);
  }

  // ---- pb_decode_noinit as a fold ----

  ghost predicate Plain(fields: seq<Field>)
  {
    && DistinctTags(Entries(fields))
    && forall i :: 0 <= i < |fields| ==> !fields[i].entry.extension
  }

  lemma {:induction false} FindSame(fields: seq<Field>, pos1: nat, pos2: nat, tag: nat)
    requires Plain(fields) && pos1 < |fields| && pos2 < |fields|
    ensures FindFrom(Entries(fields), pos1, tag, |fields|) == FindFrom(Entries(fields), pos2, tag, |fields|)
  {
    var es := Entries(fields);
    var r1, r2 := FindFrom(es, pos1, tag, |fields|), FindFrom(es, pos2, tag, |fields|);
    if r1.Some? {
      FindFromAnywhere(es, pos2, r1.value);
    } else if r2.Some? {
      FindFromAnywhere(es, pos1, r2.value);
    }
  }

  lemma {:induction false} TurnForgets(fields: seq<Field>, st1: State, st2: State, bs: seq<byte>)
    requires Plain(fields) && InList(fields, st1) && InList(fields, st2) && st1.msg == st2.msg
    ensures var t1, t2 := DecTurn(fields, st1, bs), DecTurn(fields, st2, bs);
      && (t1.Error? <==> t2.Error?) && (t1.Stop? ==> t2 == t1)
      && (t1.Go? ==>
            && t2.Go? && t1.state.msg == t2.state.msg && t1.rest == t2.rest
            && st1.seen <= t1.state.seen && st2.seen <= t2.state.seen
            && t1.state.seen - st1.seen <= t2.state.seen)
  {
    hide DecField, Skip, DecVarint32;
    if fields != [] && DecVarint32(bs).Ok? {
      FindSame(fields, st1.pos, st2.pos, DecVarint32(bs).value / 8);
    }
  }

  /** Where the iterator stands and what was seen before have no bearing on what a run does to the structure. */
  lemma {:induction false} LoopForgets(fields: seq<Field>, st1: State, st2: State, bs: seq<byte>)
    requires Plain(fields) && InList(fields, st1) && InList(fields, st2) && st1.msg == st2.msg
    ensures var r1, r2 := DecLoop(fields, st1, bs), DecLoop(fields, st2, bs);
      && (r1.Failed? <==> r2.Failed?)
      && (r1.Done? ==>
            && r1.state.msg == r2.state.msg && r1.rest == r2.rest && r1.stopped == r2.stopped
            && st1.seen <= r1.state.seen && st2.seen <= r2.state.seen
            && r1.state.seen <= st1.seen + r2.state.seen)
    decreases |bs|
  {
    hide DecTurn, Plain;
    if bs != [] {
      TurnForgets(fields, st1, st2, bs);
      var t1, t2 := DecTurn(fields, st1, bs), DecTurn(fields, st2, bs);
      if t1.Go? {
        LoopForgets(fields, t1.state, t2.state, t1.rest);
      }
    }
  }

  /** If decoding all of a takes m to m1 and decoding b takes m1 to m2, then decoding a and b in one go takes
      m to m2, although the iterator is in mid-list where b starts. */
  lemma {:induction false} DecodeConcat(fields: seq<Field>, m: Msg, a: seq<byte>, m1: Msg, b: seq<byte>)
    requires Plain(fields)
    requires DecLoop(fields, Start(m), a).Done? && !DecLoop(fields, Start(m), a).stopped
    requires DecMsg(fields, m, a) == Ok(m1, []) && DecMsg(fields, m1, b).Ok?
    ensures DecMsg(fields, m, a + b) == DecMsg(fields, m1, b)
  {
    hide DecLoop, Plain;
    var st1 := DecLoop(fields, Start(m), a).state;
    RunThen(fields, Start(m), a, st1, b);
    LoopForgets(fields, st1, Start(m1), b);
    LoopForgets(fields, Start(m1), st1, b);
  }

  /** The same without the required-field check of the parts: exactly when a does not end in a zero tag does
      the loop over a and b do what the loop over b does after the loop over a. */
  lemma {:induction false} LoopConcat(fields: seq<Field>, m: Msg, a: seq<byte>, b: seq<byte>)
    requires Plain(fields) && DecLoop(fields, Start(m), a).Done? && DecLoop(fields, Start(m), a).rest == []
    ensures var first := DecLoop(fields, Start(m), a);
      if first.stopped then DecLoop(fields, Start(m), a + b) == Done(first.state, b, true)
      else DecLoop(fields, Start(m), a + b) == DecLoop(fields, first.state, b)
  {
    var first := DecLoop(fields, Start(m), a);
    if first.stopped {
      StopThen(fields, Start(m), a, b);
      assert [] + b == b;
    } else {
      RunThen(fields, Start(m), a, first.state, b);
    }
  }

  lemma {:induction false} StopThen(fields: seq<Field>, st: State, a: seq<byte>, b: seq<byte>)
    requires InList(fields, st) && DecLoop(fields, st, a).Done? && DecLoop(fields, st, a).stopped
    ensures DecLoop(fields, st, a + b) == Done(DecLoop(fields, st, a).state, DecLoop(fields, st, a).rest + b, true)
    decreases |a|
  {
    var t := DecTurn(fields, st, a);
    DecTurnExtend(fields, st, a, b);
    if t.Go? {
      StopThen(fields, t.state, t.rest, b);
    }
  }

  /** A zero tag ends a message, and hides whatever is behind it: decoding in two parts is then not decoding the
      whole. */
  lemma {:induction false} ZeroTagHidesRest(m: Msg, fields: seq<Field>, b: seq<byte>)
    requires AllSeen(Entries(fields), {})
    ensures DecMsg(fields, m, [0]) == Ok(m, []) && DecMsg(fields, m, [0] + b) == Ok(m, b)
  {
    assert ([0] + b)[1..] == b && [0][1..] == [];
    assert DecTurn(fields, Start(m), [0]) == Stop([]);
    assert DecTurn(fields, Start(m), [0] + b) == Stop(b);
  }
}
