/** Whatever pb_decode accepts fits its structure: no array, bytes or string member is overrun. */
module Bounds {
  import opened Bytes
  import opened Varints
  import opened Fields
  import opened Encoding
  import opened FieldIter
  import opened Decoding
  import opened Folding
  import opened RoundTrip

  /** Everything that is stored in the structure, present or not, is within its member; what is present is stored. */
  ghost predicate Within(fields: seq<Field>, m: Msg)
    decreases fields, 2
  {
    && |m.slots| == |fields|
    && forall i :: 0 <= i < |fields| ==> WithinSlot(fields[i], m, m.slots[i])
  }

  ghost predicate WithinSlot(f: Field, m: Msg, s: Slot)
    decreases f, 1
  {
    && (match f.entry.rule
        case Repeated => |s.items| <= f.entry.arraySize
        case Oneof(group) => m.Which(group) == f.entry.tag ==> s.items != []
        case _ => s.items != [])
    && forall k :: 0 <= k < |s.items| ==> WithinItem(f, s.items[k])
  }

  ghost predicate WithinItem(f: Field, v: Value)
    decreases f, 0
  {
    if f.kind.Message? then v.VMsg? && Within(f.kind.sub, v.msg) else FitsItem(f, v)
  }

  /** The default values in the descriptor fit, at every depth. */
  ghost predicate DefaultsFit(fields: seq<Field>)
    decreases fields, 1
  {
    forall i :: 0 <= i < |fields| ==> DefaultFits(fields[i])
  }

  ghost predicate DefaultFits(f: Field)
    decreases f, 0
  {
    if f.kind.Message? then DefaultsFit(f.kind.sub)
    else f.entry.rule.Repeated? || f.entry.rule.Oneof? || FitsItem(f, DefaultItem(f))
  }

  lemma {:induction false} DefaultWithin(fields: seq<Field>)
    requires DefaultsFit(fields)
    ensures Within(fields, Default(fields))
    decreases fields, 1
  {
    forall i | 0 <= i < |fields|
      ensures WithinSlot(fields[i], Default(fields), DefaultSlot(fields[i]))
    {
      DefaultSlotWithin(fields[i], Default(fields));
    }
  }

  lemma {:induction false} DefaultSlotWithin(f: Field, m: Msg)
    requires DefaultFits(f) && m.which == map[]
    ensures WithinSlot(f, m, DefaultSlot(f))
    decreases f, 0
  {
    if f.kind.Message? { DefaultWithin(f.kind.sub); }
  }

  lemma {:induction false} LittleEndianBound(b: seq<byte>)
    ensures FromLittleEndian(b) < Pow256(|b|)
    decreases |b|
  {
    if b != [] { LittleEndianBound(b[1..]); }
  }

  lemma {:induction false} NumberWithin(f: Field, bs: seq<byte>)
    requires f.kind.Packable() && DecNumber(f, bs).Ok?
    ensures FitsItem(f, DecNumber(f, bs).value)
  {
    hide FromLittleEndian, DecVarint, Narrow;
    if f.kind.Fixed32? || f.kind.Fixed64? {
      LittleEndianBound(bs[..if f.kind.Fixed32? then 4 else 8]);
      assert Pow256(4) == 256 * 256 * 256 * 256 && Pow256(8) == 256 * 256 * 256 * 256 * Pow256(4);
    }
  }

  lemma {:induction false} PackedWithin(f: Field, items: seq<Value>, body: seq<byte>)
    requires f.kind.Packable() && |items| <= f.entry.arraySize && forall k :: 0 <= k < |items| ==> FitsItem(f, items[k])
    requires DecPacked(f, items, body).Some?
    ensures var all := DecPacked(f, items, body).value;
      |all| <= f.entry.arraySize && forall k :: 0 <= k < |all| ==> FitsItem(f, all[k])
    decreases |body|
  {
    hide DecNumber, FitsItem;
    if body != [] {
      NumberWithin(f, body);
      PackedWithin(f, items + [DecNumber(f, body).value], DecNumber(f, body).rest);
    }
  }

  /** One item, into storage whose contents are within it. */
  lemma {:induction false} ItemWithin(f: Field, dest: Value, bs: seq<byte>)
    requires WellFormedField(f) && DefaultFits(f) && DecItem(f, dest, bs).Ok?
    requires f.kind.Message? && dest.VMsg? ==> Within(f.kind.sub, dest.msg)
    ensures WithinItem(f, DecItem(f, dest, bs).value)
    decreases |bs|, 0
  {
    hide DecNumber, Within, DecMsg, WellFormed, DefaultsFit, Default, TakePrefixed;
    if f.kind.Packable() {
      NumberWithin(f, bs);
    } else if f.kind.Message? {
      DefaultWithin(f.kind.sub);
      var m := if f.entry.rule.Repeated? || !dest.VMsg? then Default(f.kind.sub) else dest.msg;
      MsgWithin(f.kind.sub, m, TakePrefixed(bs).value);
    }
  }

  lemma {:induction false} FieldWithin(fields: seq<Field>, i: nat, wireType: nat, m: Msg, bs: seq<byte>)
    requires WellFormed(fields) && DefaultsFit(fields) && Within(fields, m) && i < |fields|
    requires DecField(fields[i], i, wireType, m, bs).Ok?
    ensures Within(fields, DecField(fields[i], i, wireType, m, bs).value)
    decreases |bs|, 1
  {
    hide DecItem, WithinItem, WellFormedField, DefaultFits, DecPacked, TakePrefixed;
    var f, s := fields[i], m.slots[i];
    assert WellFormedField(f) && DefaultFits(f) && WithinSlot(f, m, s);
    StoredMessage(f, s.items);
    match f.entry.rule {
      case Repeated =>
        if wireType == WT_STRING && f.kind.Packable() {
          PackedSlot(f, s.items, TakePrefixed(bs).value);
        } else {
          ItemWithin(f, VInt(0), bs);
        }
        OthersWithin(fields, i, m, DecField(f, i, wireType, m, bs).value);
      case Oneof(group) =>
        if f.kind.Message? { DefaultMessage(f); }
        ItemWithin(f, if f.kind.Message? then VMsg(Default(f.kind.sub)) else VInt(0), bs);
        SelectWithin(fields, i, m, DecField(f, i, wireType, m, bs).value);
      case _ =>
        ItemWithin(f, m.SlotAt(i).Item(), bs);
        OthersWithin(fields, i, m, DecField(f, i, wireType, m, bs).value);
    }
  }

  lemma {:induction false} DefaultMessage(f: Field)
    requires DefaultFits(f) && f.kind.Message?
    ensures Within(f.kind.sub, Default(f.kind.sub))
  {
    DefaultWithin(f.kind.sub);
  }

  lemma {:induction false} StoredMessage(f: Field, items: seq<Value>)
    requires forall k :: 0 <= k < |items| ==> WithinItem(f, items[k])
    ensures f.kind.Message? && items != [] && items[0].VMsg? ==> Within(f.kind.sub, items[0].msg)
  {
    hide Within;
  }

  lemma {:induction false} PackedSlot(f: Field, items: seq<Value>, body: seq<byte>)
    requires f.kind.Packable() && |items| <= f.entry.arraySize
    requires forall k :: 0 <= k < |items| ==> WithinItem(f, items[k])
    ensures DecPacked(f, items, body).Some? ==>
              && |DecPacked(f, items, body).value| <= f.entry.arraySize
              && forall k :: 0 <= k < |DecPacked(f, items, body).value| ==>
                   WithinItem(f, DecPacked(f, items, body).value[k])
  {
    if DecPacked(f, items, body).Some? { PackedWithin(f, items, body); }
  }

  /** A field that is not of a oneof has changed. */
  lemma {:induction false} OthersWithin(fields: seq<Field>, i: nat, m: Msg, after: Msg)
    requires Within(fields, m) && i < |fields| && |after.slots| == |fields| && after.which == m.which
    requires forall k :: 0 <= k < |fields| && k != i ==> after.slots[k] == m.slots[k]
    requires WithinSlot(fields[i], after, after.slots[i])
    ensures Within(fields, after)
  {
    hide WithinItem;
    forall k | 0 <= k < |fields|
      ensures WithinSlot(fields[k], after, after.slots[k])
    {
      assert WithinSlot(fields[k], m, m.slots[k]);
    }
  }

  /** A field of a oneof is selected: no other field has its tag. */
  lemma {:induction false} SelectWithin(fields: seq<Field>, i: nat, m: Msg, after: Msg)
    requires Plain(fields) && Within(fields, m) && i < |fields| && |after.slots| == |fields|
    requires fields[i].entry.rule.Oneof?
    requires after.which == m.which[fields[i].entry.rule.group := fields[i].entry.tag]
    requires forall k :: 0 <= k < |fields| && k != i ==> after.slots[k] == m.slots[k]
    requires WithinSlot(fields[i], after, after.slots[i])
    ensures Within(fields, after)
  {
    hide WithinItem;
    forall k | 0 <= k < |fields|
      ensures WithinSlot(fields[k], after, after.slots[k])
    {
      assert WithinSlot(fields[k], m, m.slots[k]);
      assert Entries(fields)[k] == fields[k].entry && Entries(fields)[i] == fields[i].entry;
    }
  }

  lemma {:induction false} LoopWithin(fields: seq<Field>, st: State, bs: seq<byte>)
    requires WellFormed(fields) && DefaultsFit(fields) && Within(fields, st.msg)
    requires (fields != [] ==> st.pos < |fields|) && DecLoop(fields, st, bs).Done?
    ensures Within(fields, DecLoop(fields, st, bs).state.msg)
    decreases |bs|, 3
  {
    hide WellFormed, DefaultsFit, Within, DecTurn;
    if bs != [] && DecTurn(fields, st, bs).Go? {
      TurnWithin(fields, st, bs);
      LoopWithin(fields, DecTurn(fields, st, bs).state, DecTurn(fields, st, bs).rest);
    }
  }

  lemma {:induction false} TurnWithin(fields: seq<Field>, st: State, bs: seq<byte>)
    requires WellFormed(fields) && DefaultsFit(fields) && Within(fields, st.msg)
    requires (fields != [] ==> st.pos < |fields|) && DecTurn(fields, st, bs).Go?
    ensures Within(fields, DecTurn(fields, st, bs).state.msg)
    decreases |bs|, 2
  {
    hide WellFormed, DefaultsFit, Within, DecField, DecVarint32, FindFrom, Skip, MarkSeen;
    var key, rest := DecVarint32(bs).value, DecVarint32(bs).rest;
    var found := if fields == [] then None else FindFrom(Entries(fields), st.pos, key / 8, |fields|);
    if found.Some? {
      FieldWithin(fields, found.value, key % 8, st.msg, rest);
    }
  }

  lemma {:induction false} MsgWithin(fields: seq<Field>, m: Msg, bs: seq<byte>)
    requires WellFormed(fields) && DefaultsFit(fields) && Within(fields, m) && DecMsg(fields, m, bs).Ok?
    ensures Within(fields, DecMsg(fields, m, bs).value)
    decreases |bs|, 4
  {
    hide WellFormed, DefaultsFit, Within, DecLoop;
    LoopWithin(fields, Start(m), bs);
  }

  lemma {:induction false} WithinFits(fields: seq<Field>, m: Msg)
    requires Within(fields, m)
    ensures Fits(fields, m)
    decreases fields, 1
  {
    forall i | 0 <= i < |fields|
      ensures FitsField(fields[i], m, i)
    {
      assert WithinSlot(fields[i], m, m.slots[i]);
      forall k | 0 <= k < |m.slots[i].items|
        ensures FitsItem(fields[i], m.slots[i].items[k])
      {
        ItemFits(fields[i], m.slots[i].items[k]);
      }
    }
  }

  lemma {:induction false} ItemFits(f: Field, v: Value)
    requires WithinItem(f, v)
    ensures FitsItem(f, v)
    decreases f, 0
  {
    if f.kind.Message? { WithinFits(f.kind.sub, v.msg); }
  }

  /** Whatever the bytes, what is accepted fits, and can be encoded again. */
  lemma {:induction false} DecodedFits(fields: seq<Field>, bs: seq<byte>)
    requires WellFormed(fields) && DefaultsFit(fields) && Decode(fields, bs).Ok?
    ensures Within(fields, Decode(fields, bs).value) && Fits(fields, Decode(fields, bs).value)
    ensures Encode(fields, Decode(fields, bs).value).Some?
  {
    hide WellFormed, DefaultsFit, Within, Fits, DecMsg, EncMsg, Default;
    DefaultWithin(fields);
    MsgWithin(fields, Default(fields), bs);
    WithinFits(fields, Decode(fields, bs).value);
    FitsEncodes(fields, Decode(fields, bs).value, |fields|);
  }

  /** Without the condition on the defaults it is not so: no byte at all leaves the defaults as they are. */
  lemma {:induction false} DefaultsMatter(fields: seq<Field>)
    requires forall i :: 0 <= i < |fields| ==> !fields[i].entry.rule.Required?
    ensures Decode(fields, []) == Ok(Default(fields), [])
  {
    NoneRequired(Entries(fields), |fields|);
  }

  lemma {:induction false} NoneRequired(es: seq<Entry>, n: nat)
    requires n <= |es| && forall i :: 0 <= i < |es| ==> !es[i].rule.Required?
    ensures RequiredBefore(es, n) == 0
  {
    if n > 0 { NoneRequired(es, n - 1); }
  }
}
