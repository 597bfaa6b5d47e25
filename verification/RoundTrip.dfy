/** Decoding what was encoded, with the same field list or any part of it. */
module RoundTrip {
  import opened Bytes
  import opened Varints
  import opened Fields
  import opened Encoding
  import opened FieldIter
  import opened Decoding
  import opened Folding
  import opened Leaves

  // ---- What is required of descriptors and values ----

  /** Distinct field numbers below 2^29, everything stored in the structure itself, with a count for every array, and
      no extensions, at every depth. */
  ghost predicate WellFormed(fields: seq<Field>)
    decreases fields, 1
  {
    && Plain(fields)
    && forall i :: 0 <= i < |fields| ==> WellFormedField(fields[i])
  }

  ghost predicate WellFormedField(f: Field)
    decreases f, 0
  {
    && f.entry.tag < 0x2000_0000
    && f.entry.dataSize <= PB_SIZE_MAX && f.entry.storage.Static?
    && (f.entry.rule.Repeated? ==> f.entry.sizeOffset != 0)
    && (f.kind.Message? ==> WellFormed(f.kind.sub))
  }

  /** The structure holds what its descriptor says: numbers in range, counts and lengths within their arrays,
      strings terminated. What is absent may be anything. */
  ghost predicate Fits(fields: seq<Field>, m: Msg)
    decreases fields, 2
  {
    && |m.slots| == |fields|
    && forall i :: 0 <= i < |fields| ==> FitsField(fields[i], m, i)
  }

  ghost predicate FitsField(f: Field, m: Msg, i: nat)
    decreases f, 1
  {
    if f.entry.rule.Repeated? then
      && |m.SlotAt(i).items| <= f.entry.arraySize
      && forall k :: 0 <= k < |m.SlotAt(i).items| ==> FitsItem(f, m.SlotAt(i).items[k])
    else
      Present(f, m, i) || f.entry.rule.Singular? ==> FitsItem(f, m.SlotAt(i).Item())
  }

  ghost predicate FitsItem(f: Field, v: Value)
    decreases f, 0
  {
    match f.kind
    case Message(sub) => v.VMsg? && Fits(sub, v.msg)
    case Bytes => v.VBytes? && |v.bytes| + BYTES_OFFSET <= f.entry.dataSize
    case String => v.VBytes? && |v.bytes| <= f.entry.dataSize && |CString(v.bytes)| < f.entry.dataSize
    case FixedBytes => v.VBytes? && |v.bytes| == f.entry.dataSize
    case _ => v.VInt? && IntFits(f.kind, f.entry.dataSize, v.n)
  }

  // ---- Parts of a field list, and agreement of structures ----

  /** g is the field f, where a submessage may list only part of the fields. */
  ghost predicate FieldPart(g: Field, f: Field)
    decreases f, 0
  {
    && g.entry.tag == f.entry.tag && g.entry.rule == f.entry.rule && g.entry.arraySize == f.entry.arraySize
    && if f.kind.Message? then g.kind.Message? && Part(g.kind.sub, f.kind.sub)
       else g.kind == f.kind && g.entry.dataSize == f.entry.dataSize && g.ptr == f.ptr
  }

  /** Every field of gs is a field of fs, in any order. */
  ghost predicate Part(gs: seq<Field>, fs: seq<Field>)
    decreases fs, 1
  {
    forall j :: 0 <= j < |gs| ==> Listed(gs[j], fs)
  }

  ghost predicate Listed(g: Field, fs: seq<Field>)
    decreases fs, 0
  {
    exists i :: 0 <= i < |fs| && FieldPart(g, fs[i])
  }

  /** d, laid out by gs, shows the same as m, laid out by fs: up to what is absent and what is behind the end
      of a string. */
  ghost predicate Agree(fs: seq<Field>, gs: seq<Field>, m: Msg, d: Msg)
    decreases fs, 2
  {
    && |d.slots| == |gs|
    && forall i, j :: 0 <= i < |fs| && 0 <= j < |gs| && FieldPart(gs[j], fs[i]) ==> AgreeField(fs[i], gs[j], m, i, d, j)
  }

  ghost predicate AgreeField(f: Field, g: Field, m: Msg, i: nat, d: Msg, j: nat)
    decreases f, 1
  {
    var s, t := m.SlotAt(i), d.SlotAt(j);
    match f.entry.rule
    case Required => AgreeItem(f, g, s.Item(), t.Item())
    case Optional => s.has == t.has && (s.has ==> AgreeItem(f, g, s.Item(), t.Item()))
    case Singular => AgreeItem(f, g, s.Item(), t.Item())
    case Repeated => AgreeItems(f, g, s.items, t.items)
    case Oneof(group) =>
      && (m.Which(group) == f.entry.tag <==> d.Which(group) == f.entry.tag)
      && (m.Which(group) == f.entry.tag ==> AgreeItem(f, g, s.Item(), t.Item()))
  }

  ghost predicate AgreeItems(f: Field, g: Field, vs: seq<Value>, ws: seq<Value>)
    decreases f, 0, 1
  {
    |vs| == |ws| && forall k :: 0 <= k < |vs| ==> AgreeItem(f, g, vs[k], ws[k])
  }

  ghost predicate AgreeItem(f: Field, g: Field, v: Value, w: Value)
    decreases f, 0, 0
  {
    match f.kind
    case Message(sub) => v.VMsg? && w.VMsg? && g.kind.Message? && Agree(sub, g.kind.sub, v.msg, w.msg)
    case String => v.VBytes? && w.VBytes? && CString(v.bytes) == CString(w.bytes)
    case _ => v == w
  }

  // ---- What the round trip keeps ----

  /** Whatever of m the list gs has, at any depth, is not a proto3 field that is zero but has another default: it is
      not written, and reads as the default. */
  ghost predicate Kept(fs: seq<Field>, gs: seq<Field>, m: Msg)
    decreases fs, 2
  {
    forall i, j :: 0 <= i < |fs| && 0 <= j < |gs| && FieldPart(gs[j], fs[i]) ==> KeptField(fs[i], gs[j], m, i)
  }

  ghost predicate KeptField(f: Field, g: Field, m: Msg, i: nat)
    decreases f, 1
  {
    var s := m.SlotAt(i);
    match f.entry.rule
    case Required => KeptItem(f, g, s.Item())
    case Optional => s.has ==> KeptItem(f, g, s.Item())
    case Singular => KeptItem(f, g, s.Item()) && KeptZero(f, s.Item())
    case Repeated => KeptItems(f, g, s.items)
    case Oneof(group) => m.Which(group) == f.entry.tag ==> KeptItem(f, g, s.Item())
  }

  ghost predicate KeptItems(f: Field, g: Field, vs: seq<Value>)
    decreases f, 0, 1
  {
    forall k :: 0 <= k < |vs| ==> KeptItem(f, g, vs[k])
  }

  ghost predicate KeptItem(f: Field, g: Field, v: Value)
    decreases f, 0, 0
  {
    match f.kind
    case Message(sub) => v.VMsg? && g.kind.Message? ==> Kept(sub, g.kind.sub, v.msg)
    case _ => true
  }

  /** Not a zero whose default is something else. */
  ghost predicate KeptZero(f: Field, v: Value)
  {
    f.kind.Message? || (IsZeroValue(f, v) ==> AgreeItem(f, f, v, DefaultItem(f)))
  }

  // ---- Every structure that fits is encoded ----

  lemma {:induction false} FitsEncodes(fields: seq<Field>, m: Msg, n: nat)
    requires Fits(fields, m) && n <= |fields|
    ensures EncMsg(fields, m, n).Some?
    decreases fields, 4, n
  {
    if n > 0 {
      FitsEncodes(fields, m, n - 1);
      var f := fields[n - 1];
      assert FitsField(f, m, n - 1);
      if f.entry.rule.Repeated? {
        var items := m.SlotAt(n - 1).items;
        FitsItemsEncode(f, items, |items|, true);
        FitsItemsEncode(f, items, |items|, false);
        assert EncArray(f, items).Some?;
      } else if Present(f, m, n - 1) {
        FitsItemEncodes(f, m.SlotAt(n - 1).Item());
      }
    }
  }

  lemma {:induction false} FitsItemsEncode(f: Field, items: seq<Value>, n: nat, tagged: bool)
    requires n <= |items| && forall k :: 0 <= k < |items| ==> FitsItem(f, items[k])
    ensures EncItems(f, items, n, tagged).Some?
    decreases f, 1, n
  {
    if n > 0 {
      FitsItemsEncode(f, items, n - 1, tagged);
      FitsItemEncodes(f, items[n - 1]);
    }
  }

  lemma {:induction false} FitsItemEncodes(f: Field, v: Value)
    requires FitsItem(f, v)
    ensures EncItem(f, v).Some?
    decreases f, 0
  {
    if f.kind.Message? {
      FitsEncodes(f.kind.sub, v.msg, |f.kind.sub|);
    }
  }

  // ---- Items ----

  /** The items of a packed run read back, one after the other. */
  lemma {:induction false} PackedProject(f: Field, g: Field, items: seq<Value>, n: nat, acc: seq<Value>,
                                         rest: seq<byte>)
    requires FieldPart(g, f) && f.kind.Packable() && n <= |items| && |acc| + n <= f.entry.arraySize
    requires forall k :: 0 <= k < |items| ==> FitsItem(f, items[k])
    requires EncItems(f, items, n, false).Some?
    ensures DecPacked(g, acc, EncItems(f, items, n, false).value + rest) == DecPacked(g, acc + items[..n], rest)
    decreases n
  {
    hide DecNumber, EncNumber;
    if n == 0 {
      assert acc + items[..0] == acc && [] + rest == rest;
    } else {
      var v := items[n - 1];
      var e, before := EncNumber(f.kind, v.n), EncItems(f, items, n - 1, false).value;
      assert before + [] + e + rest == before + (e + rest);
      PackedProject(f, g, items, n - 1, acc, e + rest);
      PackedOne(g, acc + items[..n - 1], v.n, rest);
      assert acc + items[..n - 1] + [v] == acc + items[..n];
    }
  }

  lemma {:induction false} PackedOne(g: Field, acc: seq<Value>, n: int, rest: seq<byte>)
    requires g.kind.Packable() && |acc| < g.entry.arraySize && IntFits(g.kind, g.entry.dataSize, n)
    ensures DecPacked(g, acc, EncNumber(g.kind, n) + rest) == DecPacked(g, acc + [VInt(n)], rest)
  {
    hide DecNumber, EncNumber;
    NumberRoundTrip(g, n, rest);
  }

  /** The storage an item is read into is as the defaults left it. */
  ghost predicate FreshFor(g: Field, dest: Value)
  {
    g.kind.Message? && !g.entry.rule.Repeated? ==> dest == VMsg(Default(g.kind.sub))
  }

  ghost predicate ItemReads(f: Field, g: Field, v: Value, dest: Value, e: seq<byte>, rest: seq<byte>)
  {
    var r := DecItem(g, dest, e + rest);
    r.Ok? && r.rest == rest && (AgreeItem(f, g, v, r.value) <==> KeptItem(f, g, v))
  }

  lemma {:induction false} BlobProject(f: Field, g: Field, v: Value, rest: seq<byte>)
    requires FieldPart(g, f) && (f.kind.Bytes? || f.kind.String? || f.kind.FixedBytes?)
    requires FitsItem(f, v) && WellFormedField(f)
    requires EncItem(f, v).Some? && |EncItem(f, v).value| < U32
    ensures var r := DecBlob(g, EncItem(f, v).value + rest);
      r.Ok? && r.rest == rest && AgreeItem(f, g, v, r.value)
  {
    hide DecVarint32, Prefixed;
    var payload := if f.kind.String? then CString(v.bytes) else v.bytes;
    assert |payload| < U32 by { PrefixedLength(payload); }
    PrefixedRoundTrip(payload, rest);
    assert (payload + rest)[..|payload|] == payload && (payload + rest)[|payload|..] == rest;
    if f.kind.String? { CStringIdempotent(v.bytes); }
  }

  lemma {:induction false} PrefixedLength(payload: seq<byte>)
    ensures |payload| < |Prefixed(payload)|
  {}

  lemma {:induction false} CStringIdempotent(bytes: seq<byte>)
    ensures CString(CString(bytes)) == CString(bytes)
  {
    if bytes != [] && bytes[0] != 0 {
      CStringIdempotent(bytes[1..]);
      assert CString(bytes)[1..] == CString(bytes[1..]);
    }
  }

  /** A proto3 field that is not written because it is zero reads as its default, which shows the same exactly if the
      value is one that is kept. */
  lemma {:induction false} ZeroProject(f: Field, g: Field, v: Value)
    requires FieldPart(g, f) && WellFormedField(f) && WellFormedField(g)
    requires f.entry.rule.Singular? && IsZeroValue(f, v) && FitsItem(f, v)
    ensures AgreeItem(f, g, v, DefaultItem(g)) <==> KeptItem(f, g, v) && KeptZero(f, v)
    decreases f
  {
    if f.kind.Message? {
      ZeroMsgProject(f.kind.sub, g.kind.sub, v.msg);
    }
  }

  lemma {:induction false} ZeroMsgProject(fs: seq<Field>, gs: seq<Field>, m: Msg)
    requires WellFormed(fs) && WellFormed(gs) && Fits(fs, m)
    requires forall i :: 0 <= i < |fs| ==> IsZero(fs[i], m, i)
    ensures Agree(fs, gs, m, Default(gs)) <==> Kept(fs, gs, m)
    decreases fs
  {
    forall i, j | 0 <= i < |fs| && 0 <= j < |gs| && FieldPart(gs[j], fs[i])
      ensures AgreeField(fs[i], gs[j], m, i, Default(gs), j) <==> KeptField(fs[i], gs[j], m, i)
    {
      assert IsZero(fs[i], m, i) && FitsField(fs[i], m, i);
      if fs[i].entry.rule.Singular? {
        ZeroProject(fs[i], gs[j], m.SlotAt(i).Item());
      }
    }
  }

  // ---- The structure after the first n fields ----

  /** st shows the first n fields of m; the other slots are as the defaults left them. */
  ghost predicate Upto(fs: seq<Field>, gs: seq<Field>, m: Msg, n: nat, st: State)
    requires n <= |fs|
  {
    && InList(gs, st) && |st.msg.slots| == |gs|
    && (forall group: nat :: st.msg.Which(group) == 0 || st.msg.Which(group) == m.Which(group))
    && (forall i, j :: 0 <= i < |fs| && 0 <= j < |gs| && FieldPart(gs[j], fs[i]) ==> UptoPair(fs, gs, m, n, st, i, j))
  }

  ghost predicate UptoPair(fs: seq<Field>, gs: seq<Field>, m: Msg, n: nat, st: State, i: nat, j: nat)
    requires i < |fs| && j < |gs| && j < |st.msg.slots|
  {
    if i < n then
      && (AgreeField(fs[i], gs[j], m, i, st.msg, j) <==> KeptField(fs[i], gs[j], m, i)) && Selects(fs[i], m, st.msg)
      && (gs[j].entry.rule.Required? && RequiredBefore(Entries(gs), j) < PB_MAX_REQUIRED_FIELDS
          ==> RequiredBefore(Entries(gs), j) in st.seen)
    else
      st.msg.slots[j] == DefaultSlot(gs[j])
  }

  /** A member of a oneof is selected in both or in neither. */
  ghost predicate Selects(f: Field, m: Msg, d: Msg)
  {
    f.entry.rule.Oneof? ==> (m.Which(f.entry.rule.group) == f.entry.tag <==> d.Which(f.entry.rule.group) == f.entry.tag)
  }

  /** Field n of fs has been taken into slot j and nothing else has changed. */
  ghost predicate Taken(fs: seq<Field>, gs: seq<Field>, m: Msg, n: nat, j: nat, st: State, st': State)
    requires n < |fs| && j < |gs|
  {
    && InList(gs, st') && |st'.msg.slots| == |st.msg.slots| && st.seen <= st'.seen
    && (forall k :: 0 <= k < |st.msg.slots| && k != j ==> st'.msg.slots[k] == st.msg.slots[k])
    && (forall group: nat :: st'.msg.Which(group) == st.msg.Which(group) || st'.msg.Which(group) == m.Which(group))
    && (AgreeField(fs[n], gs[j], m, n, st'.msg, j) <==> KeptField(fs[n], gs[j], m, n)) && Selects(fs[n], m, st'.msg)
    && (gs[j].entry.rule.Required? && RequiredBefore(Entries(gs), j) < PB_MAX_REQUIRED_FIELDS
        ==> RequiredBefore(Entries(gs), j) in st'.seen)
  }

  lemma {:induction false} UptoTaken(fs: seq<Field>, gs: seq<Field>, m: Msg, n: nat, j: nat, st: State, st': State)
    requires Plain(fs) && Plain(gs) && n < |fs| && j < |gs| && FieldPart(gs[j], fs[n])
    requires Upto(fs, gs, m, n, st) && Taken(fs, gs, m, n, j, st, st')
    ensures Upto(fs, gs, m, n + 1, st')
  {
    hide AgreeItem, AgreeItems, KeptField, DefaultSlot, RequiredBefore;
    forall i, k | 0 <= i < |fs| && 0 <= k < |gs| && FieldPart(gs[k], fs[i])
      ensures UptoPair(fs, gs, m, n + 1, st', i, k)
    {
      assert UptoPair(fs, gs, m, n, st, i, k);
      SamePair(fs, gs, i, k, n, j);
    }
  }

  lemma {:induction false} SamePair(fs: seq<Field>, gs: seq<Field>, i: nat, k: nat, n: nat, j: nat)
    requires Plain(fs) && Plain(gs) && i < |fs| && n < |fs| && k < |gs| && j < |gs|
    requires FieldPart(gs[k], fs[i]) && FieldPart(gs[j], fs[n])
    ensures i == n <==> k == j
  {
    var es, hs := Entries(fs), Entries(gs);
    assert gs[k].entry.tag == fs[i].entry.tag && gs[j].entry.tag == fs[n].entry.tag;
    if i != n { assert es[i].tag != es[n].tag; }
    if k != j { assert hs[k].tag != hs[j].tag; }
  }

  // ---- The induction over the descriptor ----

  /** One item reads back, whatever follows it. */
  lemma {:induction false} ItemProject(f: Field, g: Field, v: Value, dest: Value, rest: seq<byte>)
    requires FieldPart(g, f) && WellFormedField(f) && WellFormedField(g) && FitsItem(f, v) && FreshFor(g, dest)
    requires EncItem(f, v).Some? && |EncItem(f, v).value| < U32
    ensures ItemReads(f, g, v, dest, EncItem(f, v).value, rest) && EncItem(f, v).value != []
    decreases f, 0
  {
    if f.kind.Packable() {
      NumberRoundTrip(g, v.n, rest);
    } else if !f.kind.Message? {
      BlobProject(f, g, v, rest);
    } else {
      var payload := Encode(f.kind.sub, v.msg).value;
      PrefixedLength(payload);
      PrefixedRoundTrip(payload, rest);
      Project(f.kind.sub, g.kind.sub, v.msg);
    }
  }

  /** The items of an array that is not packed: a record each. */
  lemma {:induction false} TaggedProject(f: Field, gs: seq<Field>, j: nat, items: seq<Value>, n: nat, st: State)
    returns (st': State, ws: seq<Value>)
    requires WellFormed(gs) && InList(gs, st) && j < |gs| == |st.msg.slots| && n <= |items|
    requires FieldPart(gs[j], f) && WellFormedField(f) && f.entry.rule.Repeated? && !f.kind.Packable()
    requires |items| <= f.entry.arraySize && (forall k :: 0 <= k < |items| ==> FitsItem(f, items[k]))
    requires st.msg.slots[j] == Slot(false, [])
    requires EncItems(f, items, n, true).Some? && |EncItems(f, items, n, true).value| < U32
    ensures InList(gs, st') && Runs(gs, st, EncItems(f, items, n, true).value, st')
    ensures st'.msg == st.msg.Put(j, Slot(false, ws)) && st'.seen == st.seen
    ensures |ws| == n && (AgreeItems(f, gs[j], items[..n], ws) <==> KeptItems(f, gs[j], items[..n]))
    decreases f, 1, n
  {
    hide WellFormed, EncItem, AgreeItem, DecItem, DecLoop, EncTag, FitsItem;
    if n == 0 {
      NothingRuns(gs, st);
      st', ws := st, [];
    } else {
      var v := items[n - 1];
      var before, e := EncItems(f, items, n - 1, true).value, EncItem(f, v).value;
      var st1, ws1 := TaggedProject(f, gs, j, items, n - 1, st);
      WellFormedAt(gs, j);
      ItemProject(f, gs[j], v, VInt(0), []);
      assert e + [] == e;
      var w := DecItem(gs[j], VInt(0), e).value;
      st', ws := RepeatedTurn(f, gs, j, st1, ws1, w, e);
      RunsCompose(gs, st, before, st1, EncTagFor(f) + e, st');
      assert before + EncTagFor(f) + e == before + (EncTagFor(f) + e);
      AgreeSnoc(f, gs[j], items, n, ws1, w);
    }
  }

  lemma {:induction false} WellFormedAt(gs: seq<Field>, j: nat)
    requires WellFormed(gs) && j < |gs|
    ensures Plain(gs) && WellFormedField(gs[j])
  {}

  lemma {:induction false} NothingRuns(gs: seq<Field>, st: State)
    requires InList(gs, st)
    ensures Runs(gs, st, [], st)
  {}

  lemma {:induction false} AgreeSnoc(f: Field, g: Field, items: seq<Value>, n: nat, ws: seq<Value>, w: Value)
    requires 0 < n <= |items| && |ws| == n - 1
    requires AgreeItems(f, g, items[..n - 1], ws) <==> KeptItems(f, g, items[..n - 1])
    requires AgreeItem(f, g, items[n - 1], w) <==> KeptItem(f, g, items[n - 1])
    ensures AgreeItems(f, g, items[..n], ws + [w]) <==> KeptItems(f, g, items[..n])
  {
    hide AgreeItem, KeptItem;
    var all, before, vs := items[..n], items[..n - 1], ws + [w];
    assert all == before + [items[n - 1]];
    assert AgreeItems(f, g, all, vs) <==> AgreeItems(f, g, before, ws) && AgreeItem(f, g, items[n - 1], w) by {
      AgreeItemsSnoc(f, g, before, ws, items[n - 1], w);
    }
    assert KeptItems(f, g, all) <==> KeptItems(f, g, before) && KeptItem(f, g, items[n - 1]) by {
      KeptItemsSnoc(f, g, before, items[n - 1]);
    }
  }

  lemma {:induction false} AgreeItemsSnoc(f: Field, g: Field, vs: seq<Value>, ws: seq<Value>, v: Value, w: Value)
    requires |vs| == |ws|
    ensures AgreeItems(f, g, vs + [v], ws + [w]) <==> AgreeItems(f, g, vs, ws) && AgreeItem(f, g, v, w)
  {
    hide AgreeItem;
    if AgreeItems(f, g, vs + [v], ws + [w]) {
      forall k | 0 <= k < |vs|
        ensures AgreeItem(f, g, vs[k], ws[k])
      {
        assert AgreeItem(f, g, (vs + [v])[k], (ws + [w])[k]);
      }
      assert AgreeItem(f, g, (vs + [v])[|vs|], (ws + [w])[|vs|]);
    }
  }

  lemma {:induction false} KeptItemsSnoc(f: Field, g: Field, vs: seq<Value>, v: Value)
    ensures KeptItems(f, g, vs + [v]) <==> KeptItems(f, g, vs) && KeptItem(f, g, v)
  {
    hide KeptItem;
    if KeptItems(f, g, vs + [v]) {
      forall k | 0 <= k < |vs|
        ensures KeptItem(f, g, vs[k])
      {
        assert KeptItem(f, g, (vs + [v])[k]);
      }
      assert KeptItem(f, g, (vs + [v])[|vs|]);
    }
  }

  /** The turn of the loop that appends one item. */
  lemma {:induction false} RepeatedTurn(f: Field, gs: seq<Field>, j: nat, st: State, ws: seq<Value>, w: Value,
                                        e: seq<byte>)
    returns (st': State, ws': seq<Value>)
    requires WellFormed(gs) && InList(gs, st) && j < |gs| == |st.msg.slots|
    requires FieldPart(gs[j], f) && f.entry.rule.Repeated? && !f.kind.Packable()
    requires st.msg.slots[j] == Slot(false, ws) && |ws| < f.entry.arraySize
    requires DecItem(gs[j], VInt(0), e) == Ok(w, [])
    ensures ws' == ws + [w] && InList(gs, st') && Runs(gs, st, EncTagFor(f) + e, st')
    ensures st'.msg == st.msg.Put(j, Slot(false, ws')) && st'.seen == st.seen
  {
    hide DecItem, DecTurn, EncTag;
    var g := gs[j];
    assert WellFormedField(g);
    ws' := ws + [w];
    assert DecField(g, j, WireType(f.kind), st.msg, e) == Ok(st.msg.Put(j, Slot(false, ws')), []);
    SameWireType(g, f);
    TurnFound(gs, st, j, WireType(f.kind), e);
    st' := State(st.msg.Put(j, Slot(false, ws')), MarkSeen(Entries(gs), st.seen, j), j);
    RunOne(gs, st, EncTagFor(f) + e, st');
  }

  lemma {:induction false} SameWireType(g: Field, f: Field)
    requires FieldPart(g, f)
    ensures WireType(g.kind) == WireType(f.kind)
  {}

  /** An array of numbers: one packed record. */
  lemma {:induction false} PackedTurn(f: Field, gs: seq<Field>, j: nat, items: seq<Value>, st: State)
    returns (st': State)
    requires WellFormed(gs) && InList(gs, st) && j < |gs| == |st.msg.slots|
    requires FieldPart(gs[j], f) && f.entry.rule.Repeated? && f.kind.Packable()
    requires 0 < |items| <= f.entry.arraySize && (forall k :: 0 <= k < |items| ==> FitsItem(f, items[k]))
    requires st.msg.slots[j] == Slot(false, [])
    requires EncArray(f, items).Some? && |EncArray(f, items).value| < U32
    ensures InList(gs, st') && Runs(gs, st, EncArray(f, items).value, st')
    ensures st'.msg == st.msg.Put(j, Slot(false, items)) && st'.seen == st.seen
    ensures AgreeItems(f, gs[j], items, items)
  {
    hide DecTurn, EncTag, DecPacked, EncItems, TakePrefixed;
    var g := gs[j];
    assert WellFormedField(g);
    var payload := EncItems(f, items, |items|, false).value;
    var e := Prefixed(payload);
    PrefixedLength(payload);
    assert e + [] == e && payload + [] == payload;
    PrefixedRoundTrip(payload, []);
    PackedProject(f, g, items, |items|, [], []);
    assert [] + items[..|items|] == items;
    assert DecPacked(g, items, []) == Some(items) by { PackedEnd(g, items); }
    assert DecField(g, j, WT_STRING, st.msg, e) == Ok(st.msg.Put(j, Slot(false, items)), []);
    TurnFound(gs, st, j, WT_STRING, e);
    st' := State(st.msg.Put(j, Slot(false, items)), MarkSeen(Entries(gs), st.seen, j), j);
    RunOne(gs, st, EncArray(f, items).value, st');
  }

  lemma {:induction false} PackedEnd(g: Field, items: seq<Value>)
    requires g.kind.Packable()
    ensures DecPacked(g, items, []) == Some(items)
  {}

  /** A field that is not in the list is skipped, record by record. */
  lemma {:induction false} SkipItems(f: Field, gs: seq<Field>, items: seq<Value>, n: nat, st: State)
    requires InList(gs, st) && n <= |items| && f.entry.tag < 0x2000_0000
    requires forall j :: 0 <= j < |gs| ==> gs[j].entry.tag != f.entry.tag
    requires EncItems(f, items, n, true).Some? && |EncItems(f, items, n, true).value| < U32
    ensures Runs(gs, st, EncItems(f, items, n, true).value, st)
    decreases n
  {
    hide EncItem, EncTagFor, DecTurn;
    if n > 0 {
      var before, e := EncItems(f, items, n - 1, true).value, EncItem(f, items[n - 1]).value;
      SkipItems(f, gs, items, n - 1, st);
      SkipOne(f, gs, items[n - 1], st);
      RunsCompose(gs, st, before, st, EncTagFor(f) + e, st);
      assert before + EncTagFor(f) + e == before + (EncTagFor(f) + e);
    }
  }

  lemma {:induction false} SkipOne(f: Field, gs: seq<Field>, v: Value, st: State)
    requires InList(gs, st) && f.entry.tag < 0x2000_0000
    requires forall j :: 0 <= j < |gs| ==> gs[j].entry.tag != f.entry.tag
    requires EncItem(f, v).Some? && |EncItem(f, v).value| < U32
    ensures Runs(gs, st, EncTagFor(f) + EncItem(f, v).value, st)
  {
    hide DecTurn, Skip, EncItem, EncTag;
    var e := EncItem(f, v).value;
    SkipItem(f, v, []);
    assert e + [] == e;
    TurnSkipped(gs, st, WireType(f.kind), f.entry.tag, e);
    RunOne(gs, st, EncTagFor(f) + e, st);
  }

  /** Whatever field n writes, a list without its tag skips. */
  lemma {:induction false} SkipField(f: Field, gs: seq<Field>, m: Msg, i: nat, st: State)
    requires InList(gs, st) && f.entry.tag < 0x2000_0000
    requires forall j :: 0 <= j < |gs| ==> gs[j].entry.tag != f.entry.tag
    requires EncField(f, m, i).Some? && |EncField(f, m, i).value| < U32
    ensures Runs(gs, st, EncField(f, m, i).value, st)
  {
    hide DecTurn, EncItem, EncTag, EncItems, TakePrefixed;
    var e := EncField(f, m, i).value;
    var items := m.SlotAt(i).items;
    if e == [] {
    } else if !f.entry.rule.Repeated? {
      SkipOne(f, gs, m.SlotAt(i).Item(), st);
    } else if !f.kind.Packable() {
      SkipItems(f, gs, items, |items|, st);
    } else {
      var payload := EncItems(f, items, |items|, false).value;
      assert e == EncTag(WT_STRING, f.entry.tag) + Prefixed(payload);
      PrefixedLength(payload);
      PrefixedRoundTrip(payload, []);
      assert Prefixed(payload) + [] == Prefixed(payload);
      TurnSkipped(gs, st, WT_STRING, f.entry.tag, Prefixed(payload));
      RunOne(gs, st, e, st);
    }
  }

  /** A field with a single item that is there: one record, taken into its slot. */
  lemma {:induction false} SingleTurn(fs: seq<Field>, gs: seq<Field>, m: Msg, n: nat, j: nat, st: State)
    returns (st': State)
    requires WellFormed(fs) && WellFormed(gs) && Fits(fs, m) && n < |fs| && j < |gs| && FieldPart(gs[j], fs[n])
    requires !fs[n].entry.rule.Repeated? && Present(fs[n], m, n) && Upto(fs, gs, m, n, st)
    requires EncField(fs[n], m, n).Some? && |EncField(fs[n], m, n).value| < U32
    ensures InList(gs, st') && Runs(gs, st, EncField(fs[n], m, n).value, st')
    ensures Taken(fs, gs, m, n, j, st, st')
    decreases fs, 1, 0
  {
    hide DecTurn, EncItem, EncTag, DecItem, AgreeItem, WellFormed, Fits;
    var f, g, v := fs[n], gs[j], m.SlotAt(n).Item();
    FitsAt(fs, gs, m, n, j);
    assert UptoPair(fs, gs, m, n, st, n, j);
    var dest := if !f.entry.rule.Oneof? then st.msg.SlotAt(j).Item()
                else if g.kind.Message? then VMsg(Default(g.kind.sub)) else VInt(0);
    FreshDefault(g);
    var e := EncItem(f, v).value;
    assert e + [] == e;
    ItemProject(f, g, v, dest, []);
    var w := DecItem(g, dest, e).value;
    SameWireType(g, f);
    TurnFound(gs, st, j, WireType(f.kind), e);
    st' := State(DecField(g, j, WireType(f.kind), st.msg, e).value, MarkSeen(Entries(gs), st.seen, j), j);
    RunOne(gs, st, EncTagFor(f) + e, st');
  }

  lemma {:induction false} FreshDefault(g: Field)
    ensures !g.entry.rule.Repeated? && !g.entry.rule.Oneof? ==> FreshFor(g, DefaultSlot(g).Item())
  {
    if g.kind.Message? { assert DefaultItem(g) == VMsg(Default(g.kind.sub)); }
  }

  lemma {:induction false} FitsAt(fs: seq<Field>, gs: seq<Field>, m: Msg, n: nat, j: nat)
    requires WellFormed(fs) && WellFormed(gs) && Fits(fs, m) && n < |fs| && j < |gs|
    ensures Plain(fs) && Plain(gs)
    ensures WellFormedField(fs[n]) && WellFormedField(gs[j]) && FitsField(fs[n], m, n) && |m.slots| == |fs|
  {}

  /** What field n writes takes the state on by one field. */
  lemma {:induction false} FieldProject(fs: seq<Field>, gs: seq<Field>, m: Msg, n: nat, st: State)
    returns (st': State)
    requires WellFormed(fs) && WellFormed(gs) && Part(gs, fs) && Fits(fs, m) && n < |fs| && Upto(fs, gs, m, n, st)
    requires EncField(fs[n], m, n).Some? && |EncField(fs[n], m, n).value| < U32
    ensures InList(gs, st') && Runs(gs, st, EncField(fs[n], m, n).value, st')
    ensures Upto(fs, gs, m, n + 1, st')
    decreases fs, 2, 0
  {
    if j: nat :| j < |gs| && gs[j].entry.tag == fs[n].entry.tag {
      PartAt(fs, gs, n, j);
      FitsAt(fs, gs, m, n, j);
      st' := PartProject(fs, gs, m, n, j, st);
      UptoTaken(fs, gs, m, n, j, st, st');
    } else {
      SkipField(fs[n], gs, m, n, st);
      st' := st;
      UptoSkipped(fs, gs, m, n, st);
    }
  }

  lemma {:induction false} PartAt(fs: seq<Field>, gs: seq<Field>, n: nat, j: nat)
    requires WellFormed(fs) && Part(gs, fs) && n < |fs| && j < |gs| && gs[j].entry.tag == fs[n].entry.tag
    ensures FieldPart(gs[j], fs[n])
  {
    assert Listed(gs[j], fs);
    var i :| 0 <= i < |fs| && FieldPart(gs[j], fs[i]);
    var es := Entries(fs);
    assert es[i].tag == es[n].tag;
  }

  lemma {:induction false} UptoSkipped(fs: seq<Field>, gs: seq<Field>, m: Msg, n: nat, st: State)
    requires n < |fs| && Upto(fs, gs, m, n, st)
    requires forall j :: 0 <= j < |gs| ==> gs[j].entry.tag != fs[n].entry.tag
    ensures Upto(fs, gs, m, n + 1, st)
  {
    hide AgreeField, DefaultSlot;
    forall i, j | 0 <= i < |fs| && 0 <= j < |gs| && FieldPart(gs[j], fs[i])
      ensures UptoPair(fs, gs, m, n + 1, st, i, j)
    {
      assert UptoPair(fs, gs, m, n, st, i, j);
    }
  }

  lemma {:induction false} PartProject(fs: seq<Field>, gs: seq<Field>, m: Msg, n: nat, j: nat, st: State)
    returns (st': State)
    requires WellFormed(fs) && WellFormed(gs) && Fits(fs, m) && n < |fs| && j < |gs| && FieldPart(gs[j], fs[n])
    requires Upto(fs, gs, m, n, st)
    requires EncField(fs[n], m, n).Some? && |EncField(fs[n], m, n).value| < U32
    ensures InList(gs, st') && Runs(gs, st, EncField(fs[n], m, n).value, st')
    ensures Taken(fs, gs, m, n, j, st, st')
    decreases fs, 1, 1
  {
    hide EncItems, EncArray, EncItem, AgreeItem, WellFormed, Fits, DecLoop;
    var f, g := fs[n], gs[j];
    FitsAt(fs, gs, m, n, j);
    assert UptoPair(fs, gs, m, n, st, n, j);
    if f.entry.rule.Repeated? {
      st' := ArrayProject(fs, gs, m, n, j, st);
    } else if Present(f, m, n) {
      st' := SingleTurn(fs, gs, m, n, j, st);
    } else {
      st' := st;
      NothingRuns(gs, st);
      if f.entry.rule.Singular? {
        ZeroProject(f, g, m.SlotAt(n).Item());
      }
    }
  }

  lemma {:induction false} ArrayProject(fs: seq<Field>, gs: seq<Field>, m: Msg, n: nat, j: nat, st: State)
    returns (st': State)
    requires WellFormed(fs) && WellFormed(gs) && Fits(fs, m) && n < |fs| && j < |gs| && FieldPart(gs[j], fs[n])
    requires fs[n].entry.rule.Repeated? && Upto(fs, gs, m, n, st)
    requires EncField(fs[n], m, n).Some? && |EncField(fs[n], m, n).value| < U32
    ensures InList(gs, st') && Runs(gs, st, EncField(fs[n], m, n).value, st')
    ensures Taken(fs, gs, m, n, j, st, st')
    decreases fs, 1, 0
  {
    hide EncItems, EncItem, AgreeItem, WellFormed, Fits, DecLoop;
    var f, items := fs[n], m.SlotAt(n).items;
    FitsAt(fs, gs, m, n, j);
    assert UptoPair(fs, gs, m, n, st, n, j);
    if items == [] {
      st' := st;
      NothingRuns(gs, st);
      assert AgreeItems(f, gs[j], items, []) && KeptItems(f, gs[j], items);
    } else if f.kind.Packable() {
      st' := PackedTurn(f, gs, j, items, st);
      assert st'.msg.slots[j] == Slot(false, items) && KeptItems(f, gs[j], items);
    } else {
      var ws: seq<Value>;
      st', ws := TaggedProject(f, gs, j, items, |items|, st);
      assert items[..|items|] == items;
      assert st'.msg.slots[j] == Slot(false, ws);
    }
  }

  lemma {:induction false} FieldsProject(fs: seq<Field>, gs: seq<Field>, m: Msg, n: nat) returns (st: State)
    requires WellFormed(fs) && WellFormed(gs) && Part(gs, fs) && Fits(fs, m) && n <= |fs|
    requires EncMsg(fs, m, n).Some? && |EncMsg(fs, m, n).value| < U32
    ensures InList(gs, st) && Runs(gs, Start(Default(gs)), EncMsg(fs, m, n).value, st)
    ensures Upto(fs, gs, m, n, st)
    decreases fs, 3, n
  {
    hide WellFormed, Part, Fits, EncField, AgreeField;
    if n == 0 {
      st := Start(Default(gs));
      NothingRuns(gs, st);
      assert Upto(fs, gs, m, 0, st);
    } else {
      var before, e := EncMsg(fs, m, n - 1).value, EncField(fs[n - 1], m, n - 1).value;
      var st1 := FieldsProject(fs, gs, m, n - 1);
      st := FieldProject(fs, gs, m, n - 1, st1);
      RunsCompose(gs, Start(Default(gs)), before, st1, e, st);
    }
  }

  lemma {:induction false} RequiredAt(es: seq<Entry>, n: nat, k: nat) returns (j: nat)
    requires n <= |es| && k < RequiredBefore(es, n)
    ensures j < n && es[j].rule.Required? && RequiredBefore(es, j) == k
  {
    if es[n - 1].rule.Required? && RequiredBefore(es, n - 1) == k {
      j := n - 1;
    } else {
      j := RequiredAt(es, n - 1, k);
    }
  }

  /** Projection: what pb_encode wrote with the field list fs, pb_decode reads with any part gs of that list.
      It succeeds and consumes every byte; and it shows the same values in the fields that gs lists, exactly if none
      of them is a zero that has another default. */
  lemma {:induction false} Project(fs: seq<Field>, gs: seq<Field>, m: Msg)
    requires WellFormed(fs) && WellFormed(gs) && Part(gs, fs) && Fits(fs, m)
    requires Encode(fs, m).Some? && |Encode(fs, m).value| < U32
    ensures var r := Decode(gs, Encode(fs, m).value);
      r.Ok? && r.rest == [] && (Agree(fs, gs, m, r.value) <==> Kept(fs, gs, m))
    decreases fs, 4
  {
    var st := FieldsProject(fs, gs, m, |fs|);
    forall k | 0 <= k < RequiredBefore(Entries(gs), |gs|) && k < PB_MAX_REQUIRED_FIELDS
      ensures k in st.seen
    {
      var j := RequiredAt(Entries(gs), |gs|, k);
      assert Listed(gs[j], fs);
      var i :| 0 <= i < |fs| && FieldPart(gs[j], fs[i]);
      assert UptoPair(fs, gs, m, |fs|, st, i, j);
    }
    forall i, j | 0 <= i < |fs| && 0 <= j < |gs| && FieldPart(gs[j], fs[i])
      ensures AgreeField(fs[i], gs[j], m, i, st.msg, j) <==> KeptField(fs[i], gs[j], m, i)
    {
      assert UptoPair(fs, gs, m, |fs|, st, i, j);
    }
  }

  // ---- Consequences ----

  lemma {:induction false} FieldPartRefl(f: Field)
    ensures FieldPart(f, f)
    decreases f, 0
  {
    if f.kind.Message? {
      PartRefl(f.kind.sub);
    }
  }

  lemma {:induction false} PartRefl(fs: seq<Field>)
    ensures Part(fs, fs)
    decreases fs, 1
  {
    forall j | 0 <= j < |fs|
      ensures Listed(fs[j], fs)
    {
      FieldPartRefl(fs[j]);
    }
  }

  /** Every structure that fits a well-formed descriptor and encodes below 4 GiB is encoded and decoded, and all bytes
      are consumed. It comes back, up to what is absent, exactly if no proto3 field in it is a zero with another
      default. */
  lemma {:induction false} MessageRoundTrip(fields: seq<Field>, m: Msg)
    requires WellFormed(fields) && Fits(fields, m)
    requires Encode(fields, m).Some? ==> |Encode(fields, m).value| < U32
    ensures Encode(fields, m).Some?
    ensures var r := Decode(fields, Encode(fields, m).value);
      && r.Ok? && r.rest == [] && (Agree(fields, fields, m, r.value) <==> Kept(fields, fields, m))
      && (Kept(fields, fields, m) ==> forall i :: 0 <= i < |fields| ==>
            AgreeField(fields[i], fields[i], m, i, r.value, i))
  {
    hide WellFormed, Fits, Kept, Agree, EncMsg, DecMsg, Default;
    FitsEncodes(fields, m, |fields|);
    PartRefl(fields);
    Project(fields, fields, m);
    var d := Decode(fields, Encode(fields, m).value).value;
    if Agree(fields, fields, m, d) {
      AgreeEach(fields, m, d);
    }
  }

  lemma {:induction false} AgreeEach(fields: seq<Field>, m: Msg, d: Msg)
    requires Agree(fields, fields, m, d)
    ensures forall i :: 0 <= i < |fields| ==> AgreeField(fields[i], fields[i], m, i, d, i)
  {
    hide AgreeField;
    forall i | 0 <= i < |fields|
      ensures FieldPart(fields[i], fields[i])
    {
      FieldPartRefl(fields[i]);
    }
  }

  /** Every proto3 field that may be left out because it is zero has zero for its default, at every depth. */
  ghost predicate ZeroDefaults(fields: seq<Field>)
    decreases fields, 1
  {
    forall i :: 0 <= i < |fields| ==> ZeroDefault(fields[i])
  }

  ghost predicate ZeroDefault(f: Field)
    decreases f, 0
  {
    if f.kind.Message? then ZeroDefaults(f.kind.sub) else f.entry.rule.Singular? ==> SafeDefault(f)
  }

  /** Fixed bytes are left out only if there are none, and other kinds if they are zero or empty. */
  ghost predicate SafeDefault(f: Field)
    requires !f.kind.Message?
  {
    var d := DefaultItem(f);
    match f.kind
    case Bytes => d == VBytes([])
    case String => d.VBytes? && CString(d.bytes) == []
    case FixedBytes => f.entry.dataSize == 0 ==> d == VBytes([])
    case _ => d == VInt(0)
  }

  /** With such descriptors everything comes back. */
  lemma {:induction false} ZeroDefaultsKeep(fs: seq<Field>, gs: seq<Field>, m: Msg)
    requires ZeroDefaults(fs) && Fits(fs, m)
    ensures Kept(fs, gs, m)
    decreases fs, 2
  {
    forall i, j | 0 <= i < |fs| && 0 <= j < |gs| && FieldPart(gs[j], fs[i])
      ensures KeptField(fs[i], gs[j], m, i)
    {
      assert FitsField(fs[i], m, i) && ZeroDefault(fs[i]);
      ZeroDefaultKeeps(fs[i], gs[j], m, i);
    }
  }

  lemma {:induction false} ZeroDefaultKeeps(f: Field, g: Field, m: Msg, i: nat)
    requires ZeroDefault(f) && FitsField(f, m, i) && FieldPart(g, f)
    ensures KeptField(f, g, m, i)
    decreases f, 1
  {
    forall v | FitsItem(f, v)
      ensures KeptItem(f, g, v)
    {
      if f.kind.Message? {
        ZeroDefaultsKeep(f.kind.sub, g.kind.sub, v.msg);
      }
    }
    if f.entry.rule.Singular? && !f.kind.Message? {
      SafeKeeps(f, m.SlotAt(i).Item());
    }
  }

  lemma {:induction false} SafeKeeps(f: Field, v: Value)
    requires !f.kind.Message? && FitsItem(f, v)
    ensures SafeDefault(f) ==> KeptZero(f, v)
  {}

  /** And with no others: a field of the list that has another default has a structure, as any that fits but for this
      field, that does not come back. */
  lemma {:induction false} SingularDefault(fields: seq<Field>, m: Msg, i: nat) returns (lost: Msg)
    requires WellFormed(fields) && Fits(fields, m) && i < |fields|
    requires fields[i].entry.rule.Singular? && !fields[i].kind.Message? && !SafeDefault(fields[i])
    ensures lost == m.Put(i, Slot(false, [ZeroValue(fields[i].kind, fields[i].entry.dataSize)]))
    ensures Fits(fields, lost) && Encode(fields, lost).Some?
    ensures |Encode(fields, lost).value| < U32 ==>
      var r := Decode(fields, Encode(fields, lost).value);
      r.Ok? && r.rest == [] && !Agree(fields, fields, lost, r.value)
  {
    var f := fields[i];
    var zero := ZeroValue(f.kind, f.entry.dataSize);
    lost := m.Put(i, Slot(false, [zero]));
    assert FitsField(f, m, i);
    ZeroFits(f, m.SlotAt(i).Item());
    forall k | 0 <= k < |fields|
      ensures FitsField(fields[k], lost, k)
    {
      assert FitsField(fields[k], m, k);
      if k != i { SameElsewhere(fields[k], m, lost, k); }
    }
    FitsEncodes(fields, lost, |fields|);
    FieldPartRefl(f);
    assert !KeptField(f, f, lost, i);
    if |Encode(fields, lost).value| < U32 {
      MessageRoundTrip(fields, lost);
    }
  }

  lemma {:induction false} ZeroFits(f: Field, v: Value)
    requires !f.kind.Message? && FitsItem(f, v) && !SafeDefault(f)
    ensures var zero := ZeroValue(f.kind, f.entry.dataSize);
      FitsItem(f, zero) && IsZeroValue(f, zero) && !AgreeItem(f, f, zero, DefaultItem(f))
  {}

  lemma {:induction false} SameElsewhere(f: Field, a: Msg, b: Msg, k: nat)
    requires FitsField(f, a, k) && a.SlotAt(k) == b.SlotAt(k) && a.which == b.which
    ensures FitsField(f, b, k)
  {}
}
