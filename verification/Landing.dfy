/** What a record does to a structure, whatever is in it already, and which messages lack a required field: stated by
    the records of the input and the numbers of the standard. */
module Landing {
  import opened Bytes
  import opened Varints
  import opened Fields
  import opened FieldIter
  import opened Decoding
  import opened Folding
  import opened Leaves

  // ---- Required fields ----

  /** The field numbers of the records that the loop takes, in order. */
  function Taken(fields: seq<Field>, st: State, bs: seq<byte>): seq<nat>
    requires InList(fields, st)
    decreases |bs|
  {
    if bs == [] then []
    else match DecTurn(fields, st, bs)
      case Go(next, rest) => [DecVarint32(bs).value / 8] + Taken(fields, next, rest)
      case _ => []
  }

  /** How many required fields there are before field i. */
  function Earlier(fields: seq<Field>, i: nat): nat
    requires i <= |fields|
  {
    |set j | 0 <= j < i && fields[j].entry.rule.Required?|
  }

  lemma {:induction false} EarlierIsCount(fields: seq<Field>, i: nat)
    requires i <= |fields|
    ensures Earlier(fields, i) == RequiredBefore(Entries(fields), i)
  {
    var before := set j | 0 <= j < i && fields[j].entry.rule.Required?;
    if i == 0 {
      assert before == {};
    } else {
      EarlierIsCount(fields, i - 1);
      var fewer := set j | 0 <= j < i - 1 && fields[j].entry.rule.Required?;
      if fields[i - 1].entry.rule.Required? {
        assert before == fewer + {i - 1};
      } else {
        assert before == fewer;
      }
    }
  }

  lemma {:induction false} BeforeGrows(es: seq<Entry>, i: nat, j: nat)
    requires i < j <= |es|
    ensures RequiredBefore(es, i) + (if es[i].rule.Required? then 1 else 0) <= RequiredBefore(es, j)
    decreases j
  {
    if i < j - 1 { BeforeGrows(es, i, j - 1); }
  }

  /** Field i is the required field number k, counted from 0, and is tracked. */
  predicate Tracks(fields: seq<Field>, i: nat, k: nat)
    requires i < |fields|
  {
    fields[i].entry.rule.Required? && RequiredBefore(Entries(fields), i) == k && k < PB_MAX_REQUIRED_FIELDS
  }

  ghost predicate Recorded(fields: seq<Field>, tags: seq<nat>, k: nat)
  {
    exists i :: 0 <= i < |fields| && Tracks(fields, i, k) && fields[i].entry.tag in tags
  }

  /** What one turn adds to the required fields seen. */
  lemma {:induction false} TurnMarks(fields: seq<Field>, st: State, bs: seq<byte>, k: nat)
    requires Plain(fields) && InList(fields, st) && DecTurn(fields, st, bs).Go?
    ensures DecVarint32(bs).Ok?
    ensures k in DecTurn(fields, st, bs).state.seen <==>
              k in st.seen || Recorded(fields, [DecVarint32(bs).value / 8], k)
  {
    hide DecVarint32, DecField, Skip, RequiredBefore, FindFrom;
    var tag := DecVarint32(bs).value / 8;
    if fields != [] {
      var es := Entries(fields);
      var found := FindFrom(es, st.pos, tag, |fields|);
      forall i | 0 <= i < |fields| && fields[i].entry.tag == tag
        ensures found == Some(i)
      {
        FindFromAnywhere(es, st.pos, i);
      }
    }
  }

  lemma {:induction false} NoneRecorded(fields: seq<Field>, k: nat)
    ensures !Recorded(fields, [], k)
  {}

  lemma {:induction false} RecordedMore(fields: seq<Field>, tag: nat, tags: seq<nat>, k: nat)
    ensures Recorded(fields, [tag] + tags, k) <==> Recorded(fields, [tag], k) || Recorded(fields, tags, k)
  {
    hide Tracks;
  }

  lemma {:induction false} LoopMarks(fields: seq<Field>, st: State, bs: seq<byte>, k: nat)
    requires Plain(fields) && InList(fields, st) && DecLoop(fields, st, bs).Done?
    ensures k in DecLoop(fields, st, bs).state.seen <==> k in st.seen || Recorded(fields, Taken(fields, st, bs), k)
    decreases |bs|
  {
    hide DecTurn, Tracks, DecVarint32, Recorded;
    NoneRecorded(fields, k);
    if bs != [] && DecTurn(fields, st, bs).Go? {
      var next, rest := DecTurn(fields, st, bs).state, DecTurn(fields, st, bs).rest;
      TurnMarks(fields, st, bs, k);
      LoopMarks(fields, next, rest, k);
      RecordedMore(fields, DecVarint32(bs).value / 8, Taken(fields, next, rest), k);
    }
  }

  /** A message is accepted exactly when the loop ends without an error and each of the first 64 required fields is the
      field of some record that was taken. */
  lemma {:induction false} RequiredTaken(fields: seq<Field>, m: Msg, bs: seq<byte>)
    requires Plain(fields)
    ensures DecMsg(fields, m, bs).Ok? <==>
              && DecLoop(fields, Start(m), bs).Done?
              && forall i :: 0 <= i < |fields| && fields[i].entry.rule.Required? && Earlier(fields, i) < 64 ==>
                               fields[i].entry.tag in Taken(fields, Start(m), bs)
  {
    hide DecLoop, Taken, RequiredBefore, Earlier, AllSeen;
    if DecLoop(fields, Start(m), bs).Done? {
      var es, seen := Entries(fields), DecLoop(fields, Start(m), bs).state.seen;
      AllSeenMeans(fields, seen);
      forall i | 0 <= i < |fields| && fields[i].entry.rule.Required? && Earlier(fields, i) < 64
        ensures RequiredBefore(es, i) in seen <==> fields[i].entry.tag in Taken(fields, Start(m), bs)
      {
        EarlierIsCount(fields, i);
        LoopMarks(fields, Start(m), bs, RequiredBefore(es, i));
        OnlyOne(fields, i, Taken(fields, Start(m), bs));
      }
    }
  }

  lemma {:induction false} AllSeenMeans(fields: seq<Field>, seen: set<nat>)
    ensures AllSeen(Entries(fields), seen) <==>
              forall i :: 0 <= i < |fields| && fields[i].entry.rule.Required? && Earlier(fields, i) < 64 ==>
                            RequiredBefore(Entries(fields), i) in seen
  {
    hide RequiredBefore, Earlier;
    var es := Entries(fields);
    forall i | 0 <= i < |fields| && fields[i].entry.rule.Required?
      ensures Earlier(fields, i) == RequiredBefore(es, i) < RequiredBefore(es, |es|)
    {
      EarlierIsCount(fields, i);
      BeforeGrows(es, i, |es|);
    }
    if forall i :: 0 <= i < |fields| && fields[i].entry.rule.Required? && Earlier(fields, i) < 64 ==>
                     RequiredBefore(es, i) in seen {
      forall k: nat | k < RequiredBefore(es, |es|) && k < PB_MAX_REQUIRED_FIELDS
        ensures k in seen
      {
        var i := RequiredNumber(fields, |fields|, k);
      }
    }
  }

  lemma {:induction false} OnlyOne(fields: seq<Field>, i: nat, tags: seq<nat>)
    requires i < |fields| && fields[i].entry.rule.Required?
    requires RequiredBefore(Entries(fields), i) < PB_MAX_REQUIRED_FIELDS
    ensures Recorded(fields, tags, RequiredBefore(Entries(fields), i)) <==> fields[i].entry.tag in tags
  {
    hide RequiredBefore;
    var es := Entries(fields);
    assert Tracks(fields, i, RequiredBefore(es, i));
    forall j | 0 <= j < |fields| && Tracks(fields, j, RequiredBefore(es, i))
      ensures j == i
    {
      if j < i { BeforeGrows(es, j, i); }
      if i < j { BeforeGrows(es, i, j); }
    }
  }

  lemma {:induction false} RequiredNumber(fields: seq<Field>, n: nat, k: nat) returns (i: nat)
    requires n <= |fields| && k < RequiredBefore(Entries(fields), n)
    ensures i < n && fields[i].entry.rule.Required? && RequiredBefore(Entries(fields), i) == k
    decreases n
  {
    if fields[n - 1].entry.rule.Required? && RequiredBefore(Entries(fields), n - 1) == k {
      i := n - 1;
    } else {
      i := RequiredNumber(fields, n - 1, k);
    }
  }

  // ---- Numbers and bytes ----

  /** The number that the low bits of u are in two's complement, where half is half the range. */
  function TwosComplement(u: nat, half: nat): int
    requires half > 0
  {
    var low := u % (2 * half);
    if low < half then low else low - 2 * half
  }

  /** What a 64-bit number comes to in a field of the given size in bytes: a signed one of up to four bytes takes the
      low 32 bits, and then as for all others a number that does not fit is an error. */
  function NumberIn(f: Field, u: nat): (r: Option<int>)
    requires u < 0x1_0000_0000_0000_0000
  {
    var size := f.entry.dataSize;
    var bits := if size == 1 then 0x80 else if size == 2 then 0x8000 else if size == 4 then 0x8000_0000
                else if size == 8 then 0x8000_0000_0000_0000 else 0;
    var n := if f.kind.UVarint? then u
             else if f.kind.SVarint? then (if u % 2 == 0 then u / 2 else -(u / 2) - 1)
             else TwosComplement(u, if size == 8 then 0x8000_0000_0000_0000 else 0x8000_0000);
    if (if f.kind.UVarint? then n < 2 * bits else -bits <= n < bits) then Some(n) else None
  }

  lemma {:induction false} NumberRead(f: Field, u: nat, rest: seq<byte>)
    requires (f.kind.Varint? || f.kind.UVarint? || f.kind.SVarint?) && u < 0x1_0000_0000_0000_0000
    ensures DecNumber(f, EncVarint(u) + rest) ==
            if NumberIn(f, u).Some? then Ok(VInt(NumberIn(f, u).value), rest) else Fail
  {
    hide DecVarint, EncVarint;
    VarintRoundTrip(u, rest);
  }

  /** Bytes fit with the length in front of them, a string with its terminator, and bytes of fixed length exactly, or
      none at all for zeros. */
  function BlobIn(f: Field, b: seq<byte>): Option<Value>
  {
    match f.kind
    case Bytes => if |b| <= PB_SIZE_MAX && |b| + BYTES_OFFSET <= f.entry.dataSize then Some(VBytes(b)) else None
    case String => if |b| < f.entry.dataSize then Some(VBytes(b)) else None
    case _ =>
      if |b| > PB_SIZE_MAX then None
      else if b == [] then Some(VBytes(seq(f.entry.dataSize, _ => 0)))
      else if |b| == f.entry.dataSize then Some(VBytes(b)) else None
  }

  lemma {:induction false} BlobRead(f: Field, b: seq<byte>, rest: seq<byte>)
    requires (f.kind.Bytes? || f.kind.String? || f.kind.FixedBytes?) && |b| < 0x1_0000_0000
    ensures DecBlob(f, EncVarint(|b|) + b + rest) ==
            if BlobIn(f, b).Some? then Ok(BlobIn(f, b).value, rest) else Fail
  {
    hide DecVarint32, EncVarint;
    PrefixedRoundTrip(b, rest);
    assert (b + rest)[..|b|] == b && (b + rest)[|b|..] == rest;
  }

  // ---- One record ----

  /** The structure with an item read into field i: appended to an array; as the only contents of any other field,
      whatever was there, whose flag is set if it has one, or which is selected in its oneof. */
  function Landed(fields: seq<Field>, m: Msg, i: nat, v: Value): Msg
    requires i < |fields| == |m.slots|
  {
    var f, s := fields[i], m.slots[i];
    match f.entry.rule
    case Required => m.(slots := m.slots[i := Slot(s.has, [v])])
    case Singular => m.(slots := m.slots[i := Slot(s.has, [v])])
    case Optional => m.(slots := m.slots[i := Slot(true, [v])])
    case Repeated => m.(slots := m.slots[i := Slot(s.has, s.items + [v])])
    case Oneof(group) => Msg(m.slots[i := Slot(s.has, [v])], m.which[group := f.entry.tag])
  }

  /** The item of a record lands in its field, unless it cannot be read or the field is an array that is full. The low
      bits of the key matter only for an array of numbers, where 2 is for a packed run. */
  lemma {:induction false} RecordLands(fields: seq<Field>, st: State, i: nat, low: nat, bs: seq<byte>)
    requires Plain(fields) && i < |fields| == |st.msg.slots| && st.pos < |fields| && fields[i].entry.tag < 0x2000_0000
    requires low < 8 && !fields[i].kind.Message?
    requires fields[i].entry.rule.Repeated? && fields[i].kind.Packable() ==> low != 2
    ensures var f, key, v := fields[i], EncVarint(8 * fields[i].entry.tag + low), DecItem(fields[i], VInt(0), bs);
      DecTurn(fields, st, key + bs) ==
      if v.Fail? || (f.entry.rule.Repeated? && |st.msg.slots[i].items| >= f.entry.arraySize) then Error
      else Go(State(Landed(fields, st.msg, i, v.value), MarkSeen(Entries(fields), st.seen, i), i), v.rest)
  {
    hide DecNumber, DecBlob, DecTurn, EncVarint, MarkSeen;
    TurnFound(fields, st, i, low, bs);
  }

  /** The numbers of a packed run, one behind the other to its end. */
  function Numbers(f: Field, body: seq<byte>): Option<seq<Value>>
    requires f.kind.Packable()
    decreases |body|
  {
    if body == [] then Some([])
    else match DecNumber(f, body)
      case Fail => None
      case Ok(v, rest) =>
        match Numbers(f, rest)
        case None => None
        case Some(vs) => Some([v] + vs)
  }

  lemma {:induction false} RunAppends(f: Field, items: seq<Value>, body: seq<byte>)
    requires f.kind.Packable() && |items| <= f.entry.arraySize
    ensures DecPacked(f, items, body) ==
            if Numbers(f, body).Some? && |items| + |Numbers(f, body).value| <= f.entry.arraySize
            then Some(items + Numbers(f, body).value) else None
    decreases |body|
  {
    hide DecNumber;
    if body == [] {
      assert items + [] == items;
    } else if |items| < f.entry.arraySize && DecNumber(f, body).Ok? {
      var v, rest := DecNumber(f, body).value, DecNumber(f, body).rest;
      RunAppends(f, items + [v], rest);
      if Numbers(f, rest).Some? {
        assert items + [v] + Numbers(f, rest).value == items + ([v] + Numbers(f, rest).value);
      }
    }
  }

  /** A packed run lands in an array of numbers as a whole, if all of it can be read and there is room for it. */
  lemma {:induction false} RunLands(fields: seq<Field>, st: State, i: nat, body: seq<byte>, rest: seq<byte>)
    requires Plain(fields) && i < |fields| == |st.msg.slots| && st.pos < |fields| && fields[i].entry.tag < 0x2000_0000
    requires fields[i].entry.rule.Repeated? && fields[i].kind.Packable() && |body| < 0x1_0000_0000
    requires |st.msg.slots[i].items| <= fields[i].entry.arraySize
    ensures var f, s, key := fields[i], st.msg.slots[i], EncVarint(8 * fields[i].entry.tag + 2);
      var run := Numbers(f, body);
      DecTurn(fields, st, key + (EncVarint(|body|) + body + rest)) ==
      if run.None? || |s.items| + |run.value| > f.entry.arraySize then Error
      else Go(State(st.msg.(slots := st.msg.slots[i := Slot(s.has, s.items + run.value)]),
                    MarkSeen(Entries(fields), st.seen, i), i), rest)
  {
    hide DecNumber, DecTurn, EncVarint, MarkSeen, TakePrefixed, Numbers, DecPacked;
    PrefixedRoundTrip(body, rest);
    TurnFound(fields, st, i, 2, EncVarint(|body|) + body + rest);
    RunAppends(fields[i], st.msg.slots[i].items, body);
  }

  /** A submessage is merged into what is there; in an array and in a oneof it starts from the defaults. */
  lemma {:induction false} MessageLands(fields: seq<Field>, st: State, i: nat, body: seq<byte>, rest: seq<byte>)
    requires Plain(fields) && i < |fields| == |st.msg.slots| && st.pos < |fields| && fields[i].entry.tag < 0x2000_0000
    requires fields[i].kind.Message? && |body| < 0x1_0000_0000
    ensures var f, s, key := fields[i], st.msg.slots[i], EncVarint(8 * fields[i].entry.tag + 2);
      var there := !f.entry.rule.Repeated? && !f.entry.rule.Oneof? && s.items != [] && s.items[0].VMsg?;
      var r := DecMsg(f.kind.sub, if there then s.items[0].msg else Default(f.kind.sub), body);
      DecTurn(fields, st, key + (EncVarint(|body|) + body + rest)) ==
      if r.Fail? || (f.entry.rule.Repeated? && |s.items| >= f.entry.arraySize) then Error
      else Go(State(Landed(fields, st.msg, i, VMsg(r.value)), MarkSeen(Entries(fields), st.seen, i), i), rest)
  {
    hide DecMsg, DecTurn, EncVarint, MarkSeen, TakePrefixed, Default;
    PrefixedRoundTrip(body, rest);
    TurnFound(fields, st, i, 2, EncVarint(|body|) + body + rest);
  }
}
