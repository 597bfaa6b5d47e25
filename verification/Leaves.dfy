/** Tags and single items: what the encoder writes, the decoder reads back or skips. */
module Leaves {
  import opened Bytes
  import opened Varints
  import opened Fields
  import opened Encoding
  import opened FieldIter
  import opened Decoding
  import opened Folding

  lemma {:induction false} LittleEndianInverse(v: nat, n: nat)
    requires n <= 8 && v < Pow256(n)
    ensures FromLittleEndian(LittleEndian(v, n)) == v
  {
    if n > 0 {
      assert LittleEndian(v, n)[1..] == LittleEndian(v / 256, n - 1);
      assert Pow256(n) == 256 * Pow256(n - 1);
      LittleEndianInverse(v / 256, n - 1);
    }
  }

  lemma {:induction false} FixedRoundTrip(f: Field, n: nat, rest: seq<byte>)
    requires f.kind.Fixed32? || f.kind.Fixed64?
    requires IntFits(f.kind, f.entry.dataSize, n)
    ensures DecNumber(f, EncNumber(f.kind, n) + rest) == Ok(VInt(n), rest)
  {
    var size := if f.kind.Fixed32? then 4 else 8;
    var e := LittleEndian(n, size);
    assert Pow256(4) == 256 * 256 * 256 * 256 && Pow256(8) == 256 * 256 * 256 * 256 * Pow256(4);
    LittleEndianInverse(n, size);
    assert (e + rest)[..size] == e && (e + rest)[size..] == rest;
  }

  /** Sign extension to 64 bits and back, through 32 bits for the smaller sizes. */
  lemma {:induction false} SignedInverse(n: int)
    requires -I64 <= n < I64
    ensures Signed(n % U64, I64) == n
    ensures -I32 <= n < I32 ==> Signed(n % U64, I32) == n
  {
    if n < 0 {
      assert n % U64 == n + U64;
      if -I32 <= n {
        assert (n + U64) % U32 == n + U32;
      }
    }
  }

  /** Every number that fits its field reads back, consuming exactly its bytes. */
  lemma {:induction false} NumberRoundTrip(f: Field, n: int, rest: seq<byte>)
    requires f.kind.Packable() && IntFits(f.kind, f.entry.dataSize, n)
    ensures DecNumber(f, EncNumber(f.kind, n) + rest) == Ok(VInt(n), rest)
    ensures EncNumber(f.kind, n) != []
  {
    hide DecVarint, EncVarint;
    if f.kind.Fixed32? || f.kind.Fixed64? {
      FixedRoundTrip(f, n, rest);
    } else if f.kind.SVarint? {
      ZigZagInverse(n);
      VarintRoundTrip(ZigZag(n), rest);
    } else {
      if f.kind.Varint? { SignedInverse(n); }
      VarintRoundTrip(n % U64, rest);
    }
  }

  lemma {:induction false} PrefixedRoundTrip(payload: seq<byte>, rest: seq<byte>)
    requires |payload| < U32
    ensures TakePrefixed(Prefixed(payload) + rest) == Ok(payload, rest)
    ensures DecVarint32(Prefixed(payload) + rest) == Ok(|payload|, payload + rest)
    ensures Prefixed(payload) != []
  {
    hide DecVarint32, EncVarint;
    assert Prefixed(payload) + rest == EncVarint(|payload|) + (payload + rest);
    Varint32RoundTrip(|payload|, payload + rest);
    assert |payload| % U32 == |payload|;
    assert (payload + rest)[..|payload|] == payload && (payload + rest)[|payload|..] == rest;
  }

  lemma {:induction false} KeyRoundTrip(wireType: nat, tag: nat, rest: seq<byte>)
    requires wireType < 8 && 0 < tag < 0x2000_0000
    ensures DecVarint32(EncTag(wireType, tag) + rest) == Ok(8 * tag + wireType, rest)
  {
    hide DecVarint32, EncVarint;
    Varint32RoundTrip(8 * tag + wireType, rest);
    assert (8 * tag + wireType) % U32 == 8 * tag + wireType;
  }

  lemma {:induction false} VarintEndOfEnc(v: nat, rest: seq<byte>)
    ensures Skip(WT_VARINT, EncVarint(v) + rest) == Ok((), rest)
  {
    EncVarintShape(v, rest);
    assert (EncVarint(v) + rest)[|EncVarint(v)|..] == rest;
  }

  lemma {:induction false} SkipNumber(f: Field, n: int, rest: seq<byte>)
    requires f.kind.Packable() && IntFits(f.kind, 8, n)
    ensures Skip(WireType(f.kind), EncNumber(f.kind, n) + rest) == Ok((), rest)
  {
    hide VarintEnd, EncVarint, Skip;
    var e := EncNumber(f.kind, n);
    if f.kind.SVarint? {
      VarintEndOfEnc(ZigZag(n), rest);
    } else if f.kind.Varint? || f.kind.UVarint? {
      VarintEndOfEnc(n % U64, rest);
    } else {
      SkipFixed(f.kind, e, rest);
    }
  }

  lemma {:induction false} SkipFixed(kind: Kind, e: seq<byte>, rest: seq<byte>)
    requires (kind.Fixed32? && |e| == 4) || (kind.Fixed64? && |e| == 8)
    ensures Skip(WireType(kind), e + rest) == Ok((), rest)
  {
    assert (e + rest)[|e|..] == rest;
  }

  lemma {:induction false} SkipPrefixed(payload: seq<byte>, rest: seq<byte>)
    requires |payload| < U32
    ensures Skip(WT_STRING, Prefixed(payload) + rest) == Ok((), rest)
  {
    hide TakePrefixed, EncVarint;
    PrefixedRoundTrip(payload, rest);
  }

  /** An item is skipped as a whole by its wire type. */
  lemma {:induction false} SkipItem(f: Field, v: Value, rest: seq<byte>)
    requires EncItem(f, v).Some? && |EncItem(f, v).value| < U32
    ensures Skip(WireType(f.kind), EncItem(f, v).value + rest) == Ok((), rest)
  {
    hide Skip, EncVarint, EncNumber, EncMsg;
    if f.kind.Packable() {
      SkipNumber(f, v.n, rest);
    } else {
      var payload := if f.kind.Message? then EncMsg(f.kind.sub, v.msg, |f.kind.sub|).value
                     else if f.kind.String? then CString(v.bytes) else v.bytes;
      SkipPrefixed(payload, rest);
    }
  }

  // ---- One turn of the loop on what the encoder wrote ----

  lemma {:induction false} TurnFound(fields: seq<Field>, st: State, j: nat, wireType: nat, bs: seq<byte>)
    requires Plain(fields) && j < |fields| && st.pos < |fields| && wireType < 8 && fields[j].entry.tag < 0x2000_0000
    ensures var v := DecField(fields[j], j, wireType, st.msg, bs);
      DecTurn(fields, st, EncTag(wireType, fields[j].entry.tag) + bs)
      == if v.Fail? then Error else Go(State(v.value, MarkSeen(Entries(fields), st.seen, j), j), v.rest)
  {
    hide DecField, DecVarint32, EncTag, Skip;
    KeyRoundTrip(wireType, fields[j].entry.tag, bs);
    FindFromAnywhere(Entries(fields), st.pos, j);
  }

  lemma {:induction false} TurnSkipped(fields: seq<Field>, st: State, wireType: nat, tag: nat, bs: seq<byte>)
    requires InList(fields, st) && wireType < 8 && 0 < tag < 0x2000_0000
    requires forall j :: 0 <= j < |fields| ==> fields[j].entry.tag != tag
    ensures var s := Skip(wireType, bs);
      DecTurn(fields, st, EncTag(wireType, tag) + bs) == if s.Fail? then Error else Go(st, s.rest)
  {
    hide DecField, DecVarint32, EncTag, Skip;
    KeyRoundTrip(wireType, tag, bs);
  }
}
