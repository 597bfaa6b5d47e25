/** The bytes of DTLS records and handshake fragments (sections 4.1 and 4.2.2 of RFC 6347). */
module DtlsWire {
  import opened Bytes

  const HM_HEADER_LENGTH: nat := 12
  const RT_HEADER_LENGTH: nat := 13

  const RT_CHANGE_CIPHER_SPEC: byte := 20
  const RT_ALERT: byte := 21
  const RT_HANDSHAKE: byte := 22
  const RT_APPLICATION_DATA: byte := 23

  const MT_CCS: byte := 1

  /** A handshake fragment: the fields of its header, and its share of the message body. */
  datatype Fragment = Fragment(typ: byte, msgLen: nat, seqNo: nat, off: nat, body: seq<byte>)
  {
    /** The fields fit their places in the header. */
    predicate Fits() {
      msgLen < 0x100_0000 && seqNo < 0x1_0000 && off < 0x100_0000 && |body| < 0x100_0000
    }
  }

  function FragmentBytes(f: Fragment): seq<byte>
  {
    BigEndian(f.typ, 1) + (BigEndian(f.msgLen, 3) + (BigEndian(f.seqNo, 2) +
      (BigEndian(f.off, 3) + (BigEndian(|f.body|, 3) + f.body))))
  }

  /** dtls1_parse_fragment */
  function ParseFragment(bs: seq<byte>): (r: Parsed<Fragment>)
    ensures r.Ok? ==> r.value.Fits() && |r.rest| + HM_HEADER_LENGTH + |r.value.body| == |bs|
  {
    Pow256s();
    if |bs| < HM_HEADER_LENGTH then Fail
    else
      var typ := GetUint(bs, 1);
      var msgLen := GetUint(typ.rest, 3);
      var seqNo := GetUint(msgLen.rest, 2);
      var off := GetUint(seqNo.rest, 3);
      var len := GetUint(off.rest, 3);
      if len.value > |len.rest| then Fail
      else Ok(Fragment(typ.value, msgLen.value, seqNo.value, off.value, len.rest[..len.value]), len.rest[len.value..])
  }

  lemma {:induction false} FragmentRoundTrip(f: Fragment, rest: seq<byte>)
    requires f.Fits()
    ensures ParseFragment(FragmentBytes(f) + rest) == Ok(f, rest)
    ensures |FragmentBytes(f)| == HM_HEADER_LENGTH + |f.body|
  {
    hide BigEndian, FromBigEndian, GetUint;
    Pow256s();
    var b5 := f.body + rest;
    var b4 := BigEndian(|f.body|, 3) + b5;
    var b3 := BigEndian(f.off, 3) + b4;
    var b2 := BigEndian(f.seqNo, 2) + b3;
    var b1 := BigEndian(f.msgLen, 3) + b2;
    assert FragmentBytes(f) + rest == BigEndian(f.typ, 1) + b1;
    GetPut(f.typ, 1, b1);
    GetPut(f.msgLen, 3, b2);
    GetPut(f.seqNo, 2, b3);
    GetPut(f.off, 3, b4);
    GetPut(|f.body|, 3, b5);
    assert b5[..|f.body|] == f.body && b5[|f.body|..] == rest;
  }

  /** A record: its header with the eight bytes of epoch and sequence number, and the sealed body. */
  datatype Record = Record(typ: byte, version: nat, sequence: seq<byte>, body: seq<byte>)
  {
    predicate Fits() {
      version < 0x1_0000 && |sequence| == 8 && |body| < 0x1_0000
    }

    function Epoch(): nat
      requires Fits()
    {
      FromBigEndian(sequence[..2])
    }

    /** The sequence number with the epoch in front, as a 64-bit integer. */
    function Number(): nat {
      FromBigEndian(sequence)
    }
  }

  function RecordBytes(r: Record): seq<byte>
  {
    BigEndian(r.typ, 1) + (BigEndian(r.version, 2) + (r.sequence + (BigEndian(|r.body|, 2) + r.body)))
  }

  /** The header and body that dtls_open_record takes from the front of a packet. */
  function ParseRecord(bs: seq<byte>): (r: Parsed<Record>)
    ensures r.Ok? ==> r.value.Fits() && |r.rest| + RT_HEADER_LENGTH + |r.value.body| == |bs|
  {
    Pow256s();
    if |bs| < RT_HEADER_LENGTH then Fail
    else
      var typ := GetUint(bs, 1);
      var version := GetUint(typ.rest, 2);
      var sequence := version.rest[..8];
      var len := GetUint(version.rest[8..], 2);
      if len.value > |len.rest| then Fail
      else Ok(Record(typ.value, version.value, sequence, len.rest[..len.value]), len.rest[len.value..])
  }

  lemma {:induction false} RecordRoundTrip(r: Record, rest: seq<byte>)
    requires r.Fits()
    ensures ParseRecord(RecordBytes(r) + rest) == Ok(r, rest)
    ensures |RecordBytes(r)| == RT_HEADER_LENGTH + |r.body|
  {
    hide BigEndian, FromBigEndian, GetUint;
    Pow256s();
    var b4 := r.body + rest;
    var b3 := BigEndian(|r.body|, 2) + b4;
    var b2 := r.sequence + b3;
    var b1 := BigEndian(r.version, 2) + b2;
    assert RecordBytes(r) + rest == BigEndian(r.typ, 1) + b1;
    GetPut(r.typ, 1, b1);
    GetPut(r.version, 2, b2);
    assert b2[..8] == r.sequence && b2[8..] == b3;
    GetPut(|r.body|, 2, b4);
    assert b4[..|r.body|] == r.body && b4[|r.body|..] == rest;
  }

  // ---- The layout of the headers, byte by byte ----

  /** The two and the three bytes of bs from place i on. */
  function Two(bs: seq<byte>, i: nat): nat
    requires i + 2 <= |bs|
  {
    var a: nat, b: nat := bs[i], bs[i + 1];
    0x100 * a + b
  }

  function Three(bs: seq<byte>, i: nat): nat
    requires i + 3 <= |bs|
  {
    var a: nat, b: nat, c: nat := bs[i], bs[i + 1], bs[i + 2];
    0x1_0000 * a + 0x100 * b + c
  }

  lemma {:induction false} FewBytes(bs: seq<byte>)
    ensures |bs| == 1 ==> FromBigEndian(bs) == bs[0]
    ensures |bs| == 2 ==> FromBigEndian(bs) == Two(bs, 0)
    ensures |bs| == 3 ==> FromBigEndian(bs) == Three(bs, 0)
  {
    assert FromBigEndian([]) == 0;
    if 1 <= |bs| <= 3 {
      assert FromBigEndian(bs[..1]) == bs[0];
      if |bs| > 1 { assert bs[..2][..1] == bs[..1] && FromBigEndian(bs[..2]) == Two(bs, 0); }
    }
  }

  /** Section 4.1 of RFC 6347: type, version, epoch and sequence number, length, and as many bytes. */
  lemma {:induction false} RecordLayout(bs: seq<byte>)
    ensures ParseRecord(bs).Ok? <==> |bs| >= 13 && |bs| >= 13 + Two(bs, 11)
    ensures ParseRecord(bs).Ok? ==>
              var end := 13 + Two(bs, 11);
              ParseRecord(bs) == Ok(Record(bs[0], Two(bs, 1), bs[3..11], bs[13..end]), bs[end..])
              && ParseRecord(bs).value.Epoch() == Two(bs, 3)
  {
    hide FromBigEndian;
    Pow256s();
    if |bs| >= 13 {
      assert bs[..1] == [bs[0]] && bs[1..][..2] == [bs[1], bs[2]] && bs[1..][2..] == bs[3..];
      assert bs[3..][..8] == bs[3..11] && bs[3..][8..] == bs[11..];
      assert bs[11..][..2] == [bs[11], bs[12]] && bs[11..][2..] == bs[13..];
      assert bs[3..11][..2] == [bs[3], bs[4]];
      var len := Two(bs, 11);
      if |bs| >= 13 + len {
        assert bs[13..][..len] == bs[13..13 + len] && bs[13..][len..] == bs[13 + len..];
      }
      FewBytes([bs[0]]);
      FewBytes([bs[1], bs[2]]);
      FewBytes([bs[3], bs[4]]);
      FewBytes([bs[11], bs[12]]);
    }
  }

  /** Section 4.2.2 of RFC 6347: type, length of the message, its number, where the fragment begins, its length, and
      as many bytes. */
  lemma {:induction false} FragmentLayout(bs: seq<byte>)
    ensures ParseFragment(bs).Ok? <==> |bs| >= 12 && |bs| >= 12 + Three(bs, 9)
    ensures ParseFragment(bs).Ok? ==>
              var end := 12 + Three(bs, 9);
              ParseFragment(bs) ==
              Ok(Fragment(bs[0], Three(bs, 1), Two(bs, 4),
                          Three(bs, 6), bs[12..end]), bs[end..])
  {
    hide FromBigEndian;
    Pow256s();
    if |bs| >= 12 {
      assert bs[..1] == [bs[0]] && bs[1..][..3] == [bs[1], bs[2], bs[3]] && bs[1..][3..] == bs[4..];
      assert bs[4..][..2] == [bs[4], bs[5]] && bs[4..][2..] == bs[6..];
      assert bs[6..][..3] == [bs[6], bs[7], bs[8]] && bs[6..][3..] == bs[9..];
      assert bs[9..][..3] == [bs[9], bs[10], bs[11]] && bs[9..][3..] == bs[12..];
      var len := Three(bs, 9);
      if |bs| >= 12 + len {
        assert bs[12..][..len] == bs[12..12 + len] && bs[12..][len..] == bs[12 + len..];
      }
      FewBytes([bs[0]]);
      FewBytes([bs[1], bs[2], bs[3]]);
      FewBytes([bs[4], bs[5]]);
      FewBytes([bs[6], bs[7], bs[8]]);
      FewBytes([bs[9], bs[10], bs[11]]);
    }
  }
}
