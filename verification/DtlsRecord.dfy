/** The DTLS record layer: what it accepts, what it sends, and how it numbers records (dtls_record.cc,
    dtls_method.cc). */
module DtlsRecord {
  import opened Bytes
  import opened DtlsWire
  import opened Replay

  const MAX_PLAIN_LENGTH: nat := 16384
  /** SSL3_RT_MAX_ENCRYPTED_OVERHEAD: what sealing may add is a choice of the library. */
  const MAX_ENCRYPTED_OVERHEAD: nat
  const MAX_ENCRYPTED_LENGTH: nat := MAX_PLAIN_LENGTH + MAX_ENCRYPTED_OVERHEAD
  const VERSION_MAJOR: nat := 0xFE
  const EPOCHS: nat := 0x1_0000
  const NUMBERS: nat := 0x1_0000_0000_0000

  /** The protection of one direction of a connection: for every epoch, sealing and opening a record given its
      type, version and sequence bytes, and what sealing may add. Epoch 0 is the null cipher. */
  datatype Protection = Protection(
    seal: (nat, byte, nat, seq<byte>, seq<byte>) -> seq<byte>,
    open: (nat, byte, nat, seq<byte>, seq<byte>) -> Option<seq<byte>>,
    maxOverhead: nat -> nat,
    nonceLen: nat -> nat,
    recordVersion: nat -> nat)
  {
    /** What was sealed opens again; sealing adds no more than its overhead, of which the nonce is part. */
    ghost predicate Sound() {
      && (forall e: nat, t: byte, v: nat, s: seq<byte>, p: seq<byte> {:trigger seal(e, t, v, s, p)} ::
            open(e, t, v, s, seal(e, t, v, s, p)) == Some(p) && |seal(e, t, v, s, p)| <= |p| + maxOverhead(e))
      && (forall e: nat {:trigger nonceLen(e)} :: nonceLen(e) <= maxOverhead(e))
      && (forall e: nat {:trigger recordVersion(e)} :: recordVersion(e) < 0x1_0000)
    }
  }

  // ---- Reading ----

  /** What dtls_open_record makes of the front of a packet. Alerts are handed up. */
  datatype Opened =
    | Partial
    | Discard(consumed: nat)
    | Error
    | Success(typ: byte, number: nat, text: seq<byte>, consumed: nat)

  ghost function Examine(p: Protection, epoch: nat, nullCipher: bool, recorded: set<nat>,
                         packet: seq<byte>): (r: Opened)
    ensures packet == [] <==> r.Partial?
    ensures r.Discard? ==> 0 < r.consumed <= |packet|
    ensures r.Success? ==> 0 < r.consumed <= |packet|
  {
    if packet == [] then Partial
    else match ParseRecord(packet)
      case Fail => Discard(|packet|)
      case Ok(rec, rest) =>
        var versionOk := if nullCipher then rec.version / 0x100 == VERSION_MAJOR
                         else rec.version == p.recordVersion(epoch);
        if |rec.body| > MAX_ENCRYPTED_LENGTH || !versionOk then Discard(|packet|)
        else if rec.Epoch() != epoch || Stale(recorded, rec.Number()) then Discard(|packet| - |rest|)
        else match p.open(epoch, rec.typ, rec.version, rec.sequence, rec.body)
          case None => Discard(|packet| - |rest|)
          case Some(text) =>
            if |text| > MAX_PLAIN_LENGTH then Error
            else Success(rec.typ, rec.Number(), text, |packet| - |rest|)
  }

  lemma {:induction false} NotRecorded(recorded: set<nat>, n: nat)
    requires !Stale(recorded, n)
    ensures n !in recorded
  {}

  /** A whole record is in front, of a length that is allowed and in the version that is spoken. */
  ghost predicate Legible(p: Protection, epoch: nat, nullCipher: bool, bs: seq<byte>)
  {
    && |bs| >= 13 && |bs| >= 13 + Two(bs, 11)
    && Two(bs, 11) <= 16384 + MAX_ENCRYPTED_OVERHEAD
    && (if nullCipher then bs[1] == 0xFE else Two(bs, 1) == p.recordVersion(epoch))
  }

  /** What becomes of a packet, by its bytes. */
  lemma {:induction false} OpenedBytes(p: Protection, epoch: nat, nullCipher: bool, recorded: set<nat>, bs: seq<byte>)
    ensures bs != [] && !Legible(p, epoch, nullCipher, bs) ==>
              Examine(p, epoch, nullCipher, recorded, bs) == Discard(|bs|)
    ensures Legible(p, epoch, nullCipher, bs) ==>
              var len := Two(bs, 11);
              var number := FromBigEndian(bs[3..11]);
              var text := p.open(epoch, bs[0], Two(bs, 1), bs[3..11], bs[13..13 + len]);
              Examine(p, epoch, nullCipher, recorded, bs) ==
              if || Two(bs, 3) != epoch || text.None?
                 || number in recorded || exists r :: r in recorded && number + 64 <= r then Discard(13 + len)
              else if |text.value| > 16384 then Error
              else Success(bs[0], number, text.value, 13 + len)
  {
    hide FromBigEndian, ParseRecord;
    RecordLayout(bs);
  }

  class Reader {
    const protection: Protection
    const bitmap: Bitmap
    var rEpoch: nat
    var nullCipher: bool
    /** The 64-bit numbers, epoch in front, of all records accepted in the life of the connection. */
    ghost var accepted: set<nat>
    ghost var wrapped: bool

    ghost predicate Valid()
      reads this, bitmap
    {
      && bitmap.Valid() && rEpoch < EPOCHS
      && (!wrapped ==> forall n :: n in accepted ==>
            n / NUMBERS <= rEpoch && (n / NUMBERS == rEpoch ==> n in bitmap.recorded))
    }

    constructor (p: Protection)
      ensures Valid() && fresh(bitmap) && protection == p
      ensures rEpoch == 0 && nullCipher && accepted == {} && bitmap.recorded == {} && !wrapped
    {
      protection, rEpoch, nullCipher, accepted, wrapped := p, 0, true, {}, false;
      bitmap := new Bitmap();
    }

    /** dtls_open_record. A record is accepted at most once in the life of a connection whose epochs do not wrap
        around; one that does not open leaves the window as it was. */
    method OpenRecord(packet: seq<byte>) returns (r: Opened)
      requires Valid()
      modifies this`accepted, bitmap
      ensures Valid()
      ensures r == Examine(protection, rEpoch, nullCipher, old(bitmap.recorded), packet)
      ensures r.Success? ==> bitmap.recorded == old(bitmap.recorded) + {r.number}
      ensures r.Success? ==> accepted == old(accepted) + {r.number}
      ensures r.Success? && !wrapped ==> r.number !in old(accepted)
      ensures !r.Success? ==> unchanged(bitmap) && accepted == old(accepted)
    {
      hide ParseRecord, FromBigEndian, Stale, Pow256;
      if packet == [] {
        return Partial;
      }
      var parsed := ParseRecord(packet);
      if parsed.Fail? || |parsed.value.body| > MAX_ENCRYPTED_LENGTH {
        return Discard(|packet|);
      }
      var rec, rest := parsed.value, parsed.rest;
      var versionOk: bool;
      if nullCipher {
        versionOk := rec.version / 0x100 == VERSION_MAJOR;
      } else {
        versionOk := rec.version == protection.recordVersion(rEpoch);
      }
      if !versionOk {
        return Discard(|packet|);
      }
      var number := ToU64(rec.sequence);
      EpochInFront(rec.sequence);
      if rec.Epoch() != rEpoch {
        return Discard(|packet| - |rest|);
      }
      var stale := bitmap.ShouldDiscard(number);
      if stale {
        return Discard(|packet| - |rest|);
      }
      NotRecorded(bitmap.recorded, number);
      var text := protection.open(rEpoch, rec.typ, rec.version, rec.sequence, rec.body);
      if text.None? {
        return Discard(|packet| - |rest|);
      }
      if |text.value| > MAX_PLAIN_LENGTH {
        return Error;
      }
      bitmap.Record(number);
      accepted := accepted + {number};
      return Success(rec.typ, number, text.value, |packet| - |rest|);
    }

    /** The record part of dtls1_set_read_state. */
    method NextEpoch()
      requires Valid()
      modifies this, bitmap
      ensures Valid() && rEpoch == (old(rEpoch) + 1) % 0x1_0000 && !nullCipher && bitmap.recorded == {}
      ensures accepted == old(accepted) && (wrapped <==> old(wrapped) || old(rEpoch) + 1 == 0x1_0000)
    {
      wrapped := wrapped || rEpoch + 1 == EPOCHS;
      rEpoch := (rEpoch + 1) % EPOCHS;
      bitmap.Clear();
      nullCipher := false;
    }
  }

  lemma {:induction false} EpochInFront(sequence: seq<byte>)
    requires |sequence| == 8
    ensures FromBigEndian(sequence) / NUMBERS == FromBigEndian(sequence[..2])
    ensures FromBigEndian(sequence) < EPOCHS * NUMBERS
  {
    Pow256s();
    assert sequence == sequence[..2] + sequence[2..];
    FromBigEndianConcat(sequence[..2], sequence[2..]);
  }

  // ---- Writing ----

  /** ssl_record_sequence_update over the bytes from the given one on: a counter that reports its overflow. */
  method SequenceUpdate(a: array<byte>, from: nat) returns (ok: bool)
    requires from <= a.Length
    modifies a
    ensures a[..from] == old(a[..from])
    ensures var n := FromBigEndian(old(a[from..])) + 1;
      FromBigEndian(a[from..]) == (if ok then n else 0) && (ok <==> n < Pow256(a.Length - from))
  {
    ghost var was := a[..];
    var i := a.Length;
    while i > from
      invariant from <= i <= a.Length
      invariant a[..i] == was[..i] && forall k :: i <= k < a.Length ==> a[k] == 0 && was[k] == 255
    {
      i := i - 1;
      a[i] := if a[i] == 255 then 0 else a[i] + 1;
      if a[i] != 0 {
        Counted(was, a[..], from, i);
        return true;
      }
    }
    Zeros(a[from..]);
    Nines(was[from..]);
    return false;
  }

  lemma {:induction false} Zeros(bs: seq<byte>)
    requires forall k :: 0 <= k < |bs| ==> bs[k] == 0
    ensures FromBigEndian(bs) == 0
  {
    if bs != [] { Zeros(bs[..|bs| - 1]); }
  }

  lemma {:induction false} Nines(bs: seq<byte>)
    requires forall k :: 0 <= k < |bs| ==> bs[k] == 255
    ensures FromBigEndian(bs) + 1 == Pow256(|bs|)
  {
    if bs != [] { Nines(bs[..|bs| - 1]); }
  }

  lemma {:induction false} Counted(was: seq<byte>, now: seq<byte>, from: nat, i: nat)
    requires from <= i < |was| == |now|
    requires now[..i] == was[..i] && was[i] < 255 && now[i] == was[i] + 1
    requires forall k :: i < k < |was| ==> now[k] == 0 && was[k] == 255
    ensures FromBigEndian(now[from..]) == FromBigEndian(was[from..]) + 1
    ensures FromBigEndian(now[from..]) < Pow256(|was| - from)
    decreases |was|
  {
    var n := |was| - 1;
    assert was[from..][..n - from] == was[..n][from..] && now[from..][..n - from] == now[..n][from..];
    if i < n {
      assert now[..n][..i] == now[..i] && was[..n][..i] == was[..i];
      Counted(was[..n], now[..n], from, i);
    } else {
      assert now[..n] == was[..n];
    }
  }

  /** True unless a counter has run over. */
  ghost predicate Numbered(emitted: set<nat>, epoch: nat, next: nat, last: nat)
  {
    forall n :: n in emitted ==>
      && n / NUMBERS <= epoch
      && (n / NUMBERS == epoch ==> n % NUMBERS < next)
      && (n / NUMBERS == epoch - 1 ==> n % NUMBERS < last)
  }

  /** The next number of the current or of the previous epoch is new. */
  lemma {:induction false} NumberedMore(emitted: set<nat>, epoch: nat, next: nat, last: nat, usePrevious: bool)
    requires usePrevious ==> epoch >= 1
    requires next < NUMBERS && last < NUMBERS
    ensures Numbered(emitted, epoch, next, last) ==>
              if usePrevious then
                && (epoch - 1) * NUMBERS + last !in emitted && Numbered(emitted, epoch, next, last + 1)
                && Numbered(emitted + {(epoch - 1) * NUMBERS + last}, epoch, next, last + 1)
              else
                && epoch * NUMBERS + next !in emitted && Numbered(emitted, epoch, next + 1, last)
                && Numbered(emitted + {epoch * NUMBERS + next}, epoch, next + 1, last)
  {}

  lemma {:induction false} RecordLength(r: Record)
    requires r.Fits()
    ensures |RecordBytes(r)| == RT_HEADER_LENGTH + |r.body|
  {}

  class Writer {
    const protection: Protection
    const writeSequence: array<byte>
    const lastWriteSequence: array<byte>
    var wEpoch: nat
    /** The 64-bit numbers, epoch in front, of all records sealed. */
    ghost var emitted: set<nat>
    /** No sequence number and no epoch has run over. */
    ghost var counted: bool

    ghost predicate Valid()
      reads this, writeSequence, lastWriteSequence
    {
      && writeSequence.Length == 8 && lastWriteSequence.Length == 8 && writeSequence != lastWriteSequence
      && wEpoch < EPOCHS
      && (counted ==> Numbered(emitted, wEpoch, Next(), Last()))
    }

    ghost function Next(): nat
      requires writeSequence.Length == 8
      reads writeSequence
    {
      FromBigEndian(writeSequence[2..])
    }

    ghost function Last(): nat
      requires lastWriteSequence.Length == 8
      reads lastWriteSequence
    {
      FromBigEndian(lastWriteSequence[2..])
    }

    /** The next numbers of the current epoch and of the one before. */
    ghost predicate Counters(next: nat, last: nat)
      requires writeSequence.Length == lastWriteSequence.Length == 8
      reads writeSequence, lastWriteSequence
    {
      Next() == next && Last() == last
    }

    constructor (p: Protection)
      ensures Valid() && fresh(writeSequence) && fresh(lastWriteSequence) && protection == p
      ensures wEpoch == 0 && emitted == {} && counted && Counters(0, 0)
    {
      protection, wEpoch, emitted, counted := p, 0, {}, true;
      writeSequence, lastWriteSequence := new byte[8](_ => 0), new byte[8](_ => 0);
      new;
      Zeros(writeSequence[2..]);
      Zeros(lastWriteSequence[2..]);
    }

    /** The epoch a record is sealed in. */
    function SealEpoch(usePrevious: bool): nat
      reads this`wEpoch
    {
      if usePrevious && wEpoch >= 1 then wEpoch - 1 else wEpoch
    }

    function MaxSealOverhead(usePrevious: bool): nat
      reads this`wEpoch
    {
      RT_HEADER_LENGTH + protection.maxOverhead(SealEpoch(usePrevious))
    }

    function SealPrefixLen(usePrevious: bool): nat
      reads this`wEpoch
    {
      RT_HEADER_LENGTH + protection.nonceLen(SealEpoch(usePrevious))
    }

    /** The bytes of epoch and sequence number of the next record. */
    ghost function Header(usePrevious: bool): seq<byte>
      requires writeSequence.Length == lastWriteSequence.Length == 8
      reads this, writeSequence, lastWriteSequence
    {
      BigEndian(SealEpoch(usePrevious), 2) + (if usePrevious then lastWriteSequence[2..] else writeSequence[2..])
    }

    /** Length of the record. */
    ghost function SealSize(header: seq<byte>, typ: byte, text: seq<byte>, usePrevious: bool): nat
      reads this`wEpoch
    {
      RT_HEADER_LENGTH + |protection.seal(SealEpoch(usePrevious), typ, protection.recordVersion(wEpoch), header, text)|
    }

    /** dtls_seal_record. The version is always that of the current epoch. As long as no counter runs over, no
        two records have the same epoch and sequence number, retransmissions in the previous epoch included. */
    method SealRecord(maxOut: nat, typ: byte, text: seq<byte>, usePrevious: bool) returns (ok: bool, rec: Record)
      requires Valid() && protection.Sound() && (usePrevious ==> wEpoch >= 1)
      modifies this`emitted, this`counted, writeSequence, lastWriteSequence
      ensures Valid()
      ensures ok ==>
                && rec.Fits() && |RecordBytes(rec)| <= maxOut && rec.Epoch() == SealEpoch(usePrevious)
                && rec.typ == typ && rec.version == protection.recordVersion(wEpoch)
                && rec.body == protection.seal(SealEpoch(usePrevious), typ, rec.version, rec.sequence, text)
                && rec.Number() == SealEpoch(usePrevious) * NUMBERS + old(if usePrevious then Last() else Next())
                && emitted == old(emitted) + {rec.Number()}
      ensures ok && old(counted) ==> rec.Number() !in old(emitted)
      ensures !ok ==> emitted == old(emitted)
      ensures ok <==> SealSize(old(Header(usePrevious)), typ, text, usePrevious) <= maxOut
                      && SealSize(old(Header(usePrevious)), typ, text, usePrevious) < RT_HEADER_LENGTH + 0x1_0000
                      && old(if usePrevious then Last() else Next()) + 1 < NUMBERS
      ensures SealSize(old(Header(usePrevious)), typ, text, usePrevious) <= MaxSealOverhead(usePrevious) + |text|
      ensures counted <==> old(counted) && (SealSize(old(Header(usePrevious)), typ, text, usePrevious) > maxOut
                                            || old(if usePrevious then Last() else Next()) + 1 < NUMBERS)
      ensures ok || counted ==>
                var used := if SealSize(old(Header(usePrevious)), typ, text, usePrevious) <= maxOut then 1 else 0;
                Counters(old(Next()) + if usePrevious then 0 else used, old(Last()) + if usePrevious then used else 0)
    {
      hide FromBigEndian, BigEndian, RecordBytes, Numbered, Pow256;
      var epoch := SealEpoch(usePrevious);
      var sequence := if usePrevious then lastWriteSequence else writeSequence;
      var version := protection.recordVersion(wEpoch);
      var header := BigEndian(epoch, 2) + sequence[2..];
      rec := Record(typ, version, header, []);
      if maxOut < RT_HEADER_LENGTH {
        return false, rec;
      }
      var body := protection.seal(epoch, typ, version, header, text);
      if |body| > maxOut - RT_HEADER_LENGTH {
        return false, rec;
      }
      HeaderMeaning(epoch, sequence[2..]);
      Pow256s();
      NumberedMore(emitted, wEpoch, Next(), Last(), usePrevious);
      ok := SequenceUpdate(sequence, 2);
      if !ok {
        counted := false;
        return;
      }
      if |body| >= 0x1_0000 {
        return false, rec;
      }
      rec := Record(typ, version, header, body);
      emitted := emitted + {rec.Number()};
      RecordLength(rec);
    }

    /** dtls1_set_write_state */
    method NextEpoch()
      requires Valid()
      modifies this, writeSequence, lastWriteSequence
      ensures Valid() && wEpoch == (old(wEpoch) + 1) % 0x1_0000 && emitted == old(emitted)
      ensures counted <==> old(counted) && old(wEpoch) + 1 < 0x1_0000
      ensures Counters(0, old(Next()))
    {
      counted := counted && wEpoch + 1 < EPOCHS;
      wEpoch := (wEpoch + 1) % EPOCHS;
      ghost var was := writeSequence[..];
      forall i | 0 <= i < 8 {
        lastWriteSequence[i] := writeSequence[i];
      }
      assert lastWriteSequence[2..] == was[2..] == old(writeSequence[2..]);
      forall i | 0 <= i < 8 {
        writeSequence[i] := 0;
      }
      Zeros(writeSequence[2..]);
    }
  }

  lemma {:induction false} HeaderMeaning(epoch: nat, counter: seq<byte>)
    requires epoch < EPOCHS && |counter| == 6
    ensures var h := BigEndian(epoch, 2) + counter;
      && FromBigEndian(h[..2]) == epoch && FromBigEndian(h) == epoch * NUMBERS + FromBigEndian(counter)
      && FromBigEndian(h) / NUMBERS == epoch && FromBigEndian(h) % NUMBERS == FromBigEndian(counter)
  {
    Pow256s();
    BigEndianInverse(epoch, 2);
    FromBigEndianConcat(BigEndian(epoch, 2), counter);
    assert (BigEndian(epoch, 2) + counter)[..2] == BigEndian(epoch, 2);
  }

  // ---- Whole runs ----

  datatype ReadEvent = Packet(bytes: seq<byte>) | NextReadEpoch

  datatype WriteEvent = Seal(typ: byte, text: seq<byte>, usePrevious: bool, maxOut: nat) | NextWriteEpoch

  /** How often the read state changes. */
  function ReadEpochs(events: seq<ReadEvent>): nat
  {
    if events == [] then 0
    else ReadEpochs(events[..|events| - 1]) + if events[|events| - 1].NextReadEpoch? then 1 else 0
  }

  /** How often the write state changes. */
  function WriteEpochs(events: seq<WriteEvent>): nat
  {
    if events == [] then 0
    else WriteEpochs(events[..|events| - 1]) + if events[|events| - 1].NextWriteEpoch? then 1 else 0
  }

  lemma {:induction false} ReadEpochsSoFar(events: seq<ReadEvent>, k: nat)
    requires k < |events|
    ensures ReadEpochs(events[..k + 1]) == ReadEpochs(events[..k]) + if events[k].NextReadEpoch? then 1 else 0
    ensures ReadEpochs(events[..k + 1]) <= ReadEpochs(events)
    decreases |events|
  {
    var n := |events| - 1;
    if k < n {
      ReadEpochsSoFar(events[..n], k);
      assert events[..n][..k] == events[..k] && events[..n][..k + 1] == events[..k + 1];
    } else {
      assert events[..k + 1] == events;
    }
  }

  lemma {:induction false} WriteEpochsSoFar(events: seq<WriteEvent>, k: nat)
    requires k < |events|
    ensures WriteEpochs(events[..k + 1]) == WriteEpochs(events[..k]) + if events[k].NextWriteEpoch? then 1 else 0
    ensures WriteEpochs(events[..k + 1]) <= WriteEpochs(events)
    decreases |events|
  {
    var n := |events| - 1;
    if k < n {
      WriteEpochsSoFar(events[..n], k);
      assert events[..n][..k] == events[..k] && events[..n][..k + 1] == events[..k + 1];
    } else {
      assert events[..k + 1] == events;
    }
  }

  predicate Distinct(numbers: seq<nat>)
  {
    forall i, j :: 0 <= i < j < |numbers| ==> numbers[i] != numbers[j]
  }

  lemma {:induction false} DistinctSnoc(numbers: seq<nat>, n: nat)
    requires Distinct(numbers) && n !in numbers
    ensures Distinct(numbers + [n])
  {}

  /** Whatever packets arrive, and wherever the read state changes in between: no epoch and sequence number is
      accepted twice. */
  method ReadRun(p: Protection, events: seq<ReadEvent>) returns (numbers: seq<nat>)
    requires ReadEpochs(events) < EPOCHS
    ensures Distinct(numbers)
  {
    hide Examine, Distinct, Bitmap.Valid, ReadEpochs;
    NoEpochs();
    assert events[..0] == [];
    var reader := new Reader(p);
    numbers := [];
    assert Distinct([]) by { NoneTwice(); }
    var k := 0;
    while k < |events|
      invariant k <= |events| && reader.Valid() && fresh(reader) && fresh(reader.bitmap) && !reader.wrapped
      invariant reader.rEpoch == ReadEpochs(events[..k])
      invariant Distinct(numbers) && forall n :: n in numbers <==> n in reader.accepted
    {
      ReadEpochsSoFar(events, k);
      match events[k] {
        case Packet(bytes) =>
          var o := reader.OpenRecord(bytes);
          if o.Success? {
            DistinctSnoc(numbers, o.number);
            numbers := numbers + [o.number];
          }
        case NextReadEpoch => reader.NextEpoch();
      }
      k := k + 1;
    }
  }

  /** Whatever is sealed, in the current epoch or the one before, whether or not it has room, and wherever the write
      state changes in between: until a counter runs over, no two records have the same epoch and sequence number.
      Fewer than 2^48 records do not get that far. */
  method WriteRun(p: Protection, events: seq<WriteEvent>) returns (numbers: seq<nat>, ghost counted: bool)
    requires p.Sound() && WriteEpochs(events) < EPOCHS
    ensures counted ==> Distinct(numbers)
    ensures |events| < NUMBERS ==> counted
  {
    hide Distinct, Protection.Sound, Numbered, RecordBytes, WriteEpochs, FromBigEndian, Writer.SealSize, Writer.Header;
    NoEpochs();
    assert events[..0] == [];
    var writer := new Writer(p);
    numbers := [];
    assert Distinct([]) by { NoneTwice(); }
    var k := 0;
    while k < |events|
      invariant k <= |events| && writer.Valid() && writer.protection == p
      invariant writer.wEpoch == WriteEpochs(events[..k])
      invariant fresh(writer) && fresh(writer.writeSequence) && fresh(writer.lastWriteSequence)
      invariant writer.counted ==> Distinct(numbers)
      invariant forall n :: n in numbers <==> n in writer.emitted
      invariant |events| < NUMBERS ==> writer.counted && writer.Next() <= k && writer.Last() <= k
    {
      WriteEpochsSoFar(events, k);
      match events[k] {
        case Seal(typ, text, usePrevious, maxOut) =>
          var ok, rec := writer.SealRecord(maxOut, typ, text, usePrevious && writer.wEpoch >= 1);
          if ok {
            if writer.counted {
              DistinctSnoc(numbers, rec.Number());
            }
            numbers := numbers + [rec.Number()];
          }
        case NextWriteEpoch => writer.NextEpoch();
      }
      k := k + 1;
    }
    counted := writer.counted;
  }

  lemma {:induction false} NoEpochs()
    ensures ReadEpochs([]) == 0 && WriteEpochs([]) == 0
  {}

  lemma {:induction false} NoneTwice()
    ensures Distinct([])
  {}
}
