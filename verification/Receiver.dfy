/** The receiving side of the DTLS handshake transport (d1_both.cc, dtls_method.cc). */
module Receiver {
  import opened Bytes
  import opened DtlsWire
  import opened DtlsRecord
  import opened Reassembly
  import opened Ring

  /** Outcome of opening a record. Alerts are handed up. */
  datatype Result = Incomplete | Discarded(consumed: nat) | Failed | Alert(text: seq<byte>,
                                                                           consumed: nat) | Opened(consumed: nat)

  /** The slot shows the message in it, which shares nothing with the other objects. */
  ghost predicate Holds(frag: HmFragment?, slot: Option<Partial>, others: set<object>)
    reads if frag == null then {} else {frag} + frag.Repr
  {
    if frag == null then slot == None
    else frag in frag.Repr && others !! frag.Repr && frag.Valid() && slot == Some(frag.Now())
  }

  class Connection {
    const reader: Reader
    const incoming: array<HmFragment?>
    /** ssl_max_handshake_message_len */
    const maxLen: nat
    var handshakeReadSeq: nat
    var hasMessage: bool
    var hasCcs: bool
    /** The messages in the slots, as values. */
    ghost var ring: Incoming
    ghost var Repr: set<object>

    ghost predicate Valid()
      reads this, Repr
    {
      && Owned()
      && reader.Valid()
      && ring.next == handshakeReadSeq && InWindow(ring, reader.rEpoch)
      && (forall i :: 0 <= i < FLIGHT && incoming[i] != null ==> incoming[i] in Repr && incoming[i].Repr <= Repr)
      && (forall i :: 0 <= i < FLIGHT ==> Holds(incoming[i], ring.slots[i], {this, incoming, reader, reader.bitmap}))
      && (forall i, j :: 0 <= i < j < FLIGHT && incoming[i] != null && incoming[j] != null ==>
            incoming[i].Repr !! incoming[j].Repr)
      && (hasMessage ==> CurrentComplete())
    }

    ghost predicate Owned()
      reads this
    {
      {this, incoming, reader, reader.bitmap} <= Repr && incoming.Length == FLIGHT && |ring.slots| == FLIGHT
    }

    /** The next message has been put together. */
    ghost predicate CurrentComplete()
      requires |ring.slots| == FLIGHT
      reads this
    {
      var s := ring.slots[handshakeReadSeq % FLIGHT];
      s.Some? && s.value.Complete()
    }

    constructor (p: Protection, maxMessageLen: nat)
      ensures Valid() && fresh(Repr) && reader.protection == p && maxLen == maxMessageLen
      ensures ring == Incoming(0, seq(FLIGHT, _ => None)) && !hasMessage && !hasCcs
      ensures reader.rEpoch == 0 && reader.nullCipher && reader.bitmap.recorded == {}
    {
      reader := new Reader(p);
      incoming := new HmFragment?[FLIGHT](_ => null);
      maxLen, handshakeReadSeq, hasMessage, hasCcs := maxMessageLen, 0, false, false;
      ring := Incoming(0, seq(FLIGHT, _ => None));
      new;
      Repr := {this, incoming, reader, reader.bitmap};
    }

    /** dtls1_is_current_message_complete */
    method IsCurrentMessageComplete() returns (complete: bool)
      requires Valid()
      ensures complete <==> CurrentComplete()
    {
      var frag := incoming[handshakeReadSeq % FLIGHT];
      return frag != null && frag.reassembly == null;
    }

    /** dtls1_get_incoming_message, for a fragment in the window or just past it. */
    method GetIncomingMessage(f: Fragment) returns (frag: HmFragment?)
      requires Valid() && f.Fits() && handshakeReadSeq <= f.seqNo
      requires f.seqNo <= handshakeReadSeq + FLIGHT
      modifies this`ring, this`Repr, incoming
      ensures Valid() && fresh(Repr - old(Repr))
      ensures frag == null <==> !Fetch(old(ring), reader.rEpoch, f).ok
      ensures frag != null ==> frag == incoming[f.seqNo % FLIGHT] && frag.msgLen == f.msgLen
      ensures ring == Fetch(old(ring), reader.rEpoch, f).ring
    {
      hide InWindow, WholeHeader, MaskBit, Take;
      if f.seqNo < handshakeReadSeq || f.seqNo - handshakeReadSeq >= FLIGHT {
        return null;
      }
      var idx := f.seqNo % FLIGHT;
      frag := incoming[idx];
      if frag != null {
        SlotNumber(ring, reader.rEpoch, f);
        assert frag.seqNo == f.seqNo;
        assert |frag.Now().bytes| == frag.msgLen;
        if frag.typ != f.typ || frag.msgLen != f.msgLen {
          return null;
        }
        return;
      }
      frag := InsertMessage(f);
    }

    /** The part that puts a new message into its slot. */
    method InsertMessage(f: Fragment) returns (frag: HmFragment)
      requires Valid() && f.Fits() && handshakeReadSeq <= f.seqNo < handshakeReadSeq + FLIGHT
      requires incoming[f.seqNo % FLIGHT] == null
      modifies this`ring, this`Repr, incoming
      ensures Valid() && fresh(Repr - old(Repr))
      ensures frag == incoming[f.seqNo % FLIGHT] && frag.msgLen == f.msgLen
      ensures Received(true, ring) == Fetch(old(ring), reader.rEpoch, f)
    {
      hide InWindow, WholeHeader, MaskBit, Take, HmFragment.Valid, Reader.Valid;
      FetchInWindow(ring, reader.rEpoch, f);
      frag := new HmFragment(f, reader.rEpoch);
      incoming[f.seqNo % FLIGHT] := frag;
      ring := Fetch(ring, reader.rEpoch, f).ring;
      Repr := Repr + frag.Repr;
      if hasMessage {
        FetchOther(old(ring), reader.rEpoch, f, handshakeReadSeq % FLIGHT);
      }
    }

    /** The body of the loop of dtls1_open_handshake. */
    method PlaceFragment(f: Fragment) returns (ok: bool)
      requires Valid() && f.Fits()
      modifies Repr
      ensures Valid() && fresh(Repr - old(Repr)) && OnlyRing(old(handshakeReadSeq), old(hasMessage), old(hasCcs))
      ensures unchanged(reader) && unchanged(reader.bitmap)
      ensures Received(ok, ring) == Place(old(ring), reader.rEpoch, maxLen, f)
    {
      if f.off > f.msgLen || f.off + |f.body| > f.msgLen || f.msgLen > maxLen {
        return false;
      }
      if reader.rEpoch == 1 && f.seqNo != handshakeReadSeq {
        return false;
      }
      if f.seqNo < handshakeReadSeq || f.seqNo > handshakeReadSeq + FLIGHT {
        return true;  // from the past, or too far in the future
      }
      PlaceByFetch(ring, reader.rEpoch, maxLen, f);
      var frag := GetIncomingMessage(f);
      if frag == null {
        return false;
      }
      assert |frag.Now().bytes| == frag.msgLen;
      Store(frag, f);
      return true;
    }

    /** The message of a slot takes its share of a fragment. */
    method Store(frag: HmFragment, f: Fragment)
      requires Valid() && f.off + |f.body| <= frag.msgLen && frag == incoming[f.seqNo % FLIGHT]
      requires ring.slots[f.seqNo % FLIGHT].Some? && |ring.slots[f.seqNo % FLIGHT].value.bytes| == frag.msgLen
      modifies this`ring, frag.Repr
      ensures Valid() && ring == Grow(old(ring), reader.rEpoch, f.seqNo % FLIGHT, f)
    {
      hide InWindow, WholeHeader, MaskBit, Take, HmFragment.Valid, Reader.Valid;
      ghost var idx := f.seqNo % FLIGHT;
      frag.Add(f.off, f.body, reader.rEpoch);
      ring := Grow(ring, reader.rEpoch, idx, f);
      GrowInWindow(old(ring), reader.rEpoch, idx, f);
    }

    ghost predicate OnlyRing(readSeq: nat, message: bool, ccs: bool)
      reads this
    {
      handshakeReadSeq == readSeq && hasMessage == message && hasCcs == ccs
    }

    /** dtls1_open_handshake: the record at the front of a packet. */
    method OpenHandshake(packet: seq<byte>) returns (r: Result)
      requires Valid()
      modifies Repr
      ensures Valid() && fresh(Repr - old(Repr)) && OnlyRing(old(handshakeReadSeq), old(hasMessage), hasCcs)
      ensures reader.rEpoch == old(reader.rEpoch) && reader.nullCipher == old(reader.nullCipher)
      ensures var o := Examine(reader.protection, reader.rEpoch, reader.nullCipher, old(reader.bitmap.recorded),
                               packet);
        && Handled(o, old(ring), old(hasCcs), r)
        && reader.bitmap.recorded == old(reader.bitmap.recorded) + (if o.Success? then {o.number} else {})
        && Answered(o, reader.nullCipher, PlaceAll(old(ring), reader.rEpoch, maxLen, Payload(o)).ok, false, r)
        && (o.Success? && o.typ == 20 && r.Opened? ==> hasCcs)
        && (!(o.Success? && o.typ == 22) ==> ring == old(ring))
        && (!(o.Success? && o.typ == 20) ==> hasCcs == old(hasCcs))
    {
      hide Examine, PlaceAll, InWindow, HmFragment.Valid, Reader.Valid;
      var o := reader.OpenRecord(packet);
      r := Handle(o);
    }

    /** The answer by the content type of a record that was opened. An alert (21) is handed up. Application data (23)
        may come out of order between ChangeCipherSpec and Finished and is dropped, but in the clear it is an error.
        A ChangeCipherSpec (20) is good in the clear, if it is a single byte 1; a handshake record (22) if its
        fragments are placed, but it does not count where a ChangeCipherSpec is waited for; and there are no other
        records. */
    ghost predicate Answered(o: DtlsRecord.Opened, nullCipher: bool, placed: bool, ccsOnly: bool, r: Result)
    {
      match o
      case Partial => r == Incomplete
      case Discard(n) => r == Discarded(n)
      case Error => r == Failed
      case Success(typ, _, text, n) =>
        && (typ == 20 ==> r == if nullCipher && text == [1] then Opened(n) else Failed)
        && (typ == 21 ==> r == Alert(text, n))
        && (typ == 22 ==> r == if !placed then Failed else if ccsOnly then Discarded(n) else Opened(n))
        && (typ == 23 ==> r == if nullCipher then Failed else Discarded(n))
        && (typ < 20 || typ > 23 ==> r == Failed)
    }

    /** What was opened has had its effect, and r is the answer. */
    ghost predicate Handled(o: DtlsRecord.Opened, was: Incoming, ccs: bool, r: Result)
      requires |was.slots| == FLIGHT
      reads this, reader
    {
      var placed := PlaceAll(was, reader.rEpoch, maxLen, Payload(o));
      && r == Answer(o, reader.nullCipher, placed.ok)
      && ring == (if o.Success? && o.typ == RT_HANDSHAKE then placed.ring else was)
      && (hasCcs <==> ccs || FlagsCcs(o, reader.nullCipher))
    }

    /** The switch of dtls1_open_handshake. */
    method Handle(o: DtlsRecord.Opened) returns (r: Result)
      requires Valid()
      modifies Repr
      ensures Valid() && fresh(Repr - old(Repr)) && OnlyRing(old(handshakeReadSeq), old(hasMessage), hasCcs)
      ensures unchanged(reader) && unchanged(reader.bitmap)
      ensures Handled(o, old(ring), old(hasCcs), r)
    {
      hide PlaceAll, InWindow, HmFragment.Valid, Reader.Valid;
      if o.Partial? {
        return Incomplete;
      } else if o.Discard? {
        return Discarded(o.consumed);
      } else if o.Error? {
        return Failed;
      }
      if o.typ == RT_ALERT {
        return Alert(o.text, o.consumed);
      } else if o.typ == RT_APPLICATION_DATA {
        // Between ChangeCipherSpec and Finished it may come out of order; in the clear it is illegal.
        return if reader.nullCipher then Failed else Discarded(o.consumed);
      } else if o.typ == RT_CHANGE_CIPHER_SPEC {
        if !reader.nullCipher || o.text != [MT_CCS] {
          return Failed;
        }
        hasCcs := true;
        return Opened(o.consumed);
      } else if o.typ != RT_HANDSHAKE {
        return Failed;
      }
      var ok := OpenFragments(o.text);
      return if ok then Opened(o.consumed) else Failed;
    }

    /** The loop of dtls1_open_handshake. */
    method OpenFragments(payload: seq<byte>) returns (ok: bool)
      requires Valid()
      modifies Repr
      ensures Valid() && fresh(Repr - old(Repr)) && OnlyRing(old(handshakeReadSeq), old(hasMessage), old(hasCcs))
      ensures unchanged(reader) && unchanged(reader.bitmap)
      ensures Received(ok, ring) == PlaceAll(old(ring), reader.rEpoch, maxLen, payload)
    {
      hide Place, ParseFragment, InWindow, HmFragment.Valid, Reader.Valid;
      var cbs := payload;
      while cbs != []
        invariant Valid() && fresh(Repr - old(Repr)) && OnlyRing(old(handshakeReadSeq), old(hasMessage), old(hasCcs))
        invariant unchanged(reader) && unchanged(reader.bitmap)
        invariant PlaceAll(ring, reader.rEpoch, maxLen, cbs) == PlaceAll(old(ring), reader.rEpoch, maxLen, payload)
        decreases |cbs|
      {
        var parsed := ParseFragment(cbs);
        if parsed.Fail? {
          return false;
        }
        ok := PlaceFragment(parsed.value);
        if !ok {
          return;
        }
        cbs := parsed.rest;
      }
      return true;
    }

    /** dtls1_get_message: the next message and, with it, the bytes it would have in one piece. All its bytes came
        in records of one epoch. */
    method GetMessage() returns (found: bool, msg: Message, raw: seq<byte>, ghost epochs: set<nat>)
      requires Valid()
      modifies this`hasMessage
      ensures Valid() && (found <==> CurrentComplete()) && hasMessage == (old(hasMessage) || found)
      ensures found ==> epochs == ring.slots[handshakeReadSeq % FLIGHT].value.epochs && |epochs| == 1
      ensures found ==> msg == CurrentMessage()
                        && raw == FragmentBytes(Fragment(msg.typ, |msg.body|, handshakeReadSeq, 0, msg.body))
    {
      hide Reader.Valid, MaskBit, BigEndian;
      msg, raw, epochs := Message(0, []), [], {};
      found := IsCurrentMessageComplete();
      if !found {
        return;
      }
      var idx := handshakeReadSeq % FLIGHT;
      var frag := incoming[idx];
      msg := Message(frag.typ, frag.data[HM_HEADER_LENGTH..]);
      raw := frag.data[..];
      SameNumber(frag.seqNo, handshakeReadSeq, handshakeReadSeq);
      WholeBytes(frag.typ, msg.body, frag.seqNo);
      assert raw == raw[..HM_HEADER_LENGTH] + raw[HM_HEADER_LENGTH..];
      epochs := frag.epochs;
      hasMessage := true;
    }

    ghost function CurrentMessage(): Message
      requires |ring.slots| == FLIGHT && CurrentComplete()
      reads this
    {
      var p := ring.slots[handshakeReadSeq % FLIGHT].value;
      Message(p.typ, p.bytes)
    }

    /** dtls1_next_message. The 16-bit number may wrap around: the slots are then empty. */
    method NextMessage()
      requires Valid() && hasMessage
      modifies this, incoming
      ensures Valid() && Repr == old(Repr) && !hasMessage && hasCcs == old(hasCcs)
      ensures ring == Advance(old(ring)) && ring.next == (old(ring.next) + 1) % 0x1_0000
      ensures forall i: nat :: i < 7 ==>
                ring.slots[i] == if i == old(ring.next) % 7 then None else old(ring.slots[i])
    {
      hide InWindow, HmFragment.Valid, Reader.Valid;
      var index := handshakeReadSeq % FLIGHT;
      incoming[index] := null;
      handshakeReadSeq := (handshakeReadSeq + 1) % SEQS;
      hasMessage := false;
      AdvanceInWindow(ring, reader.rEpoch);
      ring := Advance(ring);
    }

    /** dtls_has_unprocessed_handshake_data */
    method HasUnprocessedHandshakeData() returns (r: bool)
      requires Valid()
      ensures r <==> hasCcs || exists i ::
                0 <= i < FLIGHT && ring.slots[i].Some? && !(hasMessage && i == handshakeReadSeq % FLIGHT)
    {
      if hasCcs {
        return true;
      }
      var current := handshakeReadSeq % FLIGHT;
      var i := 0;
      while i < FLIGHT
        invariant i <= FLIGHT
        invariant forall k :: 0 <= k < i && ring.slots[k].Some? ==> hasMessage && k == current
      {
        if hasMessage && i == current {
        } else if incoming[i] != null {
          return true;
        }
        i := i + 1;
      }
      return false;
    }

    /** dtls1_set_read_state: refused while there is leftover data, so that no message is put together from
        records of two epochs. */
    method SetReadState() returns (ok: bool)
      requires Valid()
      modifies this, reader, reader.bitmap
      ensures Valid() && Repr == old(Repr) && ring == old(ring)
      ensures OnlyRing(old(handshakeReadSeq), old(hasMessage), old(hasCcs))
      ensures ok ==> reader.rEpoch == (old(reader.rEpoch) + 1) % 0x1_0000
      ensures ok ==> !reader.nullCipher && reader.bitmap.recorded == {}
      ensures !ok ==> unchanged(reader) && unchanged(reader.bitmap)
      ensures ok <==> !hasCcs && forall i :: 0 <= i < FLIGHT && ring.slots[i].Some? ==>
                hasMessage && i == handshakeReadSeq % FLIGHT
    {
      hide HmFragment.Valid, Reader.Valid;
      var leftover := HasUnprocessedHandshakeData();
      if leftover {
        return false;
      }
      reader.NextEpoch();
      return true;
    }

    /** dtls1_open_change_cipher_spec */
    method OpenChangeCipherSpec(packet: seq<byte>) returns (r: Result)
      requires Valid()
      modifies Repr
      ensures Valid() && fresh(Repr - old(Repr)) && !hasCcs && OnlyRing(old(handshakeReadSeq), old(hasMessage), false)
      ensures reader.rEpoch == old(reader.rEpoch) && reader.nullCipher == old(reader.nullCipher)
      ensures old(hasCcs) ==> r == Opened(0) && ring == old(ring)
      ensures old(hasCcs) ==> reader.bitmap.recorded == old(reader.bitmap.recorded)
      ensures var o := Examine(reader.protection, reader.rEpoch, reader.nullCipher, old(reader.bitmap.recorded),
                               packet);
        var placed := PlaceAll(old(ring), reader.rEpoch, maxLen, Payload(o));
        !old(hasCcs) ==>
          && r == OnlyCcs(o, Answer(o, reader.nullCipher, placed.ok))
          && Answered(o, reader.nullCipher, placed.ok, true, r)
          && reader.bitmap.recorded == old(reader.bitmap.recorded) + (if o.Success? then {o.number} else {})
          && ring == (if o.Success? && o.typ == RT_HANDSHAKE then placed.ring else old(ring))
    {
      hide InWindow, PlaceAll, Examine, Place, HmFragment.Valid, Reader.Valid;
      var consumed := 0;
      if !hasCcs {
        r := OpenHandshake(packet);
        if !r.Opened? {
          return;
        }
        consumed := r.consumed;
      }
      if hasCcs {
        hasCcs := false;
        return Opened(consumed);
      }
      return Discarded(consumed);
    }
  }

  /** Where a ChangeCipherSpec is waited for, any other good record is used but does not count as one. */
  function OnlyCcs(o: DtlsRecord.Opened, r: Result): Result {
    if r.Opened? && !(o.Success? && o.typ == RT_CHANGE_CIPHER_SPEC) then Discarded(r.consumed) else r
  }

  /** The part of Place that finds the slot of a fragment. */
  function Fetch(r: Incoming, epoch: nat, f: Fragment): (s: Received)
    requires |r.slots| == FLIGHT
    ensures |s.ring.slots| == FLIGHT && s.ring.next == r.next
  {
    if f.seqNo < r.next || f.seqNo - r.next >= FLIGHT then Received(false, r)
    else
      var i := f.seqNo % FLIGHT;
      if r.slots[i].None? then Received(true, r.(slots := r.slots[i := Some(Blank(f, epoch))]))
      else if r.slots[i].value.typ != f.typ || |r.slots[i].value.bytes| != f.msgLen then Received(false, r)
      else Received(true, r)
  }

  /** The part of Place that fills the slot. */
  function Grow(r: Incoming, epoch: nat, i: nat, f: Fragment): (s: Incoming)
    requires |r.slots| == FLIGHT && i < FLIGHT && r.slots[i].Some? && f.off + |f.body| <= |r.slots[i].value.bytes|
    ensures |s.slots| == FLIGHT && s.next == r.next
  {
    var p := r.slots[i].value;
    if p.Complete() then r else r.(slots := r.slots[i := Some(Take(p, f.off, f.body, epoch))])
  }

  lemma {:induction false} GrowInWindow(r: Incoming, epoch: nat, i: nat, f: Fragment)
    requires InWindow(r, epoch) && i < FLIGHT && r.slots[i].Some? && f.off + |f.body| <= |r.slots[i].value.bytes|
    ensures InWindow(Grow(r, epoch, i, f), epoch)
    ensures forall k :: 0 <= k < FLIGHT && r.slots[k].Some? && r.slots[k].value.Complete() ==>
              Grow(r, epoch, i, f).slots[k] == r.slots[k]
  {
    hide Take;
    TakeKeeps(r.slots[i].value, f.off, f.body, epoch);
  }

  lemma {:induction false} PlaceByFetch(r: Incoming, epoch: nat, maxLen: nat, f: Fragment)
    requires InWindow(r, epoch)
    requires f.off + |f.body| <= f.msgLen <= maxLen && (epoch == 1 ==> f.seqNo == r.next)
    requires r.next <= f.seqNo <= r.next + FLIGHT
    ensures var s := Fetch(r, epoch, f);
      Place(r, epoch, maxLen, f) == if s.ok then Received(true, Grow(s.ring, epoch, f.seqNo % FLIGHT, f))
                                    else Received(false, r)
  {
    hide Take;
    var s, i := Fetch(r, epoch, f), f.seqNo % FLIGHT;
    if s.ok && s.ring.slots[i].value.Complete() {
      assert s.ring.slots[i := s.ring.slots[i]] == s.ring.slots;
      assert r.slots[i := s.ring.slots[i]] == s.ring.slots;
    }
  }

  function Payload(o: DtlsRecord.Opened): seq<byte>
  {
    if o.Success? then o.text else []
  }

  /** How dtls1_open_handshake answers to what the record layer opened. */
  function Answer(o: DtlsRecord.Opened, nullCipher: bool, placed: bool): Result
  {
    match o
    case Partial => Incomplete
    case Discard(n) => Discarded(n)
    case Error => Failed
    case Success(typ, _, text, n) =>
      if typ == RT_ALERT then Alert(text, n)
      else if typ == RT_APPLICATION_DATA then (if nullCipher then Failed else Discarded(n))
      else if typ == RT_CHANGE_CIPHER_SPEC then (if nullCipher && text == [MT_CCS] then Opened(n) else Failed)
      else if typ == RT_HANDSHAKE && placed then Opened(n)
      else Failed
  }

  /** A ChangeCipherSpec, where one is allowed, is flagged for later. */
  predicate FlagsCcs(o: DtlsRecord.Opened, nullCipher: bool)
  {
    o.Success? && o.typ == RT_CHANGE_CIPHER_SPEC && nullCipher && o.text == [MT_CCS]
  }

  /** What a receiver has: its ring, the records it has seen in this epoch, and whether it has met no error. */
  datatype Absorbed = Absorbed(ring: Incoming, recorded: set<nat>, alive: bool)

  /** The record at the front of a packet. */
  ghost function AbsorbRecord(p: Protection, epoch: nat, nullCipher: bool, maxLen: nat, s: Absorbed,
                              packet: seq<byte>): (t: Absorbed)
    requires |s.ring.slots| == FLIGHT
    ensures |t.ring.slots| == FLIGHT
  {
    var o := Examine(p, epoch, nullCipher, s.recorded, packet);
    var placed := PlaceAll(s.ring, epoch, maxLen, Payload(o));
    Absorbed(
      if o.Success? && o.typ == RT_HANDSHAKE then placed.ring else s.ring,
      s.recorded + (if o.Success? then {o.number} else {}),
      !Answer(o, nullCipher, placed.ok).Failed?)
  }

  /** The bytes that the record takes. */
  ghost function Consumed(p: Protection, epoch: nat, nullCipher: bool, maxLen: nat, s: Absorbed,
                          packet: seq<byte>): (n: nat)
    requires packet != []
    ensures 0 < n <= |packet|
  {
    var o := Examine(p, epoch, nullCipher, s.recorded, packet);
    if o.Discard? || o.Success? then o.consumed else |packet|
  }

  function Advance(r: Incoming): (s: Incoming)
    requires |r.slots| == FLIGHT
    ensures |s.slots| == FLIGHT
  {
    Incoming((r.next + 1) % SEQS, r.slots[r.next % FLIGHT := None])
  }

  lemma {:induction false} AdvanceInWindow(r: Incoming, epoch: nat)
    requires InWindow(r, epoch)
    ensures InWindow(Advance(r), epoch)
  {
    var s := Advance(r);
    forall i | 0 <= i < FLIGHT && s.slots[i].Some?
      ensures SlotOk(s, epoch, i, s.slots[i].value)
    {
      assert SlotOk(r, epoch, i, r.slots[i].value);
    }
  }

  lemma {:induction false} FetchInWindow(r: Incoming, epoch: nat, f: Fragment)
    requires InWindow(r, epoch) && f.Fits()
    ensures InWindow(Fetch(r, epoch, f).ring, epoch)
  {}

  lemma {:induction false} FetchOther(r: Incoming, epoch: nat, f: Fragment, i: nat)
    requires |r.slots| == FLIGHT && i < FLIGHT && r.slots[i].Some?
    ensures Fetch(r, epoch, f).ring.slots[i] == r.slots[i]
  {}
}
