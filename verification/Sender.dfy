/** The sending side of the DTLS handshake transport: flights of messages, cut into packets (d1_both.cc). */
module Sender {
  import opened Bytes
  import opened DtlsWire
  import opened DtlsRecord
  import opened Ring
  import opened Cutting
  import opened Flight

  /** DTLS_OUTGOING_MESSAGE */
  datatype Outgoing = Outgoing(data: seq<byte>, epoch: nat, isCcs: bool)

  /** Records of more than 2^16 - 1 bytes of ciphertext cannot be sealed; below this size none gets there. */
  const MTU_LIMIT: nat := RT_HEADER_LENGTH + 0x1_0000

  datatype SealResult = SealError | NoProgress | PartOf | Whole

  datatype FlightResult = Done | Blocked | Broken

  function RecordsBytes(recs: seq<Record>): seq<byte>
  {
    if recs == [] then [] else RecordsBytes(recs[..|recs| - 1]) + RecordBytes(recs[|recs| - 1])
  }

  /** What is kept for a message of the flight. */
  ghost predicate Keeps(o: Outgoing, e: Entry)
  {
    && o.epoch == e.epoch && o.isCcs == e.Ccs? && e.Fits()
    && (e.Handshake? ==> o.data == FragmentBytes(WholeFragment(e.message, e.place % SEQS)))
  }

  /** What is in the record for the cut leaves room for a header in a packet. */
  ghost predicate ShortBody(e: Entry, c: Cut, mtu: nat)
  {
    c.off + c.len <= |e.Body()| && RT_HEADER_LENGTH + |Plain(e, c)| <= mtu
  }

  ghost predicate ShortBodies(flight: seq<Entry>, recs: seq<Record>, cuts: seq<Cut>, mtu: nat)
  {
    |recs| == |cuts| && forall k :: 0 <= k < |cuts| ==>
              cuts[k].index < |flight| && ShortBody(flight[cuts[k].index], cuts[k], mtu)
  }

  lemma {:induction false} ShortMore(flight: seq<Entry>, recs: seq<Record>, cuts: seq<Cut>, mtu: nat, rec: Record,
                                     c: Cut)
    requires ShortBodies(flight, recs, cuts, mtu) && c.index < |flight| && ShortBody(flight[c.index], c, mtu)
    ensures ShortBodies(flight, recs + [rec], cuts + [c], mtu)
  {
    hide ShortBody;
  }

  /** The cut takes as much of the rest of its message as goes into a room, in which there must be place for the headers
      of fragment and record, the overhead of sealing and one byte; a ChangeCipherSpec is that one byte. */
  ghost predicate Fills(p: Protection, e: Entry, c: Cut, room: int)
  {
    var left, cost := |e.Body()| - c.off, 13 + p.maxOverhead(e.epoch);
    && !TooTight(p, e, room)
    && (e.Handshake? ==> c.len == if left <= room - 12 - cost then left else room - 12 - cost)
  }

  /** Not even one byte goes into the room. */
  ghost predicate TooTight(p: Protection, e: Entry, room: int)
  {
    room < (if e.Handshake? then 12 + 1 else 1) + 13 + p.maxOverhead(e.epoch)
  }

  /** Every record of a packet takes as much as there is room for behind those before it, and where the packet ends
      the flight is at its end, or the room was used up within a message, or is too tight for the next. */
  ghost predicate Filled(p: Protection, flight: seq<Entry>, maxOut: nat, recs: seq<Record>, cuts: seq<Cut>, to: Pos)
  {
    && AllFill(p, flight, maxOut, recs, cuts)
    && (to.written < |flight| && to.offset == 0 ==> TooTight(p, flight[to.written], maxOut - |RecordsBytes(recs)|))
  }

  ghost predicate AllFill(p: Protection, flight: seq<Entry>, maxOut: nat, recs: seq<Record>, cuts: seq<Cut>)
  {
    && |recs| == |cuts|
    && forall k :: 0 <= k < |cuts| ==>
                     cuts[k].index < |flight| &&
                     Fills(p, flight[cuts[k].index], cuts[k], maxOut - |RecordsBytes(recs[..k])|)
  }

  lemma {:induction false} FillMore(p: Protection, flight: seq<Entry>, maxOut: nat, recs: seq<Record>, cuts: seq<Cut>,
                                    rec: Record, c: Cut)
    requires AllFill(p, flight, maxOut, recs, cuts) && c.index < |flight|
    requires Fills(p, flight[c.index], c, maxOut - |RecordsBytes(recs)|)
    ensures AllFill(p, flight, maxOut, recs + [rec], cuts + [c])
  {
    hide Fills, RecordsBytes;
    forall k | 0 <= k < |cuts| + 1
      ensures Fills(p, flight[(cuts + [c])[k].index], (cuts + [c])[k], maxOut - |RecordsBytes((recs + [rec])[..k])|)
    {
      assert (recs + [rec])[..k] == recs[..k];
      if k == |cuts| { assert recs[..k] == recs; }
    }
  }

  lemma {:induction false} IsFilled(p: Protection, flight: seq<Entry>, maxOut: nat, recs: seq<Record>, cuts: seq<Cut>,
                                    to: Pos)
    requires AllFill(p, flight, maxOut, recs, cuts)
    requires to.written < |flight| && to.offset == 0 ==> TooTight(p, flight[to.written], maxOut - |RecordsBytes(recs)|)
    ensures Filled(p, flight, maxOut, recs, cuts, to)
  {}

  /** A packet that is filled, with cuts that lead from one position to the other. */
  ghost predicate PacketFull(p: Protection, version: nat, flight: seq<Entry>, mtu: nat, recs: seq<Record>, from: Pos,
                             to: Pos)
  {
    exists cuts :: CarryAll(p, version, recs, flight, cuts) && Leads(Bodies(flight), from, cuts, to)
                   && Filled(p, flight, mtu, recs, cuts, to)
  }

  lemma {:induction false} FullPacket(p: Protection, version: nat, flight: seq<Entry>, mtu: nat, from: Pos,
                                      packet: seq<byte>, recs: seq<Record>, cuts: seq<Cut>, to: Pos)
    requires Packed(p, version, flight, mtu, from, packet, recs, cuts, to) && Filled(p, flight, mtu, recs, cuts, to)
    ensures PacketFull(p, version, flight, mtu, recs, from, to)
  {
    hide CarryAll, Leads, Filled;
  }

  /** The packet is the records, which carry the flight from one position to the other. */
  ghost predicate Packed(p: Protection, version: nat, flight: seq<Entry>, maxOut: nat, from: Pos,
                         packet: seq<byte>, recs: seq<Record>, cuts: seq<Cut>, to: Pos)
  {
    && packet == RecordsBytes(recs) && |packet| <= maxOut
    && CarryAll(p, version, recs, flight, cuts) && ShortBodies(flight, recs, cuts, maxOut)
    && Leads(Bodies(flight), from, cuts, to)
  }

  lemma {:induction false} PackedIs(p: Protection, version: nat, flight: seq<Entry>, maxOut: nat, from: Pos,
                                    packet: seq<byte>, recs: seq<Record>, cuts: seq<Cut>, to: Pos)
    requires Packed(p, version, flight, maxOut, from, packet, recs, cuts, to)
    ensures packet == RecordsBytes(recs)
  {}

  lemma {:induction false} PackedNothing(p: Protection, version: nat, flight: seq<Entry>, maxOut: nat, from: Pos)
    ensures Packed(p, version, flight, maxOut, from, [], [], [], from)
    ensures AllFill(p, flight, maxOut, [], []) && RecordsBytes([]) == []
  {}

  lemma {:induction false} PackedMore(p: Protection, version: nat, flight: seq<Entry>, maxOut: nat, from: Pos,
                                      packet: seq<byte>, recs: seq<Record>, cuts: seq<Cut>, to: Pos,
                                      rec: Record, c: Cut)
    requires Packed(p, version, flight, maxOut, from, packet, recs, cuts, to)
    requires c.index == to.written < |flight| && c.off == to.offset && |packet| + |RecordBytes(rec)| <= maxOut
    requires ShortBody(flight[c.index], c, maxOut) && (c.len > 0 || c.off + c.len == |flight[c.index].Body()|)
    requires Carries(p, version, rec, flight[c.index], c) && c.off + c.len <= |flight[c.index].Body()|
    ensures Packed(p, version, flight, maxOut, from, packet + RecordBytes(rec), recs + [rec], cuts + [c],
                   if c.off + c.len == |flight[c.index].Body()| then Pos(to.written + 1, 0)
                   else Pos(to.written, c.off + c.len))
  {
    hide RecordBytes, RecordsBytes, CarryAll, Carries, Leads, ShortBodies, ShortBody;
    ShortMore(flight, recs, cuts, maxOut, rec, c);
    RecordsMore(recs, rec);
    CarryMore(p, version, recs, flight, cuts, rec, c);
    LeadsMore(Bodies(flight), from, cuts, to, c);
  }

  /** Every packet leads from its position to the next, and is filled. */
  ghost predicate AllFull(p: Protection, version: nat, flight: seq<Entry>, mtu: nat, contents: seq<seq<Record>>,
                          at: seq<Pos>)
  {
    && |at| == |contents| + 1
    && forall i :: 0 <= i < |contents| ==> PacketFull(p, version, flight, mtu, contents[i], at[i], at[i + 1])
  }

  lemma {:induction false} NoneFull(p: Protection, version: nat, flight: seq<Entry>, mtu: nat, at: seq<Pos>)
    requires |at| == 1
    ensures AllFull(p, version, flight, mtu, [], at)
  {}

  lemma {:induction false} FullMore(p: Protection, version: nat, flight: seq<Entry>, mtu: nat,
                                    contents: seq<seq<Record>>, at: seq<Pos>, recs: seq<Record>, to: Pos)
    requires AllFull(p, version, flight, mtu, contents, at)
    requires PacketFull(p, version, flight, mtu, recs, at[|contents|], to)
    ensures AllFull(p, version, flight, mtu, contents + [recs], at + [to])
  {
    hide PacketFull;
  }

  /** The packets are the records, which carry the flight from one position to the other. */
  ghost predicate Sent(p: Protection, version: nat, flight: seq<Entry>, mtu: nat, from: Pos, packets: seq<seq<byte>>,
                       contents: seq<seq<Record>>, cuts: seq<Cut>, to: Pos)
  {
    && |packets| == |contents|
    && (forall i :: 0 <= i < |packets| ==> packets[i] == RecordsBytes(contents[i]) && |packets[i]| <= mtu)
    && CarryAll(p, version, Flat(contents), flight, cuts) && ShortBodies(flight, Flat(contents), cuts, mtu)
    && Leads(Bodies(flight), from, cuts, to)
  }

  lemma {:induction false} SentNothing(p: Protection, version: nat, flight: seq<Entry>, mtu: nat, from: Pos)
    ensures Sent(p, version, flight, mtu, from, [], [], [], from)
  {}

  lemma {:induction false} SentMore(p: Protection, version: nat, flight: seq<Entry>, mtu: nat, from: Pos,
                                    packets: seq<seq<byte>>, contents: seq<seq<Record>>, cuts: seq<Cut>, to: Pos,
                                    packet: seq<byte>, recs: seq<Record>, more: seq<Cut>, next: Pos)
    requires Sent(p, version, flight, mtu, from, packets, contents, cuts, to)
    requires Packed(p, version, flight, mtu, to, packet, recs, more, next)
    ensures Sent(p, version, flight, mtu, from, packets + [packet], contents + [recs], cuts + more, next)
  {
    hide CarryAll, ShortBodies, Leads, RecordsBytes, Flat;
    FlatMore(contents, recs);
    ShortConcat(flight, Flat(contents), cuts, recs, more, mtu);
    CarryConcat(p, version, Flat(contents), flight, cuts, recs, more);
    LeadsConcat(Bodies(flight), from, cuts, to, more, next);
  }

  lemma {:induction false} SentConcat(p: Protection, version: nat, flight: seq<Entry>, mtu: nat, from: Pos,
                                      packets: seq<seq<byte>>,
                                      contents: seq<seq<Record>>, cuts: seq<Cut>, to: Pos, packets1: seq<seq<byte>>,
                                      contents1: seq<seq<Record>>, cuts1: seq<Cut>, next: Pos)
    requires Sent(p, version, flight, mtu, from, packets, contents, cuts, to)
    requires Sent(p, version, flight, mtu, to, packets1, contents1, cuts1, next)
    ensures Sent(p, version, flight, mtu, from, packets + packets1, contents + contents1, cuts + cuts1, next)
  {
    hide CarryAll, ShortBodies, Leads, RecordsBytes, Flat;
    FlatConcat(contents, contents1);
    ShortConcat(flight, Flat(contents), cuts, Flat(contents1), cuts1, mtu);
    CarryConcat(p, version, Flat(contents), flight, cuts, Flat(contents1), cuts1);
    LeadsConcat(Bodies(flight), from, cuts, to, cuts1, next);
  }

  /** The numbers that are used up, and those that what is behind the position can take. */
  ghost function UseOf(bodies: seq<seq<byte>>, p: Pos, used: nat): nat
    requires p.written <= |bodies|
  {
    var weight, spent := Weight(bodies), Spent(bodies, p);
    used + if spent <= weight then weight - spent else 0
  }

  lemma {:induction false} UseAtStart(bodies: seq<seq<byte>>, used: nat)
    ensures UseOf(bodies, Pos(0, 0), used) == used + Weight(bodies)
  {
    assert bodies[..0] == [];
  }

  lemma {:induction false} UseBehind(bodies: seq<seq<byte>>, from: Pos, to: Pos, used: nat)
    requires from.written < |bodies| && from.offset <= |bodies[from.written]|
    requires to == Pos(from.written + 1, 0) ||
            (to.written == from.written && from.offset < to.offset <= |bodies[from.written]|)
    ensures used < UseOf(bodies, from, used) && UseOf(bodies, to, used + 1) <= UseOf(bodies, from, used)
  {
    Spends(bodies, from, to);
  }

  class Connection {
    const writer: Writer
    const outgoing: array<Outgoing>
    var messagesLen: nat
    var written: nat
    var offset: nat
    var complete: bool
    var handshakeWriteSeq: nat
    /** All handshake messages ever added, and the flight that is kept. */
    ghost var added: seq<Message>
    ghost var flight: seq<Entry>

    ghost function Repr(): set<object> {
      {this, outgoing, writer, writer.writeSequence, writer.lastWriteSequence}
    }

    ghost predicate Valid()
      reads this, Repr()
    {
      && Core() && outgoing.Length == FLIGHT && |flight| == messagesLen <= FLIGHT && written <= messagesLen
      && (if written < messagesLen then offset <= |flight[written].Body()| else offset == 0)
    }

    /** What does not depend on the position. */
    ghost predicate Core()
      reads this`handshakeWriteSeq, this`added, this`flight, this`messagesLen, Repr() - {this}
    {
      && writer.Valid() && writer.protection.Sound() && handshakeWriteSeq == |added| % SEQS && InTurn(flight, added)
      && messagesLen <= outgoing.Length && messagesLen <= |flight|
      && forall i :: 0 <= i < messagesLen ==> Keeps(outgoing[i], flight[i])
    }

    function Position(): Pos
      reads this`written, this`offset
    {
      Pos(written, offset)
    }

    /** The version that records are sealed with. */
    ghost function Version(): nat
      reads writer`wEpoch
    {
      writer.protection.recordVersion(writer.wEpoch)
    }

    constructor (p: Protection)
      requires p.Sound()
      ensures Valid() && fresh(Repr()) && writer.protection == p && added == [] && flight == [] && !complete
      ensures writer.wEpoch == 0 && writer.counted && writer.Counters(0, 0)
    {
      writer := new Writer(p);
      outgoing := new Outgoing[FLIGHT](_ => Outgoing([], 0, false));
      messagesLen, written, offset, complete, handshakeWriteSeq := 0, 0, 0, false, 0;
      added, flight := [], [];
    }

    /** dtls_clear_outgoing_messages */
    method ClearOutgoing()
      requires Valid()
      modifies this
      ensures Valid() && flight == [] && messagesLen == 0 && Position() == Pos(0, 0) && !complete
      ensures added == old(added) && handshakeWriteSeq == old(handshakeWriteSeq)
    {
      messagesLen, written, offset, complete := 0, 0, 0, false;
      flight := [];
    }

    /** dtls1_init_message and dtls1_finish_message: the header is written with a length of 0, and the fragment
        length that ends up behind it is then copied over the message length. */
    method MakeMessage(typ: byte, body: seq<byte>) returns (ok: bool, data: seq<byte>)
      requires Valid()
      ensures ok <==> |body| < 0x100_0000
      ensures ok ==> data == FragmentBytes(WholeFragment(Message(typ, body), handshakeWriteSeq))
    {
      if |body| >= 0x100_0000 {
        return false, [];  // does not fit its length prefix
      }
      hide BigEndian;
      var len := BigEndian(|body|, 3);
      var raw := BigEndian(typ, 1) + BigEndian(0, 3) + BigEndian(handshakeWriteSeq, 2) + BigEndian(0, 3) + len + body;
      data := raw[..1] + raw[HM_HEADER_LENGTH - 3..HM_HEADER_LENGTH] + raw[4..];
      ok := true;
      FixedUp(typ, body, handshakeWriteSeq, len);
    }

    /** The entry of the flight for a message, or ChangeCipherSpec, that is added now. */
    ghost function Adding(isCcs: bool, m: Message): Entry
      reads this, writer
    {
      if isCcs then Ccs(writer.wEpoch) else Handshake(writer.wEpoch, |added|, m)
    }

    /** add_outgoing, for a message that was made with the current number, or ChangeCipherSpec. It comes behind the
        flight, or starts a new one if the last was flushed. */
    method AddOutgoing(isCcs: bool, data: seq<byte>, ghost m: Message) returns (ok: bool)
      requires Valid()
      requires !isCcs ==> |m.body| < 0x100_0000 && data == FragmentBytes(WholeFragment(m, handshakeWriteSeq))
      modifies this, outgoing
      ensures Valid() && !complete
      ensures ok <==> (old(complete) || old(messagesLen) < 7) && |data| <= 0xFFFF_FFFF
      ensures added == old(added) + if ok && !isCcs then [m] else []
      ensures flight == (if old(complete) then [] else old(flight)) + if ok then [old(Adding(isCcs, m))] else []
      ensures Position() == if old(complete) then Pos(0, 0) else old(Position())
      ensures ok && !isCcs ==> handshakeWriteSeq == (old(handshakeWriteSeq) + 1) % 0x1_0000
      ensures ok ==> flight[|flight| - 1] == if isCcs then Ccs(writer.wEpoch)
                                             else Handshake(writer.wEpoch, |old(added)|, m)
    {
      hide FragmentBytes, Writer.Valid, Protection.Sound, InTurn;
      if complete {
        ClearOutgoing();
      }
      if messagesLen >= FLIGHT || |data| > 0xFFFF_FFFF {
        return false;
      }
      Append(isCcs, data, m);
      return true;
    }

    /** The part of add_outgoing that puts a message at the end of the flight. */
    method Append(isCcs: bool, data: seq<byte>, ghost m: Message)
      requires Valid() && messagesLen < FLIGHT
      requires !isCcs ==> |m.body| < 0x100_0000 && data == FragmentBytes(WholeFragment(m, handshakeWriteSeq))
      modifies this`handshakeWriteSeq, this`added, this`flight, this`messagesLen, outgoing
      ensures Valid() && added == old(added) + if isCcs then [] else [m]
      ensures flight == old(flight) + [old(Adding(isCcs, m))]
      ensures !isCcs ==> handshakeWriteSeq == (old(handshakeWriteSeq) + 1) % 0x1_0000
    {
      hide FragmentBytes, Writer.Valid, Protection.Sound, InTurn;
      NextNumber(|added|);
      OneMore(flight, added, Adding(isCcs, m));
      flight := flight + [Adding(isCcs, m)];
      if !isCcs {
        handshakeWriteSeq := (handshakeWriteSeq + 1) % SEQS;
        added := added + [m];
      }
      outgoing[messagesLen] := Outgoing(data, writer.wEpoch, isCcs);
      messagesLen := messagesLen + 1;
    }

    /** seal_next_message: seals as much of the next message as fits. */
    method SealNextMessage(maxOut: nat) returns (res: SealResult, rec: Record, ghost cut: Cut)
      requires Valid() && written < messagesLen
      modifies this`offset, writer`emitted, writer`counted, writer.writeSequence, writer.lastWriteSequence
      ensures Core()
      ensures res.SealError? || res.NoProgress? ==> offset == old(offset)
      ensures res.PartOf? || res.Whole? ==> Sealed(res, rec, cut, old(offset), maxOut)
      ensures res.PartOf? || res.Whole? ==> NumberedFrom(rec, old(writer.Next()), old(writer.Last()))
      ensures res.NoProgress? ==>
                maxOut < NeededFor(outgoing[written]) && writer.Counters(old(writer.Next()), old(writer.Last()))
      ensures res.NoProgress? ==> TooTight(writer.protection, flight[written], maxOut)
      ensures res.PartOf? ==>
                && flight[written].Handshake?
                && cut.len == maxOut - 12 - 13 - writer.protection.maxOverhead(flight[written].epoch)
      ensures res.SealError? ==> !InReach(outgoing[written]) || !writer.counted || maxOut >= MTU_LIMIT
      ensures old(writer.counted && writer.Next() + 1 < NUMBERS && writer.Last() + 1 < NUMBERS) ==> writer.counted
    {
      hide FragmentBytes, RecordBytes, Writer.Valid, Protection.Sound, InTurn, Carries, NumberedFrom;
      ghost var e := flight[written];
      var msg := outgoing[written];
      rec, cut := Record(0, 0, [], []), Cut(written, offset, 0);
      var usePrevious := writer.wEpoch >= 1 && msg.epoch == writer.wEpoch - 1;
      if !usePrevious && msg.epoch != writer.wEpoch {
        return SealError, rec, cut;
      }
      if !msg.isCcs {
        res, rec, cut := SealFragment(maxOut, msg.data, usePrevious, e);
        return;
      }
      if maxOut < 1 + writer.MaxSealOverhead(usePrevious) {
        return NoProgress, rec, cut;
      }
      var ok;
      ok, rec := SealCut(maxOut, RT_CHANGE_CIPHER_SPEC, [MT_CCS], usePrevious, e, cut);
      return if ok then Whole else SealError, rec, cut;
    }

    /** The message was added in the current epoch or the one before. */
    ghost predicate InReach(o: Outgoing)
      reads writer`wEpoch
    {
      o.epoch == writer.wEpoch || o.epoch + 1 == writer.wEpoch
    }

    /** Room without which nothing of a message is sealed. */
    ghost function NeededFor(o: Outgoing): nat
      reads writer`wEpoch
    {
      HM_HEADER_LENGTH + 1 + writer.MaxSealOverhead(writer.wEpoch >= 1 && o.epoch == writer.wEpoch - 1)
    }

    /** rec carries the bytes cut from the next message, and the position is behind them. */
    ghost predicate Sealed(res: SealResult, rec: Record, cut: Cut, from: nat, maxOut: nat)
      requires written < |flight|
      reads this, writer
    {
      var e := flight[written];
      && |RecordBytes(rec)| <= maxOut && ShortBody(e, cut, maxOut) && Fills(writer.protection, e, cut, maxOut)
      && cut.index == written && cut.off == from && Carries(writer.protection, Version(), rec, e, cut)
      && (res.Whole? <==> cut.off + cut.len == |e.Body()|)
      && (res.PartOf? ==> cut.len > 0) && offset == (if res.Whole? then 0 else cut.off + cut.len)
    }

    /** The record has the next number of its epoch, which is then used up. */
    ghost predicate NumberedFrom(rec: Record, next: nat, last: nat)
      requires writer.writeSequence.Length == writer.lastWriteSequence.Length == 8
      reads writer, writer.writeSequence, writer.lastWriteSequence
    {
      && rec.Fits() && rec.Number() == rec.Epoch() * NUMBERS + (if rec.Epoch() == writer.wEpoch then next else last)
      && if rec.Epoch() == writer.wEpoch then writer.Counters(next + 1, last)
         else rec.Epoch() + 1 == writer.wEpoch && writer.Counters(next, last + 1)
    }

    /** The part of seal_next_message for handshake messages. */
    method SealFragment(maxOut: nat, data: seq<byte>, usePrevious: bool, ghost e: Entry)
      returns (res: SealResult, rec: Record, ghost cut: Cut)
      requires writer.Valid() && writer.protection.Sound() && (usePrevious ==> writer.wEpoch >= 1)
      requires e.Handshake? && e.Fits() && e.epoch == writer.SealEpoch(usePrevious) && offset <= |e.message.body|
      requires data == FragmentBytes(WholeFragment(e.message, e.place % SEQS)) && written < |flight|
      requires flight[written] == e
      modifies this`offset, writer`emitted, writer`counted, writer.writeSequence, writer.lastWriteSequence
      ensures writer.Valid()
      ensures res.SealError? || res.NoProgress? ==> offset == old(offset)
      ensures res.PartOf? || res.Whole? ==> Sealed(res, rec, cut, old(offset), maxOut)
      ensures res.PartOf? || res.Whole? ==> NumberedFrom(rec, old(writer.Next()), old(writer.Last()))
      ensures res.NoProgress? ==> maxOut < HM_HEADER_LENGTH + 1 + writer.MaxSealOverhead(usePrevious)
      ensures res.NoProgress? ==> TooTight(writer.protection, e, maxOut)
      ensures res.NoProgress? ==> writer.Counters(old(writer.Next()), old(writer.Last()))
      ensures res.SealError? ==> !writer.counted || maxOut >= MTU_LIMIT
      ensures old(writer.counted && writer.Next() + 1 < NUMBERS && writer.Last() + 1 < NUMBERS) ==> writer.counted
    {
      hide FragmentBytes, RecordBytes, Writer.Valid, Protection.Sound, Carries, NumberedFrom, FromBigEndian;
      rec, cut := Record(0, 0, [], []), Cut(written, offset, 0);
      NonceInOverhead(writer.protection, writer.SealEpoch(usePrevious));
      var overhead := writer.MaxSealOverhead(usePrevious);
      if maxOut < HM_HEADER_LENGTH + 1 + overhead || maxOut < writer.SealPrefixLen(usePrevious) {
        return NoProgress, rec, cut;
      }
      var frag, whole := NextFragment(data, maxOut - HM_HEADER_LENGTH - overhead, e);
      cut := Cut(written, offset, |frag.body|);
      FragmentRoundTrip(frag, []);
      assert Plain(e, cut) == FragmentBytes(frag);
      var ok;
      ok, rec := SealCut(maxOut, RT_HANDSHAKE, FragmentBytes(frag), usePrevious, e, cut);
      if !ok {
        return SealError, rec, cut;
      }
      if whole {
        offset := 0;
        return Whole, rec, cut;
      }
      offset := offset + |frag.body|;
      return PartOf, rec, cut;
    }

    /** A cut of an entry is sealed where there is room for it. */
    method SealCut(maxOut: nat, typ: byte, text: seq<byte>, usePrevious: bool, ghost e: Entry, ghost c: Cut)
      returns (ok: bool, rec: Record)
      requires writer.Valid() && writer.protection.Sound() && (usePrevious ==> writer.wEpoch >= 1)
      requires e.epoch == writer.SealEpoch(usePrevious) && c.off + c.len <= |e.Body()| && text == Plain(e, c)
      requires typ == if e.Handshake? then RT_HANDSHAKE else RT_CHANGE_CIPHER_SPEC
      requires writer.MaxSealOverhead(usePrevious) + |text| <= maxOut
      modifies writer`emitted, writer`counted, writer.writeSequence, writer.lastWriteSequence
      ensures writer.Valid()
      ensures ok ==> |RecordBytes(rec)| <= maxOut && Carries(writer.protection, Version(), rec, e, c)
      ensures ok ==> NumberedFrom(rec, old(writer.Next()), old(writer.Last()))
      ensures !ok ==> !writer.counted || maxOut >= MTU_LIMIT
      ensures old(writer.counted && writer.Next() + 1 < NUMBERS && writer.Last() + 1 < NUMBERS) ==> writer.counted
    {
      hide FragmentBytes, RecordBytes, Writer.Valid, Writer.SealSize, Writer.Header, Protection.Sound, Plain,
           FromBigEndian;
      ok, rec := writer.SealRecord(maxOut, typ, text, usePrevious);
    }

    /** The fragment to be sealed next, with at most the given number of bytes. What is kept is a message in one piece:
        the checks of its header cannot fail. */
    method NextFragment(data: seq<byte>, room: nat, ghost e: Entry) returns (frag: Fragment, whole: bool)
      requires e.Handshake? && e.Fits() && offset <= |e.message.body| && room > 0
      requires data == FragmentBytes(WholeFragment(e.message, e.place % SEQS))
      ensures |frag.body| <= room && offset + |frag.body| <= |e.message.body| && frag.Fits()
      ensures frag == Share(e, Cut(written, offset, |frag.body|))
      ensures if whole then offset + |frag.body| == |e.message.body|
              else offset + |frag.body| < |e.message.body| && |frag.body| == room
    {
      hide FragmentBytes, ParseFragment;
      FragmentRoundTrip(WholeFragment(e.message, e.place % SEQS), []);
      assert data + [] == data;
      var hdr := ParseFragment(data).value;
      var body := hdr.body[offset..];
      var todo := |body|;
      if todo > room {
        todo := room;
      }
      frag, whole := Fragment(hdr.typ, hdr.msgLen, hdr.seqNo, offset, body[..todo]), todo == |body|;
      assert frag.body == e.message.body[offset..offset + todo];
    }

    /** Every message is in reach, and the packets are large enough for a fragment but not for an oversized one. */
    ghost predicate Sendable(mtu: nat)
      requires messagesLen <= outgoing.Length
      reads this`messagesLen, outgoing, writer`wEpoch
    {
      mtu < MTU_LIMIT && forall i :: 0 <= i < messagesLen ==> InReach(outgoing[i]) && NeededFor(outgoing[i]) <= mtu
    }

    lemma {:induction false} SendableAt(mtu: nat, i: nat)
      requires i < messagesLen <= outgoing.Length
      ensures Sendable(mtu) ==> mtu < MTU_LIMIT && InReach(outgoing[i]) && NeededFor(outgoing[i]) <= mtu
    {}

    /** seal_next_packet: as much of the rest of the flight as goes into a packet. */
    method SealNextPacket(maxOut: nat) returns (ok: bool, packet: seq<byte>, ghost recs: seq<Record>,
                                                ghost cuts: seq<Cut>)
      requires Valid() && written < messagesLen
      modifies this`written, this`offset, writer`emitted, writer`counted, writer.writeSequence, writer.lastWriteSequence
      ensures Valid()
      ensures Packed(writer.protection, Version(), flight, maxOut, old(Position()), packet, recs, cuts, Position())
      ensures ok ==> old(Position()).Before(Position())
      ensures ok ==> NumberedInTurn(recs, old(writer.Next()), old(writer.Last()))
      ensures ok ==> Filled(writer.protection, flight, maxOut, recs, cuts, Position())
      ensures Sendable(maxOut) && !ok ==> !writer.counted
      ensures old(writer.counted) && old(Use()) < NUMBERS ==> writer.counted && (ok ==> Use() <= old(Use()))
    {
      hide Core, FromBigEndian, Packed, Consecutive, Use, Sendable, InReach, NeededFor, AllFill, TooTight, Filled,
           RecordsBytes, Bodies, UseOf, NumberedFrom;
      packet, recs, cuts := [], [], [];
      CoreLengths();
      PackedNothing(writer.protection, Version(), flight, maxOut, Position());
      NoRecords(writer.wEpoch, writer.Next(), writer.Last());
      var madeProgress := false;
      while written < messagesLen
        invariant Valid() && writer.writeSequence.Length == writer.lastWriteSequence.Length == 8
        invariant Packed(writer.protection, Version(), flight, maxOut, old(Position()), packet, recs, cuts, Position())
        invariant NumberedInTurn(recs, old(writer.Next()), old(writer.Last()))
        invariant AllFill(writer.protection, flight, maxOut, recs, cuts)
        invariant if madeProgress then old(Position()).Before(Position()) else Position() == old(Position())
        invariant |packet| <= maxOut && (madeProgress || packet == [])
        invariant old(writer.counted) && old(Use()) < NUMBERS ==> writer.counted && Use() <= old(Use())
        decreases messagesLen - written
      {
        ghost var next, last, recs0 := writer.Next(), writer.Last(), recs;
        var res, rec;
        SendableAt(maxOut, written);
        res, packet, rec, recs, cuts := SealInto(maxOut, packet, recs, cuts, old(Position()));
        if res.SealError? {
          return false, packet, recs, cuts;
        }
        if res.NoProgress? {
          IsFilled(writer.protection, flight, maxOut, recs, cuts, Position());
          break;
        }
        OneMoreInTurn(recs0, rec, old(writer.Next()), old(writer.Last()), next, last);
        madeProgress := true;
        if res.PartOf? {
          IsFilled(writer.protection, flight, maxOut, recs, cuts, Position());
          break;
        }
      }
      if written == messagesLen { IsFilled(writer.protection, flight, maxOut, recs, cuts, Position()); }
      ok := madeProgress;  // else the MTU is too small
    }

    /** The loop body of seal_next_packet: the next record, behind those already in the packet. */
    method SealInto(maxOut: nat, packet0: seq<byte>, ghost recs0: seq<Record>, ghost cuts0: seq<Cut>, ghost from: Pos)
      returns (res: SealResult, packet: seq<byte>, rec: Record, ghost recs: seq<Record>, ghost cuts: seq<Cut>)
      requires Valid() && written < messagesLen && |packet0| <= maxOut
      requires Packed(writer.protection, Version(), flight, maxOut, from, packet0, recs0, cuts0, Position())
      modifies this`written, this`offset, writer`emitted, writer`counted, writer.writeSequence, writer.lastWriteSequence
      ensures Valid() && Packed(writer.protection, Version(), flight, maxOut, from, packet, recs, cuts, Position())
      ensures |packet| <= maxOut
      ensures packet == RecordsBytes(recs)
      ensures AllFill(writer.protection, flight, maxOut, recs0, cuts0) ==>
                AllFill(writer.protection, flight, maxOut, recs, cuts)
      ensures res.NoProgress? ==> TooTight(writer.protection, flight[old(written)], maxOut - |packet0|)
      ensures res.PartOf? ==> offset > 0
      ensures if res.PartOf? || res.Whole? then
                old(Position()).Before(Position()) && recs == recs0 + [rec] &&
                    NumberedFrom(rec, old(writer.Next()), old(writer.Last()))
              else Position() == old(Position()) && packet == packet0 && recs == recs0
      ensures res.Whole? ==> written == old(written) + 1
      ensures res.NoProgress? ==>
                maxOut - |packet0| < NeededFor(outgoing[old(written)]) &&
                    writer.Counters(old(writer.Next()), old(writer.Last()))
      ensures res.SealError? ==> !InReach(outgoing[old(written)]) || !writer.counted || maxOut >= MTU_LIMIT
      ensures old(writer.counted) && old(Use()) < NUMBERS ==>
                writer.counted && (!res.SealError? ==> Use() <= old(Use()))
    {
      hide RecordBytes, RecordsBytes, Core, Carries, FromBigEndian, Packed, UseOf, Plain, Fills, TooTight, AllFill,
           NumberedFrom;
      packet, recs, cuts := packet0, recs0, cuts0;
      PackedIs(writer.protection, Version(), flight, maxOut, from, packet, recs, cuts, Position());
      ghost var cut, to := Cut(0, 0, 0), Position();
      CoreLengths();
      ghost var next, last := writer.Next(), writer.Last();
      ghost var used := next + last;
      UseBehind(Bodies(flight), to, Pos(written + 1, 0), used);
      res, rec, cut := SealNextMessage(maxOut - |packet|);
      CoreLengths();
      if res.SealError? || res.NoProgress? {
        return;
      }
      OneUsed(rec, next, last);
      PackedMore(writer.protection, Version(), flight, maxOut, from, packet, recs, cuts, to, rec, cut);
      RecordsMore(recs, rec);
      if AllFill(writer.protection, flight, maxOut, recs0, cuts0) {
        FillMore(writer.protection, flight, maxOut, recs, cuts, rec, cut);
      }
      UseBehind(Bodies(flight), to, if res.Whole? then Pos(written + 1, 0) else Position(), used);
      packet := packet + RecordBytes(rec);
      recs := recs + [rec];
      cuts := cuts + [cut];
      if res.Whole? {
        written := written + 1;
      }
    }

    lemma {:induction false} CoreLengths()
      requires Core()
      ensures writer.writeSequence.Length == writer.lastWriteSequence.Length == 8
    {
      hide InTurn, Keeps, Protection.Sound;
    }

    /** The numbers that are used up, and those that the rest of the flight can take. */
    ghost function Use(): nat
      requires writer.writeSequence.Length == writer.lastWriteSequence.Length == 8 && written <= |flight|
      reads this`written, this`offset, this`flight, writer.writeSequence, writer.lastWriteSequence
    {
      UseOf(Bodies(flight), Position(), writer.Next() + writer.Last())
    }

    /** The records take the next numbers of their epochs. */
    ghost predicate NumberedInTurn(recs: seq<Record>, next: nat, last: nat)
      requires writer.writeSequence.Length == writer.lastWriteSequence.Length == 8
      reads writer, writer.writeSequence, writer.lastWriteSequence
    {
      Consecutive(recs, writer.wEpoch, next, last, writer.Next(), writer.Last())
    }

    lemma {:induction false} OneUsed(rec: Record, next: nat, last: nat)
      requires writer.writeSequence.Length == writer.lastWriteSequence.Length == 8 && NumberedFrom(rec, next, last)
      ensures rec.Fits() && writer.Next() + writer.Last() == next + last + 1
    {
      hide FromBigEndian;
    }

    lemma {:induction false} OneMoreInTurn(recs: seq<Record>, rec: Record, next0: nat, last0: nat, next: nat, last: nat)
      requires writer.writeSequence.Length == writer.lastWriteSequence.Length == 8
      requires Consecutive(recs, writer.wEpoch, next0, last0, next, last) && NumberedFrom(rec, next, last)
      ensures NumberedInTurn(recs + [rec], next0, last0)
    {
      hide Consecutive, FromBigEndian;
      ConsecutiveMore(recs, writer.wEpoch, next0, last0, next, last, rec);
    }

    /** Records that were numbered before others. */
    lemma {:induction false} InTurnBelow(recs: seq<Record>, more: seq<Record>, next0: nat, last0: nat, next: nat,
                                         last: nat)
      requires writer.writeSequence.Length == writer.lastWriteSequence.Length == 8
      requires Consecutive(recs, writer.wEpoch, next0, last0, next, last) && NumberedInTurn(more, next, last)
      ensures NumbersBelow(recs, writer.wEpoch, writer.Next(), writer.Last())
      ensures next0 <= writer.Next() && last0 <= writer.Last()
    {
      hide Consecutive, NumbersBelow, FromBigEndian;
      ConsecutiveBelow(recs, writer.wEpoch, next0, last0, next, last);
      ConsecutiveBelow(more, writer.wEpoch, next, last, writer.Next(), writer.Last());
      BelowMore(recs, writer.wEpoch, next, last, writer.Next(), writer.Last());
    }

    lemma {:induction false} UsedWithin()
      requires writer.writeSequence.Length == writer.lastWriteSequence.Length == 8 && written <= |flight|
      ensures writer.Next() + writer.Last() <= Use()
    {
      hide FromBigEndian, Weight;
    }

    /** send_flight, over a transport that takes the given number of packets before it would block. A packet it
        does not take is sealed again the next time, from the same position. */
    method SendFlight(mtu: nat, accepts: nat, flushes: bool)
      returns (r: FlightResult, packets: seq<seq<byte>>, ghost contents: seq<seq<Record>>, ghost cuts: seq<Cut>,
               ghost at: seq<Pos>)
      requires Valid()
      modifies this`written, this`offset, writer`emitted, writer`counted, writer.writeSequence, writer.lastWriteSequence
      ensures Valid() && |packets| <= accepts && |at| == |packets| + 1 && at[0] == old(Position())
      ensures Sent(writer.protection, Version(), flight, mtu, old(Position()), packets, contents, cuts, at[|packets|])
      ensures forall i :: 0 <= i < |packets| ==> at[i].Before(at[i + 1])
      ensures AllFull(writer.protection, Version(), flight, mtu, contents, at)
      ensures !r.Broken? ==> Position() == at[|packets|]
      ensures r.Done? ==> written == messagesLen
      ensures r.Done? ==> NumberedInTurn(Flat(contents), old(writer.Next()), old(writer.Last()))
      ensures Sendable(mtu) && r.Broken? ==> !writer.counted
      ensures r.Blocked? ==> |packets| == accepts || !flushes
      ensures !r.Broken? ==> NumbersBelow(Flat(contents), writer.wEpoch, writer.Next(), writer.Last())
      ensures !r.Broken? ==> old(writer.Next()) <= writer.Next() && old(writer.Last()) <= writer.Last()
      ensures old(writer.counted) && old(Use()) < NUMBERS ==>
                writer.counted && (!r.Broken? ==> writer.Next() + writer.Last() <= old(Use()))
      ensures |packets| <= Weight(Bodies(flight))
    {
      hide Core, Sent, Packed, Consecutive, NumbersBelow, Flat, FromBigEndian, UseOf, Spent, Weight, Sendable,
           Bodies, AllFull, Filled, PacketFull;
      CoreLengths();
      packets, contents, cuts, at := [], [], [], [Position()];
      SentNothing(writer.protection, Version(), flight, mtu, Position());
      NoneFull(writer.protection, Version(), flight, mtu, at);
      SpentMost(Bodies(flight), Position());
      NoRecords(writer.wEpoch, writer.Next(), writer.Last());
      while written < messagesLen
        invariant Valid() && writer.writeSequence.Length == writer.lastWriteSequence.Length == 8
        invariant |packets| <= accepts && |at| == |packets| + 1 && at[0] == old(Position())
        invariant Sent(writer.protection, Version(), flight, mtu, old(Position()), packets, contents, cuts, Position())
        invariant NumberedInTurn(Flat(contents), old(writer.Next()), old(writer.Last()))
        invariant old(writer.counted) && old(Use()) < NUMBERS ==> writer.counted && Use() <= old(Use())
        invariant Spent(Bodies(flight), old(Position())) +
                |packets| <= Spent(Bodies(flight), Position()) <= Weight(Bodies(flight))
        invariant AllFull(writer.protection, Version(), flight, mtu, contents, at) && |contents| == |packets|
        invariant at[|packets|] == Position() && forall i :: 0 <= i < |packets| ==> at[i].Before(at[i + 1])
        decreases messagesLen - written, if written < messagesLen then |flight[written].Body()| - offset else 0
      {
        var oldWritten, oldOffset := written, offset;
        var ok, packet;
        ghost var recs, more, from, next, last := [], [], Position(), writer.Next(), writer.Last();
        ok, packet, recs, more := SealNextPacket(mtu);
        if !ok {
          return Broken, packets, contents, cuts, at;
        }
        UsedWithin();
        if |packets| == accepts {
          InTurnBelow(Flat(contents), recs, old(writer.Next()), old(writer.Last()), next, last);
          written, offset := oldWritten, oldOffset;
          return Blocked, packets, contents, cuts, at;
        }
        SentMore(writer.protection, Version(), flight, mtu, old(Position()), packets, contents, cuts, from, packet,
                 recs, more, Position());
        FlatMore(contents, recs);
        FullPacket(writer.protection, Version(), flight, mtu, from, packet, recs, more, Position());
        FullMore(writer.protection, Version(), flight, mtu, contents, at, recs, Position());
        SpentBefore(Bodies(flight), from, Position());
        SpentMost(Bodies(flight), Position());
        ConsecutiveConcat(Flat(contents), recs, writer.wEpoch, old(writer.Next()), old(writer.Last()), next, last,
                          writer.Next(), writer.Last());
        packets, contents, cuts, at := packets + [packet], contents + [recs], cuts + more, at + [Position()];
      }
      ConsecutiveBelow(Flat(contents), writer.wEpoch, old(writer.Next()), old(writer.Last()), writer.Next(),
                       writer.Last());
      UsedWithin();
      r := if flushes then Done else Blocked;
    }

    /** dtls1_flush_flight: the flight is complete, and sent from where it was left. */
    method FlushFlight(mtu: nat, accepts: nat, flushes: bool)
      returns (r: FlightResult, packets: seq<seq<byte>>, ghost contents: seq<seq<Record>>, ghost cuts: seq<Cut>,
               ghost at: seq<Pos>)
      requires Valid()
      modifies this`complete, this`written, this`offset, writer`emitted, writer`counted, writer.writeSequence,
               writer.lastWriteSequence
      ensures Valid() && complete && |packets| <= accepts && |at| == |packets| + 1 && at[0] == old(Position())
      ensures Sent(writer.protection, Version(), flight, mtu, old(Position()), packets, contents, cuts, at[|packets|])
      ensures AllFull(writer.protection, Version(), flight, mtu, contents, at)
      ensures !r.Broken? ==> Position() == at[|packets|]
      ensures r.Done? ==> written == messagesLen
      ensures r.Done? ==> NumberedInTurn(Flat(contents), old(writer.Next()), old(writer.Last()))
      ensures Sendable(mtu) && r.Broken? ==> !writer.counted
      ensures r.Blocked? ==> |packets| == accepts || !flushes
      ensures !r.Broken? ==> NumbersBelow(Flat(contents), writer.wEpoch, writer.Next(), writer.Last())
      ensures !r.Broken? ==> old(writer.Next()) <= writer.Next() && old(writer.Last()) <= writer.Last()
      ensures old(writer.counted) && old(Use()) < NUMBERS ==>
                writer.counted && (!r.Broken? ==> writer.Next() + writer.Last() <= old(Use()))
      ensures |packets| <= Weight(Bodies(flight))
    {
      hide Core, Sent, Consecutive, NumbersBelow, Flat, FromBigEndian, Use, Weight, Sendable, AllFull;
      CoreLengths();
      complete := true;
      r, packets, contents, cuts, at := SendFlight(mtu, accepts, flushes);
    }

    /** dtls1_flush_flight and its retries: however often the transport blocks, the records it has taken hold exactly
        what is before the position, in order; at the end that is the whole flight, every byte once. */
    method FlushWithRetries(mtu: nat, patience: seq<nat>)
      returns (r: FlightResult, packets: seq<seq<byte>>, ghost contents: seq<seq<Record>>, ghost cuts: seq<Cut>)
      requires Valid() && Position() == Pos(0, 0)
      modifies this`complete, this`written, this`offset, writer`emitted, writer`counted, writer.writeSequence,
               writer.lastWriteSequence
      ensures Valid() && (patience != [] ==> complete)
      ensures !r.Broken? ==>
                && Sent(writer.protection, Version(), flight, mtu, Pos(0, 0), packets, contents, cuts, Position())
                && Holds(writer.protection, Flat(contents), flight, Position())
      ensures r.Done? ==>
                && CcsRecords(Flat(contents)) == |flight| - Handshakes(flight)
                && forall i :: 0 <= i < |flight| && flight[i].Handshake? ==>
                     Gathered(writer.protection, Flat(contents), flight[i].place % SEQS) == flight[i].message.body
      ensures Sendable(mtu) && r.Broken? ==> !writer.counted
    {
      hide Writer.Valid, Protection.Sound, Sent, Holds, InTurn, Gathered, Consecutive, Flat, FromBigEndian, CcsRecords;
      r, packets, contents, cuts := Blocked, [], [], [];
      SentNothing(writer.protection, Version(), flight, mtu, Position());
      var i := 0;
      while r.Blocked? && i < |patience|
        invariant Valid() && if i > 0 then complete else r.Blocked?
        invariant !r.Broken? ==>
                  Sent(writer.protection, Version(), flight, mtu, Pos(0, 0), packets, contents, cuts, Position())
        invariant r.Done? ==> written == messagesLen
        invariant Sendable(mtu) && r.Broken? ==> !writer.counted
        decreases |patience| - i
      {
        ghost var from := Position();
        var more;
        ghost var moreContents, moreCuts, at;
        r, more, moreContents, moreCuts, at := FlushFlight(mtu, patience[i], true);
        if !r.Broken? {
          SentConcat(writer.protection, Version(), flight, mtu, Pos(0, 0), packets, contents, cuts, from,
                     more, moreContents, moreCuts, Position());
          packets, contents, cuts := packets + more, contents + moreContents, cuts + moreCuts;
        }
        i := i + 1;
      }
      if !r.Broken? {
        SentHolds(writer.protection, Version(), flight, added, mtu, packets, contents, cuts, Position());
        if r.Done? {
          WholeFlight(writer.protection, Flat(contents), flight, Position());
        }
      }
    }

    /** dtls1_retransmit_outgoing_messages */
    method Retransmit(mtu: nat, accepts: nat, flushes: bool)
      returns (r: FlightResult, packets: seq<seq<byte>>, ghost contents: seq<seq<Record>>, ghost cuts: seq<Cut>,
               ghost to: Pos)
      requires Valid()
      modifies this`written, this`offset, writer`emitted, writer`counted, writer.writeSequence, writer.lastWriteSequence
      ensures Valid() && |packets| <= accepts
      ensures Sent(writer.protection, Version(), flight, mtu, Pos(0, 0), packets, contents, cuts, to)
      ensures !r.Broken? ==> to == Position()
      ensures !r.Broken? ==> Holds(writer.protection, Flat(contents), flight, Position())
      ensures r.Done? ==> written == messagesLen
      ensures exists at: seq<Pos> :: AllFull(writer.protection, Version(), flight, mtu, contents, at)
                                     && at[0] == Pos(0, 0) && at[|contents|] == to
      ensures r.Done? ==> NumberedInTurn(Flat(contents), old(writer.Next()), old(writer.Last()))
      ensures Sendable(mtu) && r.Broken? ==> !writer.counted
      ensures r.Blocked? ==> |packets| == accepts || !flushes
      ensures !r.Broken? ==> NumbersBelow(Flat(contents), writer.wEpoch, writer.Next(), writer.Last())
      ensures !r.Broken? ==> old(writer.Next()) <= writer.Next() && old(writer.Last()) <= writer.Last()
      ensures var use := old(writer.Next() + writer.Last()) + Weight(Bodies(flight));
        old(writer.counted) && use < NUMBERS ==>
          writer.counted && (!r.Broken? ==> writer.Next() + writer.Last() <= use)
      ensures |packets| <= Weight(Bodies(flight))
    {
      hide Writer.Valid, Protection.Sound, Sent, Holds, InTurn, Consecutive, NumbersBelow, Flat, FromBigEndian, Weight,
           PacketFull;
      CoreLengths();
      written, offset := 0, 0;
      UseAtStart(Bodies(flight), writer.Next() + writer.Last());
      ghost var at;
      r, packets, contents, cuts, at := SendFlight(mtu, accepts, flushes);
      to := at[|packets|];
      SentHolds(writer.protection, Version(), flight, added, mtu, packets, contents, cuts, to);
    }

    /** dtls1_write_app_data, behind the handshake: the data is one record of the current epoch, or none. */
    method WriteAppData(text: seq<byte>) returns (ret: int, rec: Record)
      requires Valid() && writer.wEpoch >= 1
      modifies writer`emitted, writer`counted, writer.writeSequence, writer.lastWriteSequence
      ensures Valid()
      ensures ret == -1 || ret == |text| <= 16384
      ensures ret == -1 ==>
                |text| > 16384 || !writer.counted || |text| + writer.MaxSealOverhead(false) >= 13 + 0x1_0000
      ensures ret > 0 ==> rec.Fits() && rec.typ == 23 && rec.Epoch() == writer.wEpoch && rec.version == Version()
      ensures ret > 0 ==> rec.body == writer.protection.seal(writer.wEpoch, 23, rec.version, rec.sequence, text)
      ensures ret > 0 ==> NumberedFrom(rec, old(writer.Next()), old(writer.Last()))
      ensures writer.counted ==> old(writer.Next()) <= writer.Next() <= old(writer.Next()) + 1
      ensures writer.counted ==> writer.Last() == old(writer.Last())
      ensures old(writer.counted && writer.Next() + 1 < NUMBERS) ==> writer.counted
    {
      hide FromBigEndian, InTurn, Keeps, RecordBytes, Writer.Valid, Protection.Sound;
      CoreLengths();
      rec := Record(0, 0, [], []);
      if |text| > MAX_PLAIN_LENGTH {
        return -1, rec;
      }
      if |text| == 0 {
        return 0, rec;
      }
      var ok;
      ok, rec := writer.SealRecord(|text| + writer.MaxSealOverhead(false), RT_APPLICATION_DATA, text, false);
      ret := if ok then |text| else -1;
    }

    /** dtls1_set_write_state */
    method SetWriteState()
      requires Valid()
      modifies writer, writer.writeSequence, writer.lastWriteSequence
      ensures Valid() && writer.wEpoch == (old(writer.wEpoch) + 1) % 0x1_0000 && writer.emitted == old(writer.emitted)
      ensures writer.counted <==> old(writer.counted) && old(writer.wEpoch) + 1 < 0x1_0000
      ensures writer.Counters(0, old(writer.Next()))
    {
      hide InTurn, Keeps, Protection.Sound;
      writer.NextEpoch();
    }
  }

  lemma {:induction false} NonceInOverhead(p: Protection, epoch: nat)
    requires p.Sound()
    ensures p.nonceLen(epoch) <= p.maxOverhead(epoch)
  {}

  lemma {:induction false} NoRecords(w: nat, next: nat, last: nat)
    ensures Flat([]) == [] && Consecutive([], w, next, last, next, last)
  {}

  lemma {:induction false} ShortConcat(flight: seq<Entry>, recs: seq<Record>, cuts: seq<Cut>, more: seq<Record>,
                                       moreCuts: seq<Cut>, mtu: nat)
    requires ShortBodies(flight, recs, cuts, mtu) && ShortBodies(flight, more, moreCuts, mtu)
    ensures ShortBodies(flight, recs + more, cuts + moreCuts, mtu)
  {
    hide ShortBody;
  }

  lemma {:induction false} RecordsMore(recs: seq<Record>, rec: Record)
    ensures RecordsBytes(recs + [rec]) == RecordsBytes(recs) + RecordBytes(rec)
  {
    assert (recs + [rec])[..|recs|] == recs;
  }

  lemma {:induction false} NextNumber(n: nat)
    ensures (n % SEQS + 1) % SEQS == (n + 1) % SEQS
  {}

  /** A message at the end of the flight. */
  lemma {:induction false} OneMore(flight: seq<Entry>, added: seq<Message>, e: Entry)
    requires InTurn(flight, added) && e.Fits()
    ensures e.Ccs? ==> InTurn(flight + [e], added)
    ensures e.Handshake? && e.place == |added| ==> InTurn(flight + [e], added + [e.message])
  {
    assert (flight + [e])[..|flight|] == flight;
    if e.Handshake? {
      assert (added + [e.message])[..|added|] == added;
    }
  }

  lemma {:induction false} SentHolds(p: Protection, version: nat, flight: seq<Entry>, added: seq<Message>, mtu: nat,
                                     packets: seq<seq<byte>>, contents: seq<seq<Record>>, cuts: seq<Cut>, to: Pos)
    requires p.Sound() && InTurn(flight, added) && |flight| <= FLIGHT
    requires Sent(p, version, flight, mtu, Pos(0, 0), packets, contents, cuts, to)
    ensures Holds(p, Flat(contents), flight, to)
  {
    hide CarryAll, Leads, Holds, InTurn, Flat;
    FlightCarried(p, version, Flat(contents), flight, added, cuts, to);
  }

  lemma {:induction false} FixedUp(typ: byte, body: seq<byte>, number: nat, len: seq<byte>)
    requires len == BigEndian(|body|, 3)
    ensures var raw := BigEndian(typ, 1) + BigEndian(0, 3) + BigEndian(number, 2) + BigEndian(0, 3) + len + body;
      raw[..1] + raw[9..12] + raw[4..] == FragmentBytes(WholeFragment(Message(typ, body), number))
  {
    hide BigEndian;
    var t, z, n := BigEndian(typ, 1), BigEndian(0, 3), BigEndian(number, 2);
    var raw := t + z + n + z + len + body;
    assert raw[..1] == t && raw[9..12] == len && raw[4..] == n + (z + (len + body));
  }
}
