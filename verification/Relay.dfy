/** What a network that loses nothing brings: every message of every flight, across the change of keys. */
module Relay {
  import opened Bytes
  import opened DtlsWire
  import opened DtlsRecord
  import opened Replay
  import opened Ring
  import opened Cutting
  import opened Flight
  import opened Transport
  import S = Sender
  import R = Receiver

  // ---- One record ----

  /** Of the next message the first off bytes have come, and nothing of those behind it. */
  ghost predicate RingAt(r: Incoming, off: nat)
  {
    |r.slots| == FLIGHT && OthersEmpty(r) &&
    var s := r.slots[r.next % FLIGHT];
    if off == 0 then s.None?
    else s.Some? && off < |s.value.bytes| && forall j: nat :: j < |s.value.bytes| ==>
              (j in s.value.covered <==> j < off)
  }

  ghost predicate OthersEmpty(r: Incoming)
    requires |r.slots| == FLIGHT
  {
    forall i :: 0 <= i < FLIGHT && i != r.next % FLIGHT ==> r.slots[i].None?
  }

  /** The next message is complete, and there is nothing of those behind it. */
  ghost predicate RingFull(r: Incoming)
  {
    |r.slots| == FLIGHT && OthersEmpty(r) && r.slots[r.next % FLIGHT].Some? && r.slots[r.next % FLIGHT].value.Complete()
  }

  /** The next bytes of the next message. */
  lemma {:induction false} PieceArrives(r: Incoming, epoch: nat, maxLen: nat, f: Fragment, sent: seq<Message>)
    requires InWindow(r, epoch) && Faithful(r, sent) && Genuine(f, sent) && RingAt(r, f.off)
    requires f.seqNo == r.next && f.msgLen <= maxLen && (f.body != [] || f.off == f.msgLen)
    ensures var s := Place(r, epoch, maxLen, f);
      s.ok && if f.off + |f.body| == f.msgLen then RingFull(s.ring) else RingAt(s.ring, f.off + |f.body|)
  {
    hide InWindow, Reassembly.Shows;
    GenuineRejected(r, epoch, maxLen, f, sent);
    if r.slots[r.next % FLIGHT].Some? {
      SlotNumber(r, epoch, f);
    }
  }

  /** A record with a single fragment. */
  lemma {:induction false} PlaceOne(r: Incoming, epoch: nat, maxLen: nat, f: Fragment)
    requires |r.slots| == FLIGHT && f.Fits() && Place(r, epoch, maxLen, f).ok
    ensures PlaceAll(r, epoch, maxLen, FragmentBytes(f)) == Place(r, epoch, maxLen, f)
  {
    hide Place, ParseFragment, FragmentBytes;
    FragmentRoundTrip(f, []);
    assert FragmentBytes(f) + [] == FragmentBytes(f);
    var s := Place(r, epoch, maxLen, f);
    assert PlaceAll(s.ring, epoch, maxLen, []) == Received(true, s.ring);
  }

  /** The record layer takes a record that is new and of its epoch and version. */
  lemma {:induction false} Examined(p: Protection, version: nat, nullCipher: bool, recorded: set<nat>, rec: Record,
                                    e: Entry, c: Cut, rest: seq<byte>)
    requires p.Sound() && Carries(p, version, rec, e, c)
    requires if nullCipher then version / 0x100 == VERSION_MAJOR else version == p.recordVersion(e.epoch)
    requires |rec.body| <= MAX_ENCRYPTED_LENGTH && |Plain(e, c)| <= MAX_PLAIN_LENGTH && !Stale(recorded, rec.Number())
    ensures Examine(p, e.epoch, nullCipher, recorded, RecordBytes(rec) + rest)
            == DtlsRecord.Success(rec.typ, rec.Number(), Plain(e, c), |RecordBytes(rec)|)
  {
    hide ParseRecord, RecordBytes, Stale, FromBigEndian, Plain;
    RecordRoundTrip(rec, rest);
  }

  /** A record with the next bytes of the next message is taken, and the ring has them. */
  lemma {:induction false} HandshakeTaken(p: Protection, version: nat, nullCipher: bool, maxLen: nat, s: R.Absorbed,
                                          rec: Record, e: Entry, c: Cut, rest: seq<byte>, sent: seq<Message>)
    requires p.Sound() && Carries(p, version, rec, e, c) && e.Handshake? && e.Fits() && |e.message.body| <= maxLen
    requires if nullCipher then version / 0x100 == VERSION_MAJOR else version == p.recordVersion(e.epoch)
    requires |rec.body| <= MAX_ENCRYPTED_LENGTH && |Plain(e, c)| <= MAX_PLAIN_LENGTH && !Stale(s.recorded, rec.Number())
    requires |s.ring.slots| == FLIGHT && InWindow(s.ring, e.epoch) && Faithful(s.ring, sent) && RingAt(s.ring, c.off)
    requires s.ring.next == e.place < |sent| <= SEQS && sent[e.place] == e.message
    requires c.len > 0 || c.off + c.len == |e.message.body|
    ensures var packet := RecordBytes(rec) + rest;
      var t := R.AbsorbRecord(p, e.epoch, nullCipher, maxLen, s, packet);
      && packet != [] && t.alive && t.recorded == s.recorded + {rec.Number()}
      && R.Consumed(p, e.epoch, nullCipher, maxLen, s, packet) == |RecordBytes(rec)|
      && !R.FlagsCcs(Examine(p, e.epoch, nullCipher, s.recorded, packet), nullCipher)
      && if c.off + c.len == |e.message.body| then RingFull(t.ring) else RingAt(t.ring, c.off + c.len)
  {
    hide Examine, RecordBytes, Place, PlaceAll, FragmentBytes, InWindow, Faithful, Stale, FromBigEndian, RingAt,
         RingFull;
    Examined(p, version, nullCipher, s.recorded, rec, e, c, rest);
    var f := Share(e, c);
    PieceArrives(s.ring, e.epoch, maxLen, f, sent);
    PlaceOne(s.ring, e.epoch, maxLen, f);
    RecordLength(rec);
  }

  /** A record with a ChangeCipherSpec is flagged. */
  lemma {:induction false} CcsTaken(p: Protection, version: nat, maxLen: nat, s: R.Absorbed, rec: Record, e: Entry,
                                    c: Cut, rest: seq<byte>)
    requires p.Sound() && Carries(p, version, rec, e, c) && e.Ccs? && version / 0x100 == VERSION_MAJOR
    requires |rec.body| <= MAX_ENCRYPTED_LENGTH && !Stale(s.recorded, rec.Number()) && |s.ring.slots| == FLIGHT
    ensures var packet := RecordBytes(rec) + rest;
      var t := R.AbsorbRecord(p, e.epoch, true, maxLen, s, packet);
      && packet != [] && t.alive && t.ring == s.ring
      && R.Consumed(p, e.epoch, true, maxLen, s, packet) == |RecordBytes(rec)|
      && R.FlagsCcs(Examine(p, e.epoch, true, s.recorded, packet), true)
  {
    hide Examine, RecordBytes, PlaceAll, Stale, FromBigEndian;
    Examined(p, version, true, s.recorded, rec, e, c, rest);
    RecordLength(rec);
  }

  // ---- A flight ----

  /** The epoch of the flight at a place; behind its end, that of the writer. */
  function EpochAt(flight: seq<Entry>, w: nat, i: nat): nat
  {
    if i < |flight| then flight[i].epoch else w
  }

  /** The epochs go on by one behind a ChangeCipherSpec and nowhere else, and there is none but in epoch 0. */
  ghost predicate Keyed(flight: seq<Entry>, w: nat)
  {
    forall i :: 0 <= i < |flight| ==>
                  if flight[i].Ccs? then flight[i].epoch == 0 && EpochAt(flight, w, i + 1) == 1
                  else EpochAt(flight, w, i + 1) == flight[i].epoch
  }

  lemma {:induction false} KeyedNext(flight: seq<Entry>, w: nat, i: nat)
    requires Keyed(flight, w) && i < |flight|
    ensures EpochAt(flight, w, i + 1) == if flight[i].Ccs? then 1 else flight[i].epoch
    ensures flight[i].Ccs? ==> flight[i].epoch == 0
  {}

  /** What is not in the epoch of the writer is in the clear, and then the writer is in the first epoch. */
  lemma {:induction false} KeyedEpoch(flight: seq<Entry>, w: nat, i: nat)
    requires Keyed(flight, w) && i < |flight|
    ensures flight[i].epoch == w || (flight[i].epoch == 0 && w == 1)
    decreases |flight| - i
  {
    if i + 1 < |flight| {
      KeyedEpoch(flight, w, i + 1);
    }
  }

  /** Packets of this size have room for a fragment and for no more than a record may hold; records have a DTLS
      version. */
  ghost predicate Suits(p: Protection, mtu: nat)
  {
    && p.Sound() && mtu <= RT_HEADER_LENGTH + MAX_PLAIN_LENGTH
    && (forall e: nat {:trigger p.recordVersion(e)} :: p.recordVersion(e) / 0x100 == VERSION_MAJOR)
    && (forall e: nat {:trigger p.maxOverhead(e)} :: HM_HEADER_LENGTH + 1 + RT_HEADER_LENGTH + p.maxOverhead(e) <= mtu)
  }

  /** The records that are still to come carry the rest of the flight, numbered in turn. */
  ghost predicate Ahead(p: Protection, w: nat, flight: seq<Entry>, mtu: nat, recs: seq<Record>, cuts: seq<Cut>,
                        from: Pos, to: Pos, next0: nat, last0: nat, next: nat, last: nat)
  {
    && CarryAll(p, p.recordVersion(w), recs, flight, cuts) && S.ShortBodies(flight, recs, cuts, mtu)
    && Leads(Bodies(flight), from, cuts, to) && Consecutive(recs, w, next0, last0, next, last)
  }

  /** The first record carries the cut at the position, and the others what is behind it. */
  lemma {:induction false} AheadFront(p: Protection, w: nat, flight: seq<Entry>, mtu: nat, recs: seq<Record>,
                                      cuts: seq<Cut>, from: Pos, to: Pos, next0: nat, last0: nat, next: nat, last: nat)
    requires Ahead(p, w, flight, mtu, recs, cuts, from, to, next0, last0, next, last) && recs != []
    ensures cuts != [] && from.written < |flight|
    ensures var e, c, rec := flight[from.written], cuts[0], recs[0];
      && Carries(p, p.recordVersion(w), rec, e, c) && RT_HEADER_LENGTH + |Plain(e, c)| <= mtu
      && c.index == from.written && c.off == from.offset && (c.len > 0 || c.off + c.len == |e.Body()|)
      && rec.Number() == rec.Epoch() * NUMBERS + (if e.epoch == w then next0 else last0)
      && Ahead(p, w, flight, mtu, recs[1..], cuts[1..],
               if c.off + c.len == |e.Body()| then Pos(from.written + 1, 0) else Pos(from.written, c.off + c.len), to,
               if e.epoch == w then next0 + 1 else next0, if e.epoch == w then last0 else last0 + 1, next, last)
  {
    hide Leads, Consecutive, FromBigEndian, Plain;
    assert |cuts| == |recs|;
    LeadsFront(Bodies(flight), from, cuts, to);
    ConsecutiveFront(recs, w, next0, last0, next, last);
    assert S.ShortBody(flight[cuts[0].index], cuts[0], mtu);
    CarryRest(p, p.recordVersion(w), recs, flight, cuts, mtu);
  }

  lemma {:induction false} CarryRest(p: Protection, version: nat, recs: seq<Record>, flight: seq<Entry>,
                                     cuts: seq<Cut>, mtu: nat)
    requires CarryAll(p, version, recs, flight, cuts) && S.ShortBodies(flight, recs, cuts, mtu) && recs != []
    ensures CarryAll(p, version, recs[1..], flight, cuts[1..]) && S.ShortBodies(flight, recs[1..], cuts[1..], mtu)
    ensures cuts[0].index < |flight| && Carries(p, version, recs[0], flight[cuts[0].index], cuts[0])
  {
    hide Carries;
  }

  /** Every number recorded is below the next one of the epoch. */
  ghost predicate Below(recorded: set<nat>, epoch: nat, next: nat)
  {
    forall n :: n in recorded ==> n < epoch * NUMBERS + next
  }

  lemma {:induction false} BelowIsNew(recorded: set<nat>, epoch: nat, next: nat)
    requires Below(recorded, epoch, next)
    ensures !Stale(recorded, epoch * NUMBERS + next)
    ensures Below(recorded + {epoch * NUMBERS + next}, epoch, next + 1)
  {}

  /** The receiver has taken the flight up to a position, and waits for what is behind it. */
  ghost predicate InStep(world: World, at: Pos, next: nat, last: nat)
    reads world, world.sender, world.sender.writer, world.receiver, world.receiver.reader, world.receiver.reader.bitmap
  {
    var flight, w, reader := world.sender.flight, world.sender.writer.wEpoch, world.receiver.reader;
    && world.alive && !world.receiver.hasCcs && !world.receiver.hasMessage && at.written <= |flight|
    && |world.delivered| == |world.sent| - Handshakes(flight) + Handshakes(flight[..at.written])
    && reader.rEpoch == EpochAt(flight, w, at.written) && (reader.nullCipher <==> reader.rEpoch == 0)
    && RingAt(world.receiver.ring, at.offset)
    && Below(reader.bitmap.recorded, reader.rEpoch, if reader.rEpoch == w then next else last)
  }

  /** What holds in every run, as far as it is needed here. */
  lemma {:induction false} WorldFacts(world: World)
    requires world.Valid()
    ensures {world.receiver, world.receiver.incoming, world.receiver.reader,
             world.receiver.reader.bitmap} <= world.receiver.Repr
    ensures world !in world.sender.Repr() && world !in world.receiver.Repr && world.sender.Repr() !! world.receiver.Repr
    ensures world.sender.writer.protection == world.Keys() && world.Keys().Sound()
    ensures InTurn(world.sender.flight, world.sent) && |world.sender.flight| <= FLIGHT
    ensures |world.receiver.ring.slots| == FLIGHT
    ensures |world.delivered| == world.receiver.ring.next + if world.receiver.hasMessage then 1 else 0
    ensures world.delivered <= world.sent
    ensures InWindow(world.receiver.ring, world.receiver.reader.rEpoch) && Faithful(world.receiver.ring, world.sent)
    ensures world.receiver.handshakeReadSeq == world.receiver.ring.next
    ensures world.buffer == S.RecordsBytes(world.left)
    ensures world.sender.writer.writeSequence.Length == world.sender.writer.lastWriteSequence.Length == 8
    ensures world.sender.messagesLen == |world.sender.flight| && world.sender.written <= |world.sender.flight|
    ensures world.sender.written == |world.sender.flight| ==> world.sender.offset == 0
    ensures |world.network| == |world.contents|
  {
    hide S.Connection.Valid, InTurn, InWindow, Faithful, AllGenuine, Protection.Sound;
    RingOf(world.receiver);
    SenderFacts(world.sender);
  }

  /** Everything but the receiver is as it was. */
  twostate predicate OnlyReceiver(world: World)
    reads world, world.sender, world.sender.writer
  {
    && world.sent == old(world.sent) && world.network == old(world.network) && world.contents == old(world.contents)
    && unchanged(world.sender) && unchanged(world.sender.writer)
  }

  /** What the receiver has behind the record at the front of a packet, which carries the cut at the position. */
  ghost predicate FrontTaken(world: World, s: R.Absorbed, e: Entry, c: Cut, rec: Record, packet: seq<byte>)
    reads world, world.receiver, world.receiver.reader
  {
    var p, reader := world.Keys(), world.receiver.reader;
    |s.ring.slots| == FLIGHT && packet != [] ==>
      var t := R.AbsorbRecord(p, reader.rEpoch, reader.nullCipher, world.receiver.maxLen, s, packet);
      && t.alive && R.Consumed(p, reader.rEpoch, reader.nullCipher, world.receiver.maxLen, s, packet) ==
          |RecordBytes(rec)|
      && (R.FlagsCcs(Front(world.receiver, s.recorded, packet), reader.nullCipher) <==> e.Ccs?)
      && (e.Ccs? ==> t.ring == s.ring)
      && (e.Handshake? ==>
            t.recorded == s.recorded + {rec.Number()} &&
            (if c.off + c.len == |e.message.body| then RingFull(t.ring) else RingAt(t.ring, c.off + c.len)))
  }

  lemma {:induction false} FrontIsTaken(world: World, mtu: nat, at: Pos, next0: nat, last0: nat, rec: Record, c: Cut,
                                        rest: seq<byte>)
    requires world.Valid() && |world.sent| < SEQS && InStep(world, at, next0, last0) && Suits(world.Keys(), mtu)
    requires Keyed(world.sender.flight, world.sender.writer.wEpoch) && at.written < |world.sender.flight|
    requires var w, e := world.sender.writer.wEpoch, world.sender.flight[at.written];
      && |e.Body()| <= world.receiver.maxLen && Carries(world.Keys(), world.Keys().recordVersion(w), rec, e, c)
      && |RecordBytes(rec)| <= mtu && RT_HEADER_LENGTH + |Plain(e, c)| <= mtu
      && c.off == at.offset && (c.len > 0 || c.off + c.len == |e.Body()|)
      && rec.Number() == rec.Epoch() * NUMBERS + if e.epoch == w then next0 else last0
    ensures FrontTaken(world, Has(world.receiver), world.sender.flight[at.written], c, rec, RecordBytes(rec) + rest)
  {
    hide World.Valid, RecordBytes, Examine, PlaceAll, InWindow, Faithful, InTurn, Plain, FromBigEndian, Stale, RingAt,
         RingFull, Protection.Sound, Below;
    WorldFacts(world);
    var p, w, flight, reader := world.Keys(), world.sender.writer.wEpoch, world.sender.flight, world.receiver.reader;
    var e := flight[at.written];
    KeyedEpoch(flight, w, at.written);
    PlaceInTurn(flight, world.sent, at.written);
    BelowIsNew(reader.bitmap.recorded, reader.rEpoch, if reader.rEpoch == w then next0 else last0);
    CutFits(p, p.recordVersion(w), rec, e, c);
    RecordLength(rec);
    if e.Handshake? {
      HandshakeTaken(p, p.recordVersion(w), reader.nullCipher, world.receiver.maxLen, Has(world.receiver), rec, e, c,
                     rest, world.sent);
    } else {
      CcsTaken(p, p.recordVersion(w), world.receiver.maxLen, Has(world.receiver), rec, e, c, rest);
    }
  }

  lemma {:induction false} FullAdvances(r: Incoming)
    requires RingFull(r)
    ensures RingAt(R.Advance(r), 0) && r.slots[r.next % FLIGHT].Some? && r.slots[r.next % FLIGHT].value.Complete()
  {}

  lemma {:induction false} RingAtMeans(r: Incoming, off: nat)
    requires RingAt(r, off)
    ensures var s := r.slots[r.next % FLIGHT];
      !(s.Some? && s.value.Complete()) && (off == 0 ==> forall i :: 0 <= i < FLIGHT ==> r.slots[i].None?)
  {
    if off > 0 {
      assert off !in r.slots[r.next % FLIGHT].value.covered;
    }
  }

  lemma {:induction false} RestLength(left: seq<Record>)
    requires left != []
    ensures |RecordBytes(left[0])| > 0 && (S.RecordsBytes(left[1..]) == [] ==> left[1..] == [])
  {}

  /** No message is longer than the receiver allows. */
  ghost predicate Short(world: World)
    reads world.sender
  {
    forall i :: 0 <= i < |world.sender.flight| ==> |world.sender.flight[i].Body()| <= world.receiver.maxLen
  }

  /** Where a cut at a position leads. */
  ghost function Behind(e: Entry, c: Cut, at: Pos): Pos
  {
    if c.off + c.len == |e.Body()| then Pos(at.written + 1, 0) else Pos(at.written, c.off + c.len)
  }

  /** The record with the cut at the position has been opened, and nothing has been done about it. */
  ghost predicate JustOpened(world: World, at: Pos, c: Cut, next: nat, last: nat)
    reads world, world.sender, world.sender.writer, world.receiver, world.receiver.reader, world.receiver.reader.bitmap
  {
    var flight, w, receiver := world.sender.flight, world.sender.writer.wEpoch, world.receiver;
    && world.alive && !receiver.hasMessage && at.written < |flight| &&
    var e := flight[at.written];
    && c.off + c.len <= |e.Body()| && receiver.hasCcs == e.Ccs? && SameReader(receiver, e.epoch, e.epoch == 0)
    && |world.delivered| == |world.sent| - Handshakes(flight) + Handshakes(flight[..at.written])
    && (if e.Handshake? && c.off + c.len == |e.Body()| then RingFull(receiver.ring)
        else RingAt(receiver.ring, Behind(e, c, at).offset))
    && (e.Handshake? ==> Below(receiver.reader.bitmap.recorded, e.epoch, if e.epoch == w then next else last))
  }

  /** The first half of PassRecord. */
  method OpenFront(world: World, ghost mtu: nat, ghost recs: seq<Record>, ghost cuts: seq<Cut>, ghost at: Pos,
                   ghost to: Pos, ghost next0: nat, ghost last0: nat, ghost next: nat, ghost last: nat)
    returns (ghost next1: nat, ghost last1: nat)
    requires world.Valid() && |world.sent| < SEQS && InStep(world, at, next0, last0) && Suits(world.Keys(), mtu)
    requires Keyed(world.sender.flight, world.sender.writer.wEpoch) && Short(world) && |world.buffer| <= mtu
    requires Ahead(world.Keys(), world.sender.writer.wEpoch, world.sender.flight, mtu, recs, cuts, at, to, next0,
                   last0, next, last)
    requires recs != [] && world.left != [] && world.left[0] == recs[0]
    modifies world, world.receiver.Repr
    ensures world.Valid() && fresh(world.receiver.Repr - old(world.receiver.Repr)) && OnlyReceiver(world)
    ensures world.left == old(world.left)[1..] && |world.buffer| < |old(world.buffer)|
    ensures cuts != [] && JustOpened(world, at, cuts[0], next1, last1)
    ensures Ahead(world.Keys(), world.sender.writer.wEpoch, world.sender.flight, mtu, recs[1..], cuts[1..],
                  Behind(world.sender.flight[at.written], cuts[0], at), to, next1, last1, next, last)
  {
    hide World.Valid, RecordBytes, Examine, PlaceAll, InWindow, Faithful, InTurn, Plain, FromBigEndian, Carries,
         RingAt, RingFull, Protection.Sound, Below, Ahead, Keyed, S.RecordsBytes, R.AbsorbRecord, R.Consumed, Suits,
         Handshakes, Stale;
    WorldFacts(world);
    ghost var w, flight := world.sender.writer.wEpoch, world.sender.flight;
    AheadFront(world.Keys(), w, flight, mtu, recs, cuts, at, to, next0, last0, next, last);
    ghost var e, c, rest := flight[at.written], cuts[0], S.RecordsBytes(world.left[1..]);
    RecordsFront(world.left);
    FrontIsTaken(world, mtu, at, next0, last0, recs[0], c, rest);
    RestLength(world.left);
    next1, last1 := if e.epoch == w then next0 + 1 else next0, if e.epoch == w then last0 else last0 + 1;
    BelowIsNew(world.receiver.reader.bitmap.recorded, e.epoch, if e.epoch == w then next0 else last0);
    EpochOf(world.Keys(), w, recs[0], e, c);
    world.OpenHandshake();
    WorldFacts(world);
  }

  lemma {:induction false} EpochOf(p: Protection, w: nat, rec: Record, e: Entry, c: Cut)
    requires Carries(p, p.recordVersion(w), rec, e, c)
    ensures rec.Fits() && rec.Epoch() == e.epoch && c.off + c.len <= |e.Body()|
  {}

  /** A receiver that goes on as far as it can takes the record at the front of its packet: a message that is complete
      is handed out, and behind a ChangeCipherSpec the keys are changed. */
  method PassRecord(world: World, ghost mtu: nat, ghost recs: seq<Record>, ghost cuts: seq<Cut>, ghost at: Pos,
                    ghost to: Pos, ghost next0: nat, ghost last0: nat, ghost next: nat, ghost last: nat)
    returns (ghost at1: Pos, ghost next1: nat, ghost last1: nat)
    requires world.Valid() && |world.sent| < SEQS && InStep(world, at, next0, last0) && Suits(world.Keys(), mtu)
    requires Keyed(world.sender.flight, world.sender.writer.wEpoch) && Short(world) && |world.buffer| <= mtu
    requires Ahead(world.Keys(), world.sender.writer.wEpoch, world.sender.flight, mtu, recs, cuts, at, to, next0,
                   last0, next, last)
    requires recs != [] && world.left != [] && world.left[0] == recs[0]
    modifies world, world.receiver.Repr
    ensures world.Valid() && fresh(world.receiver.Repr - old(world.receiver.Repr)) && OnlyReceiver(world)
    ensures InStep(world, at1, next1, last1) && world.left == old(world.left)[1..]
    ensures |world.buffer| < |old(world.buffer)|
    ensures cuts != []
    ensures Ahead(world.Keys(), world.sender.writer.wEpoch, world.sender.flight, mtu, recs[1..], cuts[1..], at1, to,
                  next1, last1, next, last)
  {
    hide World.Valid, InStep, JustOpened, Protection.Sound, Ahead, Suits, Keyed, Short;
    next1, last1 := OpenFront(world, mtu, recs, cuts, at, to, next0, last0, next, last);
    at1 := GoOn(world, at, cuts[0], next1, last1);
  }

  /** The second half of PassRecord. */
  method GoOn(world: World, ghost at: Pos, ghost c: Cut, ghost next: nat, ghost last: nat) returns (ghost at1: Pos)
    requires world.Valid() && |world.sent| < SEQS && JustOpened(world, at, c, next, last)
    requires Keyed(world.sender.flight, world.sender.writer.wEpoch)
    modifies world, world.receiver.Repr
    ensures world.Valid() && fresh(world.receiver.Repr - old(world.receiver.Repr)) && OnlyReceiver(world)
    ensures at1 == Behind(world.sender.flight[at.written], c, at) && InStep(world, at1, next, last)
    ensures world.left == old(world.left) && world.buffer == old(world.buffer)
  {
    hide World.Valid, InStep, RingAt, RingFull, Below, Keyed, Handshakes;
    WorldFacts(world);
    at1 := Behind(world.sender.flight[at.written], c, at);
    if world.receiver.hasCcs {
      ChangeReadKeys(world, at, c, next, last);
    } else {
      HandOut(world, at, c, next, last);
    }
  }

  /** A message that is complete is handed out. */
  method HandOut(world: World, ghost at: Pos, ghost c: Cut, ghost next: nat, ghost last: nat)
    requires world.Valid() && |world.sent| < SEQS && JustOpened(world, at, c, next, last) && !world.receiver.hasCcs
    requires Keyed(world.sender.flight, world.sender.writer.wEpoch)
    modifies world`delivered, world`origins, world.receiver, world.receiver.incoming
    ensures world.Valid() && world.receiver.Repr == old(world.receiver.Repr) && OnlyReceiver(world)
    ensures InStep(world, Behind(world.sender.flight[at.written], c, at), next, last)
  {
    hide World.Valid, RingAt, RingFull, Below, Keyed, Handshakes, InTurn, InWindow, Faithful, FromBigEndian,
         Protection.Sound, S.RecordsBytes, R.Advance;
    WorldFacts(world);
    ghost var flight, w := world.sender.flight, world.sender.writer.wEpoch;
    KeyedNext(flight, w, at.written);
    HandshakesUpto(flight, at.written, at.written + 1);
    if c.off + c.len == |flight[at.written].Body()| {
      FullAdvances(world.receiver.ring);
    } else {
      RingAtMeans(world.receiver.ring, c.off + c.len);
    }
    Receive(world);
    WorldFacts(world);
  }

  /** Behind a ChangeCipherSpec the keys are changed. */
  method ChangeReadKeys(world: World, ghost at: Pos, ghost c: Cut, ghost next: nat, ghost last: nat)
    requires world.Valid() && |world.sent| < SEQS && JustOpened(world, at, c, next, last) && world.receiver.hasCcs
    requires Keyed(world.sender.flight, world.sender.writer.wEpoch)
    modifies world, world.receiver.Repr
    ensures world.Valid() && fresh(world.receiver.Repr - old(world.receiver.Repr)) && OnlyReceiver(world)
    ensures InStep(world, Behind(world.sender.flight[at.written], c, at), next, last)
    ensures world.left == old(world.left) && world.buffer == old(world.buffer)
  {
    hide World.Valid, RingAt, RingFull, Below, Keyed, Handshakes, Examine, R.AbsorbRecord, R.FlagsCcs,
         World.TookFront, InTurn, InWindow, Faithful, FromBigEndian, Protection.Sound, S.RecordsBytes;
    WorldFacts(world);
    ghost var flight, w := world.sender.flight, world.sender.writer.wEpoch;
    KeyedNext(flight, w, at.written);
    HandshakesUpto(flight, at.written, at.written + 1);
    NoneRecorded(1, if w == 1 then next else last);
    RingAtMeans(world.receiver.ring, 0);
    var got := world.OpenChangeCipherSpec();
    WorldFacts(world);
    var ok := world.NextReadEpoch();
    WorldFacts(world);
  }

  /** The next message, if it is complete, is handed out and done with. */
  method Receive(world: World)
    requires world.Valid() && |world.sent| < SEQS && !world.receiver.hasMessage
    modifies world`delivered, world`origins, world.receiver, world.receiver.incoming
    ensures world.Valid() && world.receiver.Repr == old(world.receiver.Repr) && !world.receiver.hasMessage
    ensures world.receiver.hasCcs == old(world.receiver.hasCcs)
    ensures |old(world.receiver.ring.slots)| == FLIGHT && old(world.delivered) <= world.delivered
    ensures if old(world.receiver.CurrentComplete()) then
              && world.receiver.ring == R.Advance(old(world.receiver.ring))
              && |world.delivered| == |old(world.delivered)| + 1
            else world.receiver.ring == old(world.receiver.ring) && world.delivered == old(world.delivered)
  {
    hide World.Valid, R.Advance;
    WorldFacts(world);
    world.GetMessage();
    WorldFacts(world);
    if world.receiver.hasMessage {
      world.NextMessage();
      WorldFacts(world);
    }
  }

  lemma {:induction false} NoneRecorded(epoch: nat, next: nat)
    ensures Below({}, epoch, next)
  {}

  /** A packet arrives whose records are the next ones, and is taken. */
  method PassPacket(world: World, i: nat, ghost mtu: nat, ghost recs: seq<Record>, ghost cuts: seq<Cut>, ghost at: Pos,
                    ghost to: Pos, ghost next0: nat, ghost last0: nat, ghost next: nat, ghost last: nat)
    returns (ghost cuts1: seq<Cut>, ghost at1: Pos, ghost next1: nat, ghost last1: nat)
    requires world.Valid() && |world.sent| < SEQS && InStep(world, at, next0, last0) && Suits(world.Keys(), mtu)
    requires Keyed(world.sender.flight, world.sender.writer.wEpoch) && Short(world) && world.buffer == []
    requires i < |world.network| == |world.contents| && |world.network[i]| <= mtu && world.contents[i] <= recs
    requires Ahead(world.Keys(), world.sender.writer.wEpoch, world.sender.flight, mtu, recs, cuts, at, to, next0,
                   last0, next, last)
    modifies world, world.receiver.Repr
    ensures world.Valid() && fresh(world.receiver.Repr - old(world.receiver.Repr)) && OnlyReceiver(world)
    ensures InStep(world, at1, next1, last1) && world.buffer == []
    ensures Ahead(world.Keys(), world.sender.writer.wEpoch, world.sender.flight, mtu, recs[|world.contents[i]|..],
                  cuts1, at1, to, next1, last1, next, last)
  {
    hide World.Valid, Protection.Sound, Ahead, Suits, Keyed, S.RecordsBytes, RingAt, Below, Handshakes;
    cuts1, at1, next1, last1 := cuts, at, next0, last0;
    ghost var k, mine := 0, world.contents[i];
    world.Arrive(i);
    WorldFacts(world);
    while world.buffer != []
      invariant world.Valid() && fresh(world.receiver.Repr - old(world.receiver.Repr)) && OnlyReceiver(world)
      invariant InStep(world, at1, next1, last1) && k <= |mine| && world.left == mine[k..]
      invariant world.buffer == S.RecordsBytes(world.left)
      invariant |world.buffer| <= mtu
      invariant Ahead(world.Keys(), world.sender.writer.wEpoch, world.sender.flight, mtu, recs[k..], cuts1, at1, to,
                      next1, last1, next, last)
      decreases |world.buffer|
    {
      NoBytes(world.left);
      at1, next1, last1 := PassRecord(world, mtu, recs[k..], cuts1, at1, to, next1, last1, next, last);
      WorldFacts(world);
      assert recs[k..][1..] == recs[k + 1..] && mine[k..][1..] == mine[k + 1..];
      k, cuts1 := k + 1, cuts1[1..];
    }
    NoBytes(world.left);
  }

  lemma {:induction false} NoBytes(recs: seq<Record>)
    ensures S.RecordsBytes(recs) == [] <==> recs == []
  {}

  /** All that was sent since the network held n packets arrives in order. */
  method PassPackets(world: World, n: nat, ghost mtu: nat, ghost cuts: seq<Cut>, ghost to: Pos,
                     ghost next0: nat, ghost last0: nat, ghost next: nat, ghost last: nat)
    requires world.Valid() && |world.sent| < SEQS && InStep(world, Pos(0, 0), next0, last0) && Suits(world.Keys(), mtu)
    requires Keyed(world.sender.flight, world.sender.writer.wEpoch) && Short(world) && world.buffer == []
    requires n <= |world.network| == |world.contents| && forall i :: n <= i < |world.network| ==>
              |world.network[i]| <= mtu
    requires Ahead(world.Keys(), world.sender.writer.wEpoch, world.sender.flight, mtu, Flat(world.contents[n..]), cuts,
                   Pos(0, 0), to, next0, last0, next, last)
    modifies world, world.receiver.Repr
    ensures world.Valid() && fresh(world.receiver.Repr - old(world.receiver.Repr)) && OnlyReceiver(world)
    ensures InStep(world, to, next, last) && world.buffer == []
  {
    hide World.Valid, Protection.Sound, Ahead, Suits, Keyed, Flat;
    ghost var cuts1, at, n1, l1 := cuts, Pos(0, 0), next0, last0;
    var i := n;
    while i < |world.network|
      invariant n <= i <= |world.network| && world.buffer == []
      invariant world.Valid() && fresh(world.receiver.Repr - old(world.receiver.Repr)) && OnlyReceiver(world)
      invariant InStep(world, at, n1, l1)
      invariant Ahead(world.Keys(), world.sender.writer.wEpoch, world.sender.flight, mtu, Flat(world.contents[i..]),
                      cuts1, at, to, n1, l1, next, last)
    {
      ghost var recs, mine := Flat(world.contents[i..]), world.contents[i];
      FlatFront(world.contents[i..]);
      assert world.contents[i..][1..] == world.contents[i + 1..];
      assert recs == mine + Flat(world.contents[i + 1..]) && recs[|mine|..] == Flat(world.contents[i + 1..]);
      cuts1, at, n1, l1 := PassPacket(world, i, mtu, recs, cuts1, at, to, n1, l1, next, last);
      i := i + 1;
    }
    assert world.contents[i..] == [] && Flat([]) == [] by { S.NoRecords(0, 0, 0); }
    AheadDone(world.Keys(), world.sender.writer.wEpoch, world.sender.flight, mtu, cuts1, at, to, n1, l1, next, last);
  }

  lemma {:induction false} AheadDone(p: Protection, w: nat, flight: seq<Entry>, mtu: nat, cuts: seq<Cut>,
                                     from: Pos, to: Pos, next0: nat, last0: nat, next: nat, last: nat)
    ensures Ahead(p, w, flight, mtu, [], cuts, from, to, next0, last0, next, last) ==>
              from == to && next0 == next && last0 == last
  {}

  // ---- Whole conversations ----

  /** What a side says, and where it changes its keys. */
  datatype Command = Say(typ: byte, body: seq<byte>) | ChangeKeys

  /** The messages in a flight of commands. */
  function Said(commands: seq<Command>): (r: seq<Message>)
    ensures |r| <= |commands|
  {
    if commands == [] then []
    else
      var c := commands[|commands| - 1];
      Said(commands[..|commands| - 1]) + if c.Say? then [Message(c.typ, c.body)] else []
  }

  function AllSaid(flights: seq<seq<Command>>): seq<Message>
  {
    if flights == [] then [] else AllSaid(flights[..|flights| - 1]) + Said(flights[|flights| - 1])
  }

  /** How often the keys are changed. */
  function AllChanges(flights: seq<seq<Command>>): nat
  {
    if flights == [] then 0
    else AllChanges(flights[..|flights| - 1]) + |flights[|flights| - 1]| - |Said(flights[|flights| - 1])|
  }

  lemma {:induction false} SaidUpto(commands: seq<Command>, k: nat)
    requires k < |commands|
    ensures Said(commands[..k + 1]) == Said(commands[..k]) +
            if commands[k].Say? then [Message(commands[k].typ, commands[k].body)] else []
    ensures |Said(commands[..k + 1])| <= |Said(commands)|
    ensures k + 1 - |Said(commands[..k + 1])| <= |commands| - |Said(commands)|
    decreases |commands|
  {
    var n := |commands| - 1;
    if k < n {
      SaidUpto(commands[..n], k);
      assert commands[..n][..k] == commands[..k] && commands[..n][..k + 1] == commands[..k + 1];
    } else {
      assert commands[..k + 1] == commands;
    }
  }

  lemma {:induction false} AllUpto(flights: seq<seq<Command>>, k: nat)
    requires k < |flights|
    ensures AllSaid(flights[..k + 1]) == AllSaid(flights[..k]) + Said(flights[k])
    ensures AllChanges(flights[..k + 1]) == AllChanges(flights[..k]) + |flights[k]| - |Said(flights[k])|
    ensures |AllSaid(flights[..k + 1])| <= |AllSaid(flights)| && AllChanges(flights[..k + 1]) <= AllChanges(flights)
    decreases |flights|
  {
    hide Said;
    var n := |flights| - 1;
    if k < n {
      AllUpto(flights[..n], k);
      assert flights[..n][..k] == flights[..k] && flights[..n][..k + 1] == flights[..k + 1];
    } else {
      assert flights[..k + 1] == flights;
    }
  }

  /** A flight that starts in one epoch and leads to another. */
  ghost predicate Laid(flight: seq<Entry>, e0: nat, w: nat, maxLen: nat)
  {
    && Keyed(flight, w) && EpochAt(flight, w, 0) == e0
    && forall i :: 0 <= i < |flight| ==> |flight[i].Body()| <= maxLen && flight[i].Fits()
  }

  lemma {:induction false} LaidMore(flight: seq<Entry>, e0: nat, w: nat, maxLen: nat, e: Entry)
    requires Laid(flight, e0, w, maxLen) && e.epoch == w && e.Fits() && |e.Body()| <= maxLen
    ensures e.Handshake? ==> Laid(flight + [e], e0, w, maxLen)
    ensures e.Ccs? && w == 0 ==> Laid(flight + [e], e0, 1, maxLen)
    ensures Handshakes(flight + [e]) == Handshakes(flight) + if e.Handshake? then 1 else 0
  {
    assert (flight + [e])[..|flight|] == flight;
  }

  /** The sender is adding a flight, behind one that was sent. e0 and n0 are the epoch and the number its first record
      will have. */
  ghost predicate Adding(world: World, flight: seq<Entry>, e0: nat, n0: nat, used: nat)
    requires world.Valid()
    reads world, world.receiver, world.Repr()
  {
    var sender, writer := world.sender, world.sender.writer;
    && (if flight == [] then sender.complete || (sender.flight == [] && sender.Position() == Pos(0, 0))
        else !sender.complete && sender.flight == flight && sender.Position() == Pos(0, 0))
    && Laid(flight, e0, writer.wEpoch, world.receiver.maxLen) && writer.wEpoch <= 1 && writer.counted
    && (if e0 == writer.wEpoch then writer.Next() else writer.Last()) == n0 && writer.Next() + writer.Last() <= used
  }

  /** The receiver and the network are as they were. */
  twostate predicate OnlyFlight(world: World)
    reads world, world.receiver, world.receiver.reader, world.receiver.reader.bitmap
  {
    && world.delivered == old(world.delivered) && world.alive == old(world.alive) && world.buffer == old(world.buffer)
    && world.network == old(world.network) && world.contents == old(world.contents)
    && unchanged(world.receiver) && unchanged(world.receiver.reader) && unchanged(world.receiver.reader.bitmap)
  }

  method AddCommand(world: World, c: Command, ghost flight: seq<Entry>, ghost e0: nat, ghost n0: nat, ghost used: nat)
    returns (ghost flight1: seq<Entry>)
    requires world.Valid() && Adding(world, flight, e0, n0, used) && |flight| < FLIGHT
    requires c.Say? ==> |c.body| < 0x100_0000 && |c.body| <= world.receiver.maxLen && |world.sent| + 1 < SEQS
    requires c.ChangeKeys? ==> world.sender.writer.wEpoch == 0
    modifies world`sent, world.sender, world.sender.outgoing, world.sender.writer, world.sender.writer.writeSequence,
             world.sender.writer.lastWriteSequence
    ensures world.Valid() && OnlyFlight(world) && Adding(world, flight1, e0, n0, used)
    ensures |flight1| == |flight| + 1 && Handshakes(flight1) == Handshakes(flight) + if c.Say? then 1 else 0
    ensures flight1[..|flight|] == flight && (flight1[|flight|].Handshake? <==> c.Say?)
    ensures world.sent == old(world.sent) + if c.Say? then [Message(c.typ, c.body)] else []
    ensures world.sender.writer.wEpoch == old(world.sender.writer.wEpoch) + if c.Say? then 0 else 1
  {
    hide World.Valid, Adding;
    match c {
      case Say(typ, body) => flight1 := AddSay(world, typ, body, flight, e0, n0, used);
      case ChangeKeys => flight1 := AddChange(world, flight, e0, n0, used);
    }
  }

  method AddSay(world: World, typ: byte, body: seq<byte>, ghost flight: seq<Entry>, ghost e0: nat, ghost n0: nat,
                ghost used: nat)
    returns (ghost flight1: seq<Entry>)
    requires world.Valid() && Adding(world, flight, e0, n0, used) && |flight| < FLIGHT
    requires |body| < 0x100_0000 && |body| <= world.receiver.maxLen && |world.sent| + 1 < SEQS
    modifies world`sent, world.sender, world.sender.outgoing
    ensures world.Valid() && OnlyFlight(world) && Adding(world, flight1, e0, n0, used)
    ensures |flight1| == |flight| + 1 && Handshakes(flight1) == Handshakes(flight) + 1
    ensures flight1[..|flight|] == flight && flight1[|flight|].Handshake?
    ensures world.sent == old(world.sent) + [Message(typ, body)]
  {
    hide World.Valid, Laid, Handshakes;
    WorldFacts(world);
    ghost var e := world.sender.Adding(false, Message(typ, body));
    LaidMore(flight, e0, world.sender.writer.wEpoch, world.receiver.maxLen, e);
    flight1 := flight + [e];
    var ok := world.Add(typ, body);
  }

  method AddChange(world: World, ghost flight: seq<Entry>, ghost e0: nat, ghost n0: nat, ghost used: nat)
    returns (ghost flight1: seq<Entry>)
    requires world.Valid() && Adding(world, flight, e0, n0, used) && |flight| < FLIGHT
    requires world.sender.writer.wEpoch == 0
    modifies world.sender, world.sender.outgoing, world.sender.writer, world.sender.writer.writeSequence,
             world.sender.writer.lastWriteSequence
    ensures world.Valid() && OnlyFlight(world) && world.sent == old(world.sent) && Adding(world, flight1, e0, n0, used)
    ensures world.sender.writer.wEpoch == 1
    ensures |flight1| == |flight| + 1 && Handshakes(flight1) == Handshakes(flight)
    ensures flight1[..|flight|] == flight && flight1[|flight|].Ccs?
  {
    hide World.Valid, Laid, Handshakes;
    WorldFacts(world);
    ghost var e := world.sender.Adding(true, Message(0, []));
    LaidMore(flight, e0, 0, world.receiver.maxLen, e);
    LaidEpoch(flight, e0, world.receiver.maxLen);
    flight1 := flight + [e];
    var ok := world.AddChangeCipherSpec();
    ChangeWriteKeys(world, flight1, n0, used);
  }

  /** The keys are changed behind a ChangeCipherSpec that was added in epoch 0. */
  method ChangeWriteKeys(world: World, ghost flight: seq<Entry>, ghost n0: nat, ghost used: nat)
    requires world.Valid() && flight != [] && Laid(flight, 0, 1, world.receiver.maxLen)
    requires !world.sender.complete && world.sender.flight == flight && world.sender.Position() == Pos(0, 0)
    requires world.sender.writer.wEpoch == 0 && world.sender.writer.counted && world.sender.writer.Next() == n0
    requires world.sender.writer.Next() + world.sender.writer.Last() <= used
    modifies world.sender.writer, world.sender.writer.writeSequence, world.sender.writer.lastWriteSequence
    ensures world.Valid() && OnlyFlight(world) && world.sent == old(world.sent) && Adding(world, flight, 0, n0, used)
    ensures world.sender.writer.wEpoch == 1
  {
    hide World.Valid, Laid;
    WorldFacts(world);
    world.NextWriteEpoch();
  }

  /** A flight that leads to epoch 0 starts there. */
  lemma {:induction false} LaidEpoch(flight: seq<Entry>, e0: nat, maxLen: nat)
    requires Laid(flight, e0, 0, maxLen)
    ensures e0 == 0
  {
    if flight != [] { KeyedEpoch(flight, 0, 0); }
  }

  /** The sender adds a flight. */
  method AddFlight(world: World, commands: seq<Command>, ghost e0: nat, ghost n0: nat, ghost used: nat)
    returns (ghost flight: seq<Entry>)
    requires world.Valid() && Adding(world, [], e0, n0, used) && |commands| <= FLIGHT
    requires |world.sent| + |Said(commands)| < SEQS && world.sender.writer.wEpoch + |commands| - |Said(commands)| <= 1
    requires forall i :: 0 <= i < |commands| && commands[i].Say? ==>
                           |commands[i].body| < 0x100_0000 && |commands[i].body| <= world.receiver.maxLen
    modifies world`sent, world.sender, world.sender.outgoing, world.sender.writer, world.sender.writer.writeSequence,
             world.sender.writer.lastWriteSequence
    ensures world.Valid() && OnlyFlight(world) && Adding(world, flight, e0, n0, used)
    ensures |flight| == |commands| && Handshakes(flight) == |Said(commands)|
    ensures forall i :: 0 <= i < |flight| ==> (flight[i].Handshake? <==> commands[i].Say?)
    ensures world.sent == old(world.sent) + Said(commands)
    ensures world.sender.writer.wEpoch == old(world.sender.writer.wEpoch) + |commands| - |Said(commands)|
  {
    hide World.Valid, Adding, Said;
    NothingSaid(commands);
    flight := [];
    var k := 0;
    while k < |commands|
      invariant k == |flight| <= |commands| && world.Valid() && OnlyFlight(world) && Adding(world, flight, e0, n0, used)
      invariant Handshakes(flight) == |Said(commands[..k])| && world.sent == old(world.sent) + Said(commands[..k])
      invariant forall i :: 0 <= i < k ==> (flight[i].Handshake? <==> commands[i].Say?)
      invariant world.sender.writer.wEpoch == old(world.sender.writer.wEpoch) + k - |Said(commands[..k])|
    {
      SaidUpto(commands, k);
      ghost var before := flight;
      flight := AddCommand(world, commands[k], flight, e0, n0, used);
      assert forall i :: 0 <= i < k ==> flight[i] == flight[..k][i] == before[i];
      k := k + 1;
    }
    assert commands[..k] == commands;
  }

  lemma {:induction false} NothingSaid(commands: seq<Command>)
    ensures Said(commands[..0]) == [] && Handshakes([]) == 0
  {}

  /** All that was sent has been handed out, and at most the given numbers are used up. */
  ghost predicate Caught(world: World, used: nat)
    requires world.Valid()
    reads world, world.receiver, world.Repr()
  {
    var sender, receiver := world.sender, world.receiver;
    && world.alive && !receiver.hasCcs && !receiver.hasMessage && world.delivered == world.sent && world.buffer == []
    && SameReader(receiver, sender.writer.wEpoch, sender.writer.wEpoch == 0) && RingAt(receiver.ring, 0)
    && Below(receiver.reader.bitmap.recorded, receiver.reader.rEpoch, sender.writer.Next())
    && sender.writer.wEpoch <= 1 && sender.writer.counted && sender.writer.Next() + sender.writer.Last() <= used
    && (sender.complete || (sender.flight == [] && sender.Position() == Pos(0, 0)))
  }

  /** More packets than a flight can take. */
  const PLENTY: nat := FLIGHT * 0x100_0000 + 1

  /** A flight is added, sent, and arrives: everything in it is handed out, and the keys are changed. */
  method PassFlight(world: World, commands: seq<Command>, mtu: nat, ghost used: nat)
    requires world.Valid() && Caught(world, used) && Suits(world.Keys(), mtu) && commands != [] && |commands| <= FLIGHT
    requires |world.sent| + |Said(commands)| < SEQS && world.sender.writer.wEpoch + |commands| - |Said(commands)| <= 1
    requires used + |commands| * 0x100_0000 < NUMBERS
    requires forall i :: 0 <= i < |commands| && commands[i].Say? ==>
                           |commands[i].body| < 0x100_0000 && |commands[i].body| <= world.receiver.maxLen
    modifies world.Repr()
    ensures world.Valid() && fresh(world.Repr() - old(world.Repr())) && Caught(world, used + |commands| * 0x100_0000)
    ensures world.sent == old(world.sent) + Said(commands)
    ensures world.sender.writer.wEpoch == old(world.sender.writer.wEpoch) + |commands| - |Said(commands)|
  {
    hide World.Valid, RingAt, Below, Said, Laid, Suits, Handshakes, Protection.Sound;
    WorldFacts(world);
    ghost var e0, n0 := world.sender.writer.wEpoch, world.sender.writer.Next();
    LaidNothing(e0, world.receiver.maxLen);
    ghost var flight := AddFlight(world, commands, e0, n0, used);
    WorldFacts(world);
    LaidStart(flight, e0, world.sender.writer.wEpoch, world.receiver.maxLen);
    SendFlight(world, mtu, flight, e0, n0, used);
  }

  lemma {:induction false} LaidNothing(e0: nat, maxLen: nat)
    ensures Laid([], e0, e0, maxLen)
  {}

  lemma {:induction false} LaidStart(flight: seq<Entry>, e0: nat, w: nat, maxLen: nat)
    requires Laid(flight, e0, w, maxLen)
    ensures EpochAt(flight, w, 0) == e0 && Keyed(flight, w) && flight[..0] == [] && Handshakes([]) == 0
    ensures forall i :: 0 <= i < |flight| ==> |flight[i].Body()| <= maxLen
    ensures Weight(Bodies(flight)) <= |flight| * 0x100_0000
  {
    WeightBound(Bodies(flight), 0x100_0000);
  }

  /** The flight that was added can be sent. */
  lemma {:induction false} CanSend(world: World, mtu: nat)
    requires world.Valid() && Suits(world.Keys(), mtu) && Keyed(world.sender.flight, world.sender.writer.wEpoch)
    ensures world.sender.messagesLen <= world.sender.outgoing.Length && world.sender.Sendable(mtu)
  {
    hide InTurn, Protection.Sound, Faithful, AllGenuine, R.Connection.Valid;
    var sender := world.sender;
    forall i | 0 <= i < sender.messagesLen
      ensures sender.InReach(sender.outgoing[i]) && sender.NeededFor(sender.outgoing[i]) <= mtu
    {
      assert S.Keeps(sender.outgoing[i], sender.flight[i]);
      KeyedEpoch(sender.flight, sender.writer.wEpoch, i);
    }
  }

  /** The flight that was added is sent, and arrives. */
  method SendFlight(world: World, mtu: nat, ghost flight: seq<Entry>, ghost e0: nat, ghost n0: nat, ghost used: nat)
    requires world.Valid() && |world.sent| < SEQS && Adding(world, flight, e0, n0, used) && Suits(world.Keys(), mtu)
    requires flight != [] && used + |flight| * 0x100_0000 < NUMBERS && |flight| <= FLIGHT && world.buffer == []
    requires InStep(world, Pos(0, 0), world.sender.writer.Next(), world.sender.writer.Last())
    modifies world.Repr()
    ensures world.Valid() && fresh(world.Repr() - old(world.Repr())) && Caught(world, used + |flight| * 0x100_0000)
    ensures world.sent == old(world.sent) && world.sender.writer.wEpoch == old(world.sender.writer.wEpoch)
  {
    hide World.Valid, RingAt, Below, Suits, Handshakes, Keyed, Laid, Protection.Sound, Ahead;
    WorldFacts(world);
    ghost var next0, last0 := world.sender.writer.Next(), world.sender.writer.Last();
    LaidStart(flight, e0, world.sender.writer.wEpoch, world.receiver.maxLen);
    var n := |world.network|;
    ghost var cuts := FlushWhole(world, mtu, used + |flight| * 0x100_0000);
    WorldFacts(world);
    PassPackets(world, n, mtu, cuts, Pos(|flight|, 0), next0, last0, world.sender.writer.Next(),
                world.sender.writer.Last());
    WorldFacts(world);
    assert flight[..|flight|] == flight;
  }

  /** The whole flight goes onto the network. */
  method FlushWhole(world: World, mtu: nat, ghost used: nat) returns (ghost cuts: seq<Cut>)
    requires world.Valid() && Suits(world.Keys(), mtu) && Keyed(world.sender.flight, world.sender.writer.wEpoch)
    requires world.sender.Position() == Pos(0, 0) && world.sender.writer.counted && |world.sender.flight| <= FLIGHT
    requires var w := Weight(Bodies(world.sender.flight));
      w <= |world.sender.flight| * 0x100_0000 &&
          w + world.sender.writer.Next() + world.sender.writer.Last() <= used < NUMBERS
    modifies world`network, world`contents, world.sender`complete, world.sender`written, world.sender`offset,
             world.sender.writer`emitted, world.sender.writer`counted, world.sender.writer.writeSequence,
             world.sender.writer.lastWriteSequence
    ensures world.Valid() && world.sender.complete && world.sender.writer.counted
    ensures |old(world.network)| <= |world.network| == |world.contents|
    ensures forall i :: |old(world.network)| <= i < |world.network| ==> |world.network[i]| <= mtu
    ensures world.sender.writer.Next() + world.sender.writer.Last() <= used
    ensures Ahead(world.Keys(), world.sender.writer.wEpoch, world.sender.flight, mtu,
                  Flat(world.contents[|old(world.network)|..]),
                  cuts, Pos(0, 0), Pos(|world.sender.flight|, 0), old(world.sender.writer.Next()),
                  old(world.sender.writer.Last()), world.sender.writer.Next(), world.sender.writer.Last())
  {
    hide World.Valid, Suits, Keyed, Protection.Sound, Weight, Consecutive, NumbersBelow, S.Sent, S.UseOf,
         S.Connection.Sendable, Ahead, InTurn, FromBigEndian, InWindow, Faithful, Flat;
    WorldFacts(world);
    CanSend(world, mtu);
    ghost var next0, last0 := world.sender.writer.Next(), world.sender.writer.Last();
    ghost var w, flight := world.sender.writer.wEpoch, world.sender.flight;
    S.UseAtStart(Bodies(flight), next0 + last0);
    ghost var n := |world.network|;
    ghost var more, to;
    var r;
    r, more, cuts, to := world.Flush(mtu, PLENTY);
    assert world.sender.writer.counted && r.Done?;
    WorldFacts(world);
    AheadOfAll(world.Keys(), w, flight, mtu, world.network[n..], more, cuts, to, next0, last0,
               world.sender.writer.Next(), world.sender.writer.Last());
    NewestShort(world.network, n, mtu);
    assert world.contents[n..] == more;
  }

  lemma {:induction false} NewestShort(network: seq<seq<byte>>, n: nat, mtu: nat)
    requires n <= |network| && forall i :: 0 <= i < |network[n..]| ==> |network[n..][i]| <= mtu
    ensures forall i :: n <= i < |network| ==> |network[i]| <= mtu
  {
    forall i | n <= i < |network|
      ensures |network[i]| <= mtu
    {
      assert network[n..][i - n] == network[i];
    }
  }

  lemma {:induction false} AheadOfAll(p: Protection, w: nat, flight: seq<Entry>, mtu: nat, packets: seq<seq<byte>>,
                                      contents: seq<seq<Record>>, cuts: seq<Cut>, to: Pos,
                                      next0: nat, last0: nat, next: nat, last: nat)
    requires S.Sent(p, p.recordVersion(w), flight, mtu, Pos(0, 0), packets, contents, cuts, to)
    requires Consecutive(Flat(contents), w, next0, last0, next, last)
    ensures Ahead(p, w, flight, mtu, Flat(contents), cuts, Pos(0, 0), to, next0, last0, next, last)
    ensures forall i :: 0 <= i < |packets| ==> |packets[i]| <= mtu
  {}

  /** How much there is to send. */
  function Items(flights: seq<seq<Command>>): nat
  {
    if flights == [] then 0 else Items(flights[..|flights| - 1]) + |flights[|flights| - 1]|
  }

  lemma {:induction false} ItemsUpto(flights: seq<seq<Command>>, k: nat)
    requires k < |flights|
    ensures Items(flights[..k + 1]) == Items(flights[..k]) + |flights[k]|
    ensures Items(flights[..k + 1]) == |AllSaid(flights[..k + 1])| + AllChanges(flights[..k + 1])
    decreases k
  {
    hide Said;
    assert flights[..k + 1][..k] == flights[..k];
    if k > 0 { ItemsUpto(flights, k - 1); }
  }

  /** Over a network that loses nothing, whatever is said in flights of at most FLIGHT items, fewer than 2^16 messages
      in all and with one change of keys, is handed out, all of it and nothing else, whatever the size of the packets:
      each message may take many packets, and each packet many messages. */
  method Converse(p: Protection, maxLen: nat, mtu: nat, flights: seq<seq<Command>>) returns (delivered: seq<Message>)
    requires Suits(p, mtu) && |AllSaid(flights)| < SEQS && AllChanges(flights) <= 1
    requires forall i :: 0 <= i < |flights| ==> 0 < |flights[i]| <= FLIGHT && Utterable(flights[i], maxLen)
    ensures delivered == AllSaid(flights)
  {
    hide World.Valid, Suits, Said, AllSaid, AllChanges, Items, Protection.Sound, RingAt;
    assert p.Sound() by { SuitsSound(p, mtu); }
    NothingYet(flights);
    var world := new World(p, maxLen);
    WorldFacts(world);
    assert Caught(world, 0) by { EmptyRing(); NoneRecorded(0, 0); }
    var k := 0;
    while k < |flights|
      invariant k <= |flights| && world.Valid() && fresh(world.Repr()) && world.Keys() == p
      invariant world.receiver.maxLen == maxLen
      invariant Caught(world, Items(flights[..k]) * 0x100_0000)
      invariant world.sent == AllSaid(flights[..k]) && world.sender.writer.wEpoch == AllChanges(flights[..k])
    {
      AllUpto(flights, k);
      ItemsUpto(flights, k);
      PassFlight(world, flights[k], mtu, Items(flights[..k]) * 0x100_0000);
      k := k + 1;
    }
    assert flights[..k] == flights;
    return world.delivered;
  }

  /** The messages fit their length prefix and are no longer than the receiver allows. */
  predicate Utterable(commands: seq<Command>, maxLen: nat)
  {
    forall i :: 0 <= i < |commands| && commands[i].Say? ==>
              |commands[i].body| < 0x100_0000 && |commands[i].body| <= maxLen
  }

  /** The hypotheses can be met: with kDefaultMTU, by records without protection, for example. */
  lemma {:induction false} PlainSuits()
    ensures Suits(Protection((e, t, v, s, p) => p, (e, t, v, s, c) => Some(c), e => 0, e => 0, e => 0xFEFD), 1500 - 28)
  {}

  lemma {:induction false} SuitsSound(p: Protection, mtu: nat)
    requires Suits(p, mtu)
    ensures p.Sound()
  {
    hide Protection.Sound;
  }

  lemma {:induction false} NothingYet(flights: seq<seq<Command>>)
    ensures AllSaid(flights[..0]) == [] && AllChanges(flights[..0]) == 0 && Items(flights[..0]) == 0
  {}

  lemma {:induction false} EmptyRing()
    ensures RingAt(Incoming(0, seq(FLIGHT, _ => None)), 0)
  {}
}
