/** A DTLS sender and receiver over a network that drops, duplicates and reorders packets. */
module Transport {
  import opened Bytes
  import opened DtlsWire
  import opened DtlsRecord
  import opened Reassembly
  import opened Ring
  import opened Cutting
  import opened Flight
  import S = Sender
  import R = Receiver

  /** What may happen next. Arrive hands any packet ever sent to a receiver that has taken in all of the last one, as
      often as it occurs in a schedule and in any order; a packet that never arrives is lost. The receiver takes one
      record at a time, for a handshake message or for a ChangeCipherSpec, and can go on in between. */
  datatype Event =
    | Add(typ: byte, body: seq<byte>)
    | AddChangeCipherSpec
    | Flush(mtu: nat, accepts: nat)
    | Retransmit(mtu: nat, accepts: nat)
    | WriteAppData(text: seq<byte>)
    | NextWriteEpoch
    | Arrive(packet: nat)
    | OpenHandshake
    | OpenChangeCipherSpec
    | GetMessage
    | NextMessage
    | NextReadEpoch

  /** How many messages a schedule adds, at most. */
  function Adds(schedule: seq<Event>): nat
  {
    if schedule == [] then 0 else Adds(schedule[..|schedule| - 1]) + if schedule[|schedule| - 1].Add? then 1 else 0
  }

  lemma {:induction false} AddsSoFar(schedule: seq<Event>, n: nat)
    requires n < |schedule|
    ensures Adds(schedule[..n + 1]) == Adds(schedule[..n]) + if schedule[n].Add? then 1 else 0
    ensures Adds(schedule[..n + 1]) <= Adds(schedule)
    decreases |schedule|
  {
    var k := |schedule| - 1;
    if n < k {
      AddsSoFar(schedule[..k], n);
      assert schedule[..k][..n] == schedule[..n] && schedule[..k][..n + 1] == schedule[..n + 1];
    } else {
      assert schedule[..n + 1] == schedule;
    }
  }

  // ---- Genuine records ----

  ghost predicate SealedFragment(p: Protection, rec: Record, f: Fragment)
    requires rec.Fits()
  {
    f.Fits() && rec.body == p.seal(rec.Epoch(), rec.typ, rec.version, rec.sequence, FragmentBytes(f))
  }

  /** A record with a genuine handshake fragment, or with none at all. */
  ghost predicate GenuineRecord(p: Protection, rec: Record, sent: seq<Message>)
  {
    rec.Fits() && (rec.typ == RT_HANDSHAKE ==> exists f: Fragment :: SealedFragment(p, rec, f) && Genuine(f, sent))
  }

  ghost predicate AllGenuine(p: Protection, recs: seq<Record>, sent: seq<Message>)
  {
    forall i :: 0 <= i < |recs| ==> GenuineRecord(p, recs[i], sent)
  }

  /** A record that carries a cut of the flight is genuine, as long as the 16-bit numbers have not wrapped around. */
  lemma {:induction false} CarriedIsGenuine(p: Protection, version: nat, rec: Record, flight: seq<Entry>,
                                            sent: seq<Message>, c: Cut)
    requires InTurn(flight, sent) && |sent| <= SEQS && c.index < |flight|
    requires Carries(p, version, rec, flight[c.index], c)
    ensures GenuineRecord(p, rec, sent)
  {
    hide FragmentBytes, InTurn;
    PlaceInTurn(flight, sent, c.index);
    var e := flight[c.index];
    if e.Handshake? {
      assert SealedFragment(p, rec, Share(e, c)) && Genuine(Share(e, c), sent);
    }
  }

  lemma {:induction false} SentIsGenuine(p: Protection, version: nat, flight: seq<Entry>, sent: seq<Message>, mtu: nat,
                                         from: Pos,
                                         packets: seq<seq<byte>>, contents: seq<seq<Record>>, cuts: seq<Cut>, to: Pos)
    requires S.Sent(p, version, flight, mtu, from, packets, contents, cuts, to) && InTurn(flight, sent)
    ensures |packets| == |contents| && forall i :: 0 <= i < |packets| ==> packets[i] == S.RecordsBytes(contents[i])
    ensures |sent| <= SEQS ==> forall i :: 0 <= i < |contents| ==> AllGenuine(p, contents[i], sent)
  {
    hide Carries, InTurn, GenuineRecord, S.RecordsBytes, Leads, S.ShortBodies;
    if |sent| <= SEQS {
      forall k | 0 <= k < |cuts|
        ensures GenuineRecord(p, Flat(contents)[k], sent)
      {
        CarriedIsGenuine(p, version, Flat(contents)[k], flight, sent, cuts[k]);
      }
      AllOfFlat(p, contents, sent);
    }
  }

  lemma {:induction false} AllOfFlat(p: Protection, contents: seq<seq<Record>>, sent: seq<Message>)
    requires AllGenuine(p, Flat(contents), sent)
    ensures forall i :: 0 <= i < |contents| ==> AllGenuine(p, contents[i], sent)
  {
    hide GenuineRecord;
    if contents != [] {
      var n := |contents| - 1;
      var front := Flat(contents[..n]);
      assert Flat(contents)[..|front|] == front && Flat(contents)[|front|..] == contents[n];
      AllOfFlat(p, contents[..n], sent);
      forall i | 0 <= i < |contents|
        ensures AllGenuine(p, contents[i], sent)
      {
        if i < n {
          assert contents[..n][i] == contents[i];
        }
      }
    }
  }

  lemma {:induction false} RecordsFront(recs: seq<Record>)
    requires recs != []
    ensures S.RecordsBytes(recs) == RecordBytes(recs[0]) + S.RecordsBytes(recs[1..])
    decreases |recs|
  {
    hide RecordBytes, S.RecordsBytes;
    var n := |recs| - 1;
    S.RecordsMore(recs[..n], recs[n]);
    assert recs[..n] + [recs[n]] == recs;
    if n > 0 {
      RecordsFront(recs[..n]);
      S.RecordsMore(recs[1..n], recs[n]);
      assert recs[..n][1..] == recs[1..n] && recs[1..n] + [recs[n]] == recs[1..];
    } else {
      NoneLeft();
      assert recs[..n] == [] && recs[1..] == [];
      assert [] + RecordBytes(recs[0]) == RecordBytes(recs[0]) + [];
    }
  }

  /** What the record layer makes of the first genuine record of a packet: all of the packet or just this record
      is consumed, and a handshake payload is a genuine fragment. */
  lemma {:induction false} ExamineFront(p: Protection, epoch: nat, nullCipher: bool, recorded: set<nat>,
                                        recs: seq<Record>, sent: seq<Message>)
    requires p.Sound() && recs != [] && AllGenuine(p, recs, sent)
    ensures var packet := S.RecordsBytes(recs);
      var o := Examine(p, epoch, nullCipher, recorded, packet);
      && packet != [] && !o.Partial?
      && (o.Discard? || o.Success? ==> o.consumed == |packet| || packet[o.consumed..] == S.RecordsBytes(recs[1..]))
      && (o.Success? && o.typ == RT_HANDSHAKE ==>
            exists f: Fragment :: o.text == FragmentBytes(f) && f.Fits() && Genuine(f, sent))
  {
    hide ParseRecord, RecordBytes, S.RecordsBytes, FragmentBytes, Genuine;
    var rest := S.RecordsBytes(recs[1..]);
    RecordsFront(recs);
    assert GenuineRecord(p, recs[0], sent);
    RecordRoundTrip(recs[0], rest);
    assert S.RecordsBytes(recs)[|RecordBytes(recs[0])|..] == rest;
    if recs[0].typ == RT_HANDSHAKE {
      var f: Fragment :| SealedFragment(p, recs[0], f) && Genuine(f, sent);
      OpensSealed(p, recs[0], f);
    }
  }

  lemma {:induction false} OpensSealed(p: Protection, rec: Record, f: Fragment)
    requires p.Sound() && rec.Fits() && SealedFragment(p, rec, f)
    ensures p.open(rec.Epoch(), rec.typ, rec.version, rec.sequence, rec.body) == Some(FragmentBytes(f))
  {}

  /** A genuine payload keeps the ring faithful. */
  lemma {:induction false} PayloadFaithful(r: Incoming, epoch: nat, maxLen: nat, text: seq<byte>, sent: seq<Message>)
    requires |r.slots| == FLIGHT && InWindow(r, epoch) && Faithful(r, sent)
    requires exists f: Fragment :: text == FragmentBytes(f) && f.Fits() && Genuine(f, sent)
    ensures Faithful(PlaceAll(r, epoch, maxLen, text).ring, sent)
  {
    hide InWindow, Faithful, Genuine, PlaceAll, FragmentBytes;
    var f: Fragment :| text == FragmentBytes(f) && f.Fits() && Genuine(f, sent);
    PlaceAllFaithful(r, epoch, maxLen, [f], sent);
    assert FragmentsBytes([f][1..]) == [];
    assert FragmentsBytes([f]) == FragmentBytes(f) + [] == text;
  }

  /** More messages may be sent. */
  lemma {:induction false} SentMore(p: Protection, r: Incoming, contents: seq<seq<Record>>, sent: seq<Message>,
                                    more: seq<Message>)
    requires sent <= more
    ensures Faithful(r, sent) ==> Faithful(r, more)
    ensures (forall i :: 0 <= i < |contents| ==> AllGenuine(p, contents[i], sent)) ==>
              forall i :: 0 <= i < |contents| ==> AllGenuine(p, contents[i], more)
  {
    hide SealedFragment, Shows;
    if forall i :: 0 <= i < |contents| ==> AllGenuine(p, contents[i], sent) {
      forall i, j | 0 <= i < |contents| && 0 <= j < |contents[i]|
        ensures GenuineRecord(p, contents[i][j], more)
      {
        assert AllGenuine(p, contents[i], sent);
        RecordMore(p, contents[i][j], sent, more);
      }
    }
  }

  lemma {:induction false} RecordMore(p: Protection, rec: Record, sent: seq<Message>, more: seq<Message>)
    requires sent <= more && GenuineRecord(p, rec, sent)
    ensures GenuineRecord(p, rec, more)
  {
    hide SealedFragment;
    if rec.typ == RT_HANDSHAKE {
      var f: Fragment :| SealedFragment(p, rec, f) && Genuine(f, sent);
      assert Genuine(f, more);
    }
  }

  lemma {:induction false} AloneGenuine(p: Protection, rec: Record, sent: seq<Message>)
    requires rec.Fits() && rec.typ != 22
    ensures AllGenuine(p, [rec], sent) && S.RecordsBytes([rec]) == RecordBytes(rec)
  {
    hide RecordBytes;
    NoneLeft();
    S.RecordsMore([], rec);
    assert [] + [rec] == [rec] && [] + RecordBytes(rec) == RecordBytes(rec);
  }

  lemma {:induction false} NoneLeft()
    ensures S.RecordsBytes([]) == []
  {}

  lemma {:induction false} TailGenuine(p: Protection, recs: seq<Record>, sent: seq<Message>)
    requires AllGenuine(p, recs, sent) && recs != []
    ensures AllGenuine(p, recs[1..], sent) && AllGenuine(p, [], sent)
  {}

  lemma {:induction false} ConsumedBounds(p: Protection, epoch: nat, nullCipher: bool, recorded: set<nat>,
                                          packet: seq<byte>)
    ensures var o := Examine(p, epoch, nullCipher, recorded, packet);
      o.Discard? || o.Success? ==> 0 < o.consumed <= |packet|
  {
    hide Examine;
  }

  lemma {:induction false} RingOf(receiver: R.Connection)
    requires receiver.Valid()
    ensures |receiver.ring.slots| == FLIGHT && InWindow(receiver.ring, receiver.reader.rEpoch)
    ensures {receiver, receiver.incoming, receiver.reader, receiver.reader.bitmap} <= receiver.Repr
    ensures receiver.handshakeReadSeq == receiver.ring.next && (receiver.hasMessage ==> receiver.CurrentComplete())
  {
    hide InWindow;
  }

  /** What the receiver has. */
  ghost function Has(receiver: R.Connection): R.Absorbed
    reads receiver, receiver.reader, receiver.reader.bitmap
  {
    R.Absorbed(receiver.ring, receiver.reader.bitmap.recorded, true)
  }

  ghost predicate SameReader(receiver: R.Connection, epoch: nat, nullCipher: bool)
    reads receiver, receiver.reader
  {
    receiver.reader.rEpoch == epoch && receiver.reader.nullCipher == nullCipher
  }

  /** What the record at the front of a packet comes to. */
  ghost function Front(receiver: R.Connection, recorded: set<nat>, packet: seq<byte>): DtlsRecord.Opened
    reads receiver.reader
  {
    var reader := receiver.reader;
    Examine(reader.protection, reader.rEpoch, reader.nullCipher, recorded, packet)
  }

  /** The receiver, which had s, has taken the record at the front of a packet, of which n bytes are used up. */
  ghost predicate Took(receiver: R.Connection, s: R.Absorbed, packet: seq<byte>, alive: bool, n: nat)
    reads receiver, receiver.reader, receiver.reader.bitmap
  {
    var reader := receiver.reader;
    packet != [] && |s.ring.slots| == FLIGHT ==>
      && R.Absorbed(receiver.ring, reader.bitmap.recorded, alive)
         == R.AbsorbRecord(reader.protection, reader.rEpoch, reader.nullCipher, receiver.maxLen, s, packet)
      && (alive ==> n == R.Consumed(reader.protection, reader.rEpoch, reader.nullCipher, receiver.maxLen, s, packet))
  }

  /** What is left of a packet, and of the records in it. */
  ghost predicate Rest(was: seq<byte>, n: nat, left0: seq<Record>, rest: seq<byte>, left: seq<Record>)
  {
    && n <= |was| && rest == was[n..] && rest == S.RecordsBytes(left)
    && (n > 0 && left0 != [] ==> left == if n == |was| then [] else left0[1..])
    && (n == 0 ==> left == left0)
  }

  /** One record, at the front of what is left of a packet, while a handshake message is waited for. */
  method DeliverRecord(receiver: R.Connection, packet: seq<byte>, ghost left0: seq<Record>, ghost sent: seq<Message>)
    returns (alive: bool, n: nat, ghost left: seq<Record>)
    requires receiver.Valid() && receiver.reader.protection.Sound() && Faithful(receiver.ring, sent)
    requires packet == S.RecordsBytes(left0) && packet != [] && AllGenuine(receiver.reader.protection, left0, sent)
    modifies receiver.Repr
    ensures receiver.Valid() && fresh(receiver.Repr - old(receiver.Repr)) && Faithful(receiver.ring, sent)
    ensures receiver.OnlyRing(old(receiver.handshakeReadSeq), old(receiver.hasMessage), receiver.hasCcs)
    ensures SameReader(receiver, old(receiver.reader.rEpoch), old(receiver.reader.nullCipher))
    ensures Took(receiver, old(Has(receiver)), packet, alive, n)
    ensures receiver.hasCcs <==>
              old(receiver.hasCcs) ||
                  R.FlagsCcs(Front(receiver, old(receiver.reader.bitmap.recorded), packet), receiver.reader.nullCipher)
    ensures n <= |packet| && (!alive ==> n == 0)
    ensures (alive ==> Rest(packet, n, left0, packet[n..], left) && AllGenuine(receiver.reader.protection, left, sent))
  {
    hide Examine, PlaceAll, Faithful, InWindow, AllGenuine, S.RecordsBytes, R.Connection.Valid, Protection.Sound;
    NoneLeft();
    RingOf(receiver);
    FrontFaithful(receiver, packet, left0, sent);
    var r := receiver.OpenHandshake(packet);
    RingOf(receiver);
    if r.Failed? {
      return false, 0, [];
    }
    TailGenuine(receiver.reader.protection, left0, sent);
    return true, r.consumed, if r.consumed == |packet| then [] else left0[1..];
  }

  /** One record, or none if the flag is set, while a ChangeCipherSpec is waited for. */
  method DeliverChangeCipherSpec(receiver: R.Connection, packet: seq<byte>, ghost left0: seq<Record>,
                                 ghost sent: seq<Message>)
    returns (alive: bool, got: bool, n: nat, ghost left: seq<Record>)
    requires receiver.Valid() && receiver.reader.protection.Sound() && Faithful(receiver.ring, sent)
    requires packet == S.RecordsBytes(left0) && AllGenuine(receiver.reader.protection, left0, sent)
    requires packet != [] || receiver.hasCcs
    modifies receiver.Repr
    ensures receiver.Valid() && fresh(receiver.Repr - old(receiver.Repr)) && Faithful(receiver.ring, sent)
    ensures receiver.OnlyRing(old(receiver.handshakeReadSeq), old(receiver.hasMessage), false)
    ensures SameReader(receiver, old(receiver.reader.rEpoch), old(receiver.reader.nullCipher))
    ensures old(receiver.hasCcs) ==> alive && got && n == 0 && left == left0 && Has(receiver) == old(Has(receiver))
    ensures !old(receiver.hasCcs) ==>
              && Took(receiver, old(Has(receiver)), packet, alive, n)
              && (got <==> R.FlagsCcs(Front(receiver, old(receiver.reader.bitmap.recorded), packet),
                                      receiver.reader.nullCipher))
    ensures n <= |packet| && (!alive ==> n == 0)
    ensures (alive ==> Rest(packet, n, left0, packet[n..], left) && AllGenuine(receiver.reader.protection, left, sent))
  {
    hide Examine, PlaceAll, Faithful, InWindow, AllGenuine, S.RecordsBytes, R.Connection.Valid, Protection.Sound;
    NoneLeft();
    RingOf(receiver);
    if !receiver.hasCcs {
      FrontFaithful(receiver, packet, left0, sent);
    }
    var r := receiver.OpenChangeCipherSpec(packet);
    RingOf(receiver);
    if r.Failed? {
      return false, false, 0, [];
    }
    if packet != [] {
      TailGenuine(receiver.reader.protection, left0, sent);
    }
    return true, r.Opened?, r.consumed,
    if r.consumed == 0 then left0 else if r.consumed == |packet| then [] else left0[1..];
  }

  /** The front of genuine records is a record or is dropped, and keeps the ring faithful. */
  lemma {:induction false} FrontFaithful(receiver: R.Connection, packet: seq<byte>, left: seq<Record>,
                                         sent: seq<Message>)
    requires receiver.Valid() && receiver.reader.protection.Sound() && Faithful(receiver.ring, sent)
    requires packet == S.RecordsBytes(left) && packet != [] && AllGenuine(receiver.reader.protection, left, sent)
    ensures |receiver.ring.slots| == FLIGHT && left != []
    ensures var o := Front(receiver, receiver.reader.bitmap.recorded, packet);
      && !o.Partial?
      && (o.Discard? || o.Success? ==> 0 < o.consumed <= |packet|)
      && (o.Discard? || o.Success? ==> o.consumed == |packet| || packet[o.consumed..] == S.RecordsBytes(left[1..]))
      && (o.Success? && o.typ == RT_HANDSHAKE ==>
            Faithful(PlaceAll(receiver.ring, receiver.reader.rEpoch, receiver.maxLen, o.text).ring, sent))
  {
    hide Examine, PlaceAll, Faithful, InWindow, AllGenuine, S.RecordsBytes, R.Connection.Valid, Protection.Sound;
    NoneLeft();
    RingOf(receiver);
    var reader := receiver.reader;
    var o := Examine(reader.protection, reader.rEpoch, reader.nullCipher, reader.bitmap.recorded, packet);
    ExamineFront(reader.protection, reader.rEpoch, reader.nullCipher, reader.bitmap.recorded, left, sent);
    ConsumedBounds(reader.protection, reader.rEpoch, reader.nullCipher, reader.bitmap.recorded, packet);
    if o.Success? && o.typ == RT_HANDSHAKE {
      PayloadFaithful(receiver.ring, reader.rEpoch, receiver.maxLen, o.text, sent);
    }
  }

  /** Both ends, and every packet that was sent. */
  class World {
    const sender: S.Connection
    const receiver: R.Connection
    var network: seq<seq<byte>>
    var sent: seq<Message>
    var delivered: seq<Message>
    /** What the receiver has not taken of the last packet that arrived. */
    var buffer: seq<byte>
    /** The receiver has met no error. */
    var alive: bool
    ghost var contents: seq<seq<Record>>
    ghost var left: seq<Record>
    /** For every message handed out, the epochs of the records it was put together from. */
    ghost var origins: seq<set<nat>>

    ghost function Repr(): set<object>
      reads this, receiver
    {
      {this} + sender.Repr() + receiver.Repr
    }

    /** What holds in every run. */
    ghost predicate Valid()
      reads this, receiver, Repr()
    {
      && sender.Valid() && receiver.Valid()
      && {receiver, receiver.incoming, receiver.reader, receiver.reader.bitmap} <= receiver.Repr
      && this !in sender.Repr() && this !in receiver.Repr && sender.Repr() !! receiver.Repr
      && sender.writer.protection == receiver.reader.protection && Keys().Sound()
      && sender.added == sent && NetworkGenuine() && Faithful(receiver.ring, sent)
      && |delivered| == receiver.handshakeReadSeq + (if receiver.hasMessage then 1 else 0) && delivered <= sent
      && OneEpochEach(origins, |delivered|)
    }

    ghost function Keys(): Protection
    {
      receiver.reader.protection
    }

    ghost predicate NetworkGenuine()
      reads this`network, this`contents, this`buffer, this`left, this`sent
    {
      && |network| == |contents| && buffer == S.RecordsBytes(left)
      && (forall i :: 0 <= i < |network| ==> network[i] == S.RecordsBytes(contents[i]))
      && (|sent| < SEQS ==> forall i :: 0 <= i < |contents| ==> AllGenuine(Keys(), contents[i], sent))
      && (|sent| < SEQS ==> AllGenuine(Keys(), left, sent))
    }

    constructor (p: Protection, maxLen: nat)
      requires p.Sound()
      ensures Valid() && fresh(Repr()) && sent == delivered == [] && network == [] && buffer == [] && alive
      ensures Keys() == p
      ensures sender.flight == [] && !sender.complete && sender.writer.wEpoch == 0 && sender.writer.counted
      ensures sender.writer.Counters(0, 0) && receiver.maxLen == maxLen && !receiver.hasMessage && !receiver.hasCcs
      ensures receiver.ring == Incoming(0, seq(FLIGHT, _ => None)) && receiver.reader.bitmap.recorded == {}
      ensures SameReader(receiver, 0, true)
    {
      hide R.Connection.Valid, S.Connection.Valid, Faithful, S.RecordsBytes, Protection.Sound;
      sender := new S.Connection(p);
      receiver := new R.Connection(p, maxLen);
      network, sent, delivered, buffer, alive, contents, left, origins := [], [], [], [], true, [], [], [];
      new;
      NothingReceived();
      NoneLeft();
      RingOf(receiver);
    }

    method Add(typ: byte, body: seq<byte>) returns (ok: bool)
      requires Valid() && |sent| + 1 < SEQS
      modifies this`sent, sender, sender.outgoing
      ensures Valid() && OnlySender(sent, old(delivered), old(buffer), old(receiver.Repr))
      ensures ok <==> |body| < 0x100_0000 && (old(sender.complete) || |old(sender.flight)| < FLIGHT)
      ensures sent == old(sent) + if ok then [Message(typ, body)] else []
      ensures ok ==> Grew(old(sender.complete), old(sender.flight), old(sender.Position()),
                          old(sender.Adding(false, Message(typ, body))))
    {
      hide R.Connection.Valid, S.Connection.Core, Faithful, S.RecordsBytes, Protection.Sound;
      ok := AddMessage(sender, typ, body);
      SentMore(Keys(), receiver.ring, contents + [left], sent, sender.added);
      if ok {
        sent := sent + [Message(typ, body)];
      }
      MoreGenuine();
    }

    /** The network as it was is still genuine, with more messages. */
    lemma {:induction false} MoreGenuine()
      ensures (forall i :: 0 <= i < |contents + [left]| ==> AllGenuine(Keys(), (contents + [left])[i], sent)) <==>
                (forall i :: 0 <= i < |contents| ==> AllGenuine(Keys(), contents[i], sent)) &&
                    AllGenuine(Keys(), left, sent)
    {
      hide AllGenuine;
      assert (contents + [left])[|contents|] == left;
      assert forall i :: 0 <= i < |contents| ==> (contents + [left])[i] == contents[i];
    }

    method AddChangeCipherSpec() returns (ok: bool)
      requires Valid()
      modifies sender, sender.outgoing
      ensures Valid() && OnlySender(old(sent), old(delivered), old(buffer), old(receiver.Repr))
      ensures ok <==> old(sender.complete) || |old(sender.flight)| < FLIGHT
      ensures ok ==> Grew(old(sender.complete), old(sender.flight), old(sender.Position()),
                          old(sender.Adding(true, Message(0, []))))
    {
      hide R.Connection.Valid, S.Connection.Core, Faithful, AllGenuine, S.RecordsBytes, Protection.Sound;
      ok := sender.AddOutgoing(true, [], Message(0, []));
    }

    /** The entry is behind the flight, or starts a new one if the last was flushed. */
    ghost predicate Grew(complete: bool, flight: seq<Entry>, position: Pos, e: Entry)
      reads this, sender
    {
      && !sender.complete && sender.flight == (if complete then [] else flight) + [e]
      && sender.Position() == (if complete then Pos(0, 0) else position)
    }

    ghost predicate OnlySender(sent0: seq<Message>, delivered0: seq<Message>, buffer0: seq<byte>, repr0: set<object>)
      reads this, receiver
    {
      sent == sent0 && delivered == delivered0 && buffer == buffer0 && receiver.Repr == repr0
    }

    /** dtls1_flush_flight: the first of the packets to be written go onto the network, before the transport blocks:
        if it does not, the whole flight. The next message starts a new one. */
    method Flush(mtu: nat, accepts: nat)
      returns (r: S.FlightResult, ghost more: seq<seq<Record>>, ghost cuts: seq<Cut>, ghost to: Pos)
      requires Valid()
      modifies this`network, this`contents, sender`complete, sender`written, sender`offset, sender.writer`emitted,
               sender.writer`counted, sender.writer.writeSequence, sender.writer.lastWriteSequence
      ensures Valid() && OnlySender(old(sent), old(delivered), old(buffer), old(receiver.Repr)) && sender.complete
      ensures old(network) <= network && |network| <= |old(network)| + accepts && contents == old(contents) + more
      ensures |network| <= |old(network)| + Weight(Bodies(sender.flight))
      ensures S.Sent(Keys(), sender.Version(), sender.flight, mtu, old(sender.Position()), network[|old(network)|..],
                     more, cuts, to)
      ensures !r.Broken? ==> to == sender.Position()
      ensures r.Done? ==> sender.written == |sender.flight|
      ensures r.Done? ==> sender.NumberedInTurn(Flat(more), old(sender.writer.Next()), old(sender.writer.Last()))
      ensures !r.Broken? ==>
                && NumbersBelow(Flat(more), sender.writer.wEpoch, sender.writer.Next(), sender.writer.Last())
                && old(sender.writer.Next()) <= sender.writer.Next()
                && old(sender.writer.Last()) <= sender.writer.Last()
      ensures old(sender.writer.counted) && old(sender.Use()) < NUMBERS ==>
                && sender.writer.counted
                && (!r.Broken? ==> sender.writer.Next() + sender.writer.Last() <= old(sender.Use()))
      ensures sender.Sendable(mtu) && r.Broken? ==> !sender.writer.counted
      ensures sender.Sendable(mtu) && |network| < |old(network)| + accepts ==> r.Done? || !sender.writer.counted
    {
      hide R.Connection.Valid, S.Connection.Valid, Faithful, NetworkGenuine, Protection.Sound, S.Sent, Consecutive,
           NumbersBelow, S.Connection.Use, Weight, S.Connection.Sendable;
      var packets;
      ghost var at;
      SenderFacts(sender);
      r, packets, more, cuts, at := sender.FlushFlight(mtu, accepts, true);
      to := at[|packets|];
      SenderFacts(sender);
      Transmit(packets, mtu, old(sender.Position()), more, cuts, to);
    }

    /** Packets that carry part of the flight go onto the network. */
    method Transmit(packets: seq<seq<byte>>, ghost mtu: nat, ghost from: Pos, ghost more: seq<seq<Record>>,
                    ghost cuts: seq<Cut>, ghost to: Pos)
      requires Valid() && S.Sent(Keys(), sender.Version(), sender.flight, mtu, from, packets, more, cuts, to)
      modifies this`network, this`contents
      ensures Valid() && network == old(network) + packets && contents == old(contents) + more
      ensures network[|old(network)|..] == packets
    {
      hide R.Connection.Valid, S.Connection.Valid, Faithful, AllGenuine, S.RecordsBytes, Protection.Sound, S.Sent;
      SenderFacts(sender);
      SentIsGenuine(Keys(), sender.Version(), sender.flight, sent, mtu, from, packets, more, cuts, to);
      network := network + packets;
      contents := contents + more;
    }

    /** dtls1_retransmit_outgoing_messages: the same from the start of the flight. */
    method Retransmit(mtu: nat, accepts: nat)
      returns (r: S.FlightResult, ghost more: seq<seq<Record>>, ghost cuts: seq<Cut>, ghost to: Pos)
      requires Valid()
      modifies this`network, this`contents, sender`written, sender`offset, sender.writer`emitted,
               sender.writer`counted, sender.writer.writeSequence, sender.writer.lastWriteSequence
      ensures Valid() && OnlySender(old(sent), old(delivered), old(buffer), old(receiver.Repr))
      ensures old(network) <= network && |network| <= |old(network)| + accepts && contents == old(contents) + more
      ensures S.Sent(Keys(), sender.Version(), sender.flight, mtu, Pos(0, 0), network[|old(network)|..], more, cuts, to)
      ensures !r.Broken? ==> to == sender.Position()
      ensures sender.Sendable(mtu) && r.Broken? ==> !sender.writer.counted
      ensures sender.Sendable(mtu) && |network| < |old(network)| + accepts ==> r.Done? || !sender.writer.counted
      ensures r.Done? ==> sender.written == |sender.flight|
      ensures r.Done? ==> sender.NumberedInTurn(Flat(more), old(sender.writer.Next()), old(sender.writer.Last()))
      ensures !r.Broken? ==>
                && NumbersBelow(Flat(more), sender.writer.wEpoch, sender.writer.Next(), sender.writer.Last())
                && old(sender.writer.Next()) <= sender.writer.Next()
                && old(sender.writer.Last()) <= sender.writer.Last()
      ensures var use := old(sender.writer.Next() + sender.writer.Last()) + Weight(Bodies(sender.flight));
        old(sender.writer.counted) && use < NUMBERS ==>
          sender.writer.counted && (!r.Broken? ==> sender.writer.Next() + sender.writer.Last() <= use)
      ensures |network| <= |old(network)| + Weight(Bodies(sender.flight))
    {
      hide R.Connection.Valid, S.Connection.Valid, Faithful, NetworkGenuine, Protection.Sound, S.Sent, Consecutive,
           NumbersBelow, Weight, S.Connection.Sendable;
      var packets;
      SenderFacts(sender);
      r, packets, more, cuts, to := sender.Retransmit(mtu, accepts, true);
      SenderFacts(sender);
      Transmit(packets, mtu, Pos(0, 0), more, cuts, to);
    }

    /** dtls1_write_app_data: a record of application data goes onto the network. */
    method WriteAppData(text: seq<byte>) returns (ret: int, ghost rec: Record)
      requires Valid() && sender.writer.wEpoch >= 1
      modifies this`network, this`contents, sender.writer`emitted, sender.writer`counted, sender.writer.writeSequence,
               sender.writer.lastWriteSequence
      ensures Valid() && OnlySender(old(sent), old(delivered), old(buffer), old(receiver.Repr))
      ensures ret == -1 || ret == |text| <= 16384
      ensures ret == -1 ==> || |text| > 16384 || !sender.writer.counted
                            || |text| + sender.writer.MaxSealOverhead(false) >= 13 + 0x1_0000
      ensures ret > 0 ==> rec.Fits() && rec.typ == 23 && rec.Epoch() == sender.writer.wEpoch
      ensures ret > 0 ==> rec.version == Keys().recordVersion(sender.writer.wEpoch)
      ensures ret > 0 ==> rec.body == Keys().seal(sender.writer.wEpoch, 23, rec.version, rec.sequence, text)
      ensures ret > 0 ==> network == old(network) + [RecordBytes(rec)] && contents == old(contents) + [[rec]]
      ensures ret > 0 ==> sender.NumberedFrom(rec, old(sender.writer.Next()), old(sender.writer.Last()))
      ensures ret <= 0 ==> network == old(network) && contents == old(contents)
      ensures sender.writer.counted ==>
                && old(sender.writer.Next()) <= sender.writer.Next() <= old(sender.writer.Next()) + 1
                && sender.writer.Last() == old(sender.writer.Last())
      ensures old(sender.writer.counted && sender.writer.Next() + 1 < NUMBERS) ==> sender.writer.counted
    {
      hide R.Connection.Valid, S.Connection.Valid, Faithful, NetworkGenuine, RecordBytes, Protection.Sound,
           FromBigEndian;
      SenderFacts(sender);
      var r;
      ret, r := sender.WriteAppData(text);
      SenderFacts(sender);
      rec := r;
      if ret > 0 {
        Put(RecordBytes(r), rec);
      }
    }

    /** A packet of one record that has no handshake data goes onto the network. */
    method Put(packet: seq<byte>, ghost rec: Record)
      requires Valid() && rec.Fits() && rec.typ != 22 && packet == RecordBytes(rec)
      modifies this`network, this`contents
      ensures Valid() && network == old(network) + [packet] && contents == old(contents) + [[rec]]
    {
      hide R.Connection.Valid, S.Connection.Valid, Faithful, AllGenuine, S.RecordsBytes, RecordBytes, Protection.Sound;
      AloneGenuine(Keys(), rec, sent);
      network := network + [packet];
      contents := contents + [[rec]];
    }

    method NextWriteEpoch()
      requires Valid()
      modifies sender.writer, sender.writer.writeSequence, sender.writer.lastWriteSequence
      ensures Valid() && OnlySender(old(sent), old(delivered), old(buffer), old(receiver.Repr))
      ensures sender.writer.wEpoch == (old(sender.writer.wEpoch) + 1) % 0x1_0000
      ensures sender.writer.counted <==> old(sender.writer.counted) && old(sender.writer.wEpoch) + 1 < 0x1_0000
      ensures sender.writer.Counters(0, old(sender.writer.Next()))
    {
      hide R.Connection.Valid, S.Connection.Core, Faithful, AllGenuine, S.RecordsBytes, Protection.Sound;
      sender.CoreLengths();
      sender.SetWriteState();
      sender.CoreLengths();
    }

    /** A packet arrives where the last one is used up. */
    method Arrive(i: nat)
      requires Valid()
      modifies this`buffer, this`left
      ensures Valid()
      ensures if alive && old(buffer) == [] && i < |network| then buffer == network[i] && left == contents[i]
              else buffer == old(buffer) && left == old(left)
    {
      hide R.Connection.Valid, S.Connection.Valid, Faithful, AllGenuine, S.RecordsBytes, Protection.Sound;
      if alive && buffer == [] && i < |network| {
        buffer, left := network[i], contents[i];
      }
    }

    lemma {:induction false} BufferGenuine()
      requires NetworkGenuine()
      ensures buffer == S.RecordsBytes(left) && (|sent| < SEQS ==> AllGenuine(Keys(), left, sent))
    {
      hide AllGenuine, S.RecordsBytes;
    }

    /** The first n bytes of what has arrived are used up. */
    method Consume(n: nat, ghost rest: seq<Record>)
      requires Valid() && n <= |buffer| && Rest(buffer, n, left, buffer[n..], rest)
      requires AllGenuine(Keys(), rest, sent)
      modifies this`buffer, this`left
      ensures Valid() && buffer == old(buffer)[n..] && left == rest && (n == 0 ==> buffer == old(buffer))
    {
      hide R.Connection.Valid, S.Connection.Valid, Faithful, AllGenuine, S.RecordsBytes, Protection.Sound;
      buffer, left := buffer[n..], rest;
    }

    /** A record is taken from the packet, while a handshake message is waited for. */
    method OpenHandshake()
      requires Valid() && |sent| < SEQS
      modifies this`buffer, this`left, this`alive, receiver.Repr
      ensures Valid() && fresh(receiver.Repr - old(receiver.Repr))
      ensures old(alive) && old(buffer) != [] ==> TookFront(old(Has(receiver)), old(buffer), old(left))
      ensures old(alive) && old(buffer) != [] ==>
                receiver.hasCcs == (old(receiver.hasCcs) ||
                                    FrontIsCcs(old(receiver.reader.bitmap.recorded), old(buffer)))
      ensures !(old(alive) && old(buffer) != []) ==> receiver.ring == old(receiver.ring) && buffer == old(buffer)
      ensures SameReader(receiver, old(receiver.reader.rEpoch), old(receiver.reader.nullCipher))
      ensures receiver.hasMessage == old(receiver.hasMessage)
    {
      hide R.Connection.Valid, S.Connection.Valid, Faithful, NetworkGenuine, AllGenuine, Protection.Sound, Rest,
           Took, Front;
      if alive && buffer != [] {
        var n;
        ghost var rest;
        BufferGenuine();
        alive, n, rest := DeliverRecord(receiver, buffer, left, sent);
        RingOf(receiver);
        if alive {
          Consume(n, rest);
        }
      }
    }

    ghost predicate FrontIsCcs(recorded: set<nat>, packet: seq<byte>)
      reads receiver.reader
    {
      R.FlagsCcs(Front(receiver, recorded, packet), receiver.reader.nullCipher)
    }

    /** The record at the front of the packet was taken, and is gone. */
    ghost predicate TookFront(s: R.Absorbed, packet: seq<byte>, left0: seq<Record>)
      reads this, receiver, receiver.reader, receiver.reader.bitmap
    {
      var n := if |buffer| <= |packet| then |packet| - |buffer| else 0;
      Took(receiver, s, packet, alive, n) && (alive ==> Rest(packet, n, left0, buffer, left))
    }

    /** The flag, or a record from the packet, is taken, while a ChangeCipherSpec is waited for. */
    method OpenChangeCipherSpec() returns (got: bool)
      requires Valid() && |sent| < SEQS
      modifies this`buffer, this`left, this`alive, receiver.Repr
      ensures Valid() && fresh(receiver.Repr - old(receiver.Repr))
      ensures old(alive) && old(receiver.hasCcs) ==>
                got && alive && Has(receiver) == old(Has(receiver)) && buffer == old(buffer) && left == old(left)
      ensures old(alive) && !old(receiver.hasCcs) && old(buffer) != [] ==>
                && TookFront(old(Has(receiver)), old(buffer), old(left))
                && got == FrontIsCcs(old(receiver.reader.bitmap.recorded), old(buffer))
      ensures old(alive) ==> !receiver.hasCcs
      ensures SameReader(receiver, old(receiver.reader.rEpoch), old(receiver.reader.nullCipher))
      ensures receiver.hasMessage == old(receiver.hasMessage)
    {
      hide R.Connection.Valid, S.Connection.Valid, Faithful, NetworkGenuine, AllGenuine, Protection.Sound, Rest,
           Took, Front;
      got := false;
      if alive && (receiver.hasCcs || buffer != []) {
        var n;
        ghost var rest;
        BufferGenuine();
        alive, got, n, rest := DeliverChangeCipherSpec(receiver, buffer, left, sent);
        RingOf(receiver);
        if alive {
          Consume(n, rest);
        }
      }
    }

    /** The next message, if it is complete, is handed out; if it was before, it is the same again. */
    method GetMessage()
      requires Valid() && |sent| < SEQS
      modifies this`delivered, this`origins, receiver`hasMessage
      ensures Valid() && receiver.hasMessage == old(receiver.CurrentComplete())
      ensures old(delivered) <= delivered && receiver.ring == old(receiver.ring)
      ensures |delivered| == receiver.handshakeReadSeq + if receiver.hasMessage then 1 else 0
    {
      hide R.Connection.Valid, S.Connection.Valid, Faithful, NetworkGenuine, Protection.Sound;
      RingOf(receiver);
      var before, found, msg, raw := receiver.hasMessage, false, Message(0, []), [];
      ghost var epochs;
      found, msg, raw, epochs := receiver.GetMessage();
      RingOf(receiver);
      if found && !before {
        DeliveredIsSent(receiver, sent);
        delivered := delivered + [msg];
        origins := origins + [epochs];
      }
    }

    /** The message that was handed out is done with. */
    method NextMessage()
      requires Valid() && receiver.hasMessage && |sent| < SEQS
      modifies receiver, receiver.incoming
      ensures Valid() && OnlySender(sent, old(delivered), old(buffer), old(receiver.Repr))
      ensures |old(receiver.ring.slots)| == FLIGHT && receiver.ring == R.Advance(old(receiver.ring))
      ensures !receiver.hasMessage && receiver.hasCcs == old(receiver.hasCcs)
    {
      hide R.Connection.Valid, S.Connection.Valid, Faithful, NetworkGenuine, Protection.Sound;
      RingOf(receiver);
      DeliveredIsSent(receiver, sent);
      AdvanceFaithful(receiver.ring, sent);
      receiver.NextMessage();
      RingOf(receiver);
    }

    method NextReadEpoch() returns (ok: bool)
      requires Valid()
      modifies receiver, receiver.reader, receiver.reader.bitmap
      ensures Valid() && OnlySender(old(sent), old(delivered), old(buffer), old(receiver.Repr))
      ensures receiver.OnlyRing(old(receiver.handshakeReadSeq), old(receiver.hasMessage), old(receiver.hasCcs))
      ensures |receiver.ring.slots| == FLIGHT && receiver.ring == old(receiver.ring)
      ensures ok ==> SameReader(receiver, (old(receiver.reader.rEpoch) + 1) % 0x1_0000,
                                false) && receiver.reader.bitmap.recorded == {}
      ensures !ok ==> receiver.reader.rEpoch == old(receiver.reader.rEpoch)
      ensures ok <==> !old(Leftover(receiver))
    {
      hide R.Connection.Valid, S.Connection.Valid, Faithful, AllGenuine, S.RecordsBytes, Protection.Sound;
      RingOf(receiver);
      ok := receiver.SetReadState();
    }
  }

  /** Of every message all bytes came in records of one epoch. */
  ghost predicate OneEpochEach(origins: seq<set<nat>>, n: nat)
  {
    |origins| == n && forall i :: 0 <= i < n ==> |origins[i]| == 1
  }

  /** What is known of the sender. */
  lemma {:induction false} SenderFacts(sender: S.Connection)
    requires sender.Valid()
    ensures InTurn(sender.flight, sender.added) && |sender.flight| <= FLIGHT
    ensures sender.messagesLen == |sender.flight| <= sender.outgoing.Length && sender.written <= |sender.flight|
    ensures sender.written == |sender.flight| ==> sender.offset == 0
    ensures sender.writer.writeSequence.Length == sender.writer.lastWriteSequence.Length == 8
  {
    hide InTurn, S.Keeps, Protection.Sound;
  }

  /** Whatever the schedule: as long as fewer than 2^16 messages are sent, what the receiver hands out is a prefix,
      byte for byte, of what the sender added, and each message came in records of one epoch. */
  method Run(p: Protection, maxLen: nat, schedule: seq<Event>)
    returns (sent: seq<Message>, delivered: seq<Message>, ghost origins: seq<set<nat>>)
    requires p.Sound() && Adds(schedule) < SEQS
    ensures delivered <= sent
    ensures OneEpochEach(origins, |delivered|)
  {
    hide World.Valid, Protection.Sound;
    assert schedule[..0] == [];
    var world := new World(p, maxLen);
    var n := 0;
    while n < |schedule|
      invariant n <= |schedule| && world.Valid() && fresh(world.Repr()) && |world.sent| <= Adds(schedule[..n]) < SEQS
    {
      AddsSoFar(schedule, n);
      Step(world, schedule[n]);
      n := n + 1;
    }
    DeliveredIsPrefix(world);
    return world.sent, world.delivered, world.origins;
  }

  lemma {:induction false} DeliveredIsPrefix(world: World)
    requires world.Valid()
    ensures world.delivered <= world.sent && OneEpochEach(world.origins, |world.delivered|)
  {}

  /** Packets have entered the network that carry the flight from a position on: all of it, unless the transport
      blocked or the flight could not be sent. */
  twostate predicate PutOut(world: World, from: Pos, mtu: nat, accepts: nat)
    reads world, world.sender, world.sender.outgoing, world.sender.writer
  {
    var sender, n := world.sender, |old(world.network)|;
    && old(world.network) <= world.network && n <= |world.network| <= n + accepts
    && sender.flight == old(sender.flight)
    && exists more, cuts, to ::
         && S.Sent(world.Keys(), sender.Version(), sender.flight, mtu, from, world.network[n..], more, cuts, to)
         && (sender.messagesLen <= sender.outgoing.Length && sender.Sendable(mtu) && sender.writer.counted &&
             |world.network| < n + accepts ==>
               to.written == |sender.flight|)
  }

  /** A ChangeCipherSpec, or a message other than the one being processed, is there. */
  ghost predicate Leftover(receiver: R.Connection)
    requires |receiver.ring.slots| == FLIGHT
    reads receiver
  {
    receiver.hasCcs || exists i :: 0 <= i < FLIGHT && receiver.ring.slots[i].Some?
                                   && !(receiver.hasMessage && i == receiver.handshakeReadSeq % FLIGHT)
  }

  /** What an event does. */
  twostate predicate Happened(world: World, event: Event)
    requires old(|world.receiver.ring.slots|) == FLIGHT
    reads world, world.sender, world.sender.outgoing, world.sender.writer, world.receiver, world.receiver.reader,
          world.receiver.reader.bitmap
  {
    var sender, receiver := world.sender, world.receiver;
    match event
    case Add(typ, body) =>
      world.sent == old(world.sent) + if |body| < 0x100_0000 && (old(sender.complete) || |old(sender.flight)| < FLIGHT)
                                      then [Message(typ, body)] else []
    case AddChangeCipherSpec =>
      old(sender.complete) || |old(sender.flight)| < FLIGHT ==>
        sender.flight == (if old(sender.complete) then [] else old(sender.flight)) + [Ccs(sender.writer.wEpoch)]
    case Flush(mtu, accepts) => sender.complete && PutOut(world, old(sender.Position()), mtu, accepts)
    case Retransmit(mtu, accepts) => PutOut(world, Pos(0, 0), mtu, accepts)
    case WriteAppData(text) =>
      && old(world.network) <= world.network && world.sent == old(world.sent) && sender.flight == old(sender.flight)
      && (|world.network| > |old(world.network)| ==> 0 < |text| <= 16384)
    case NextWriteEpoch => sender.writer.wEpoch == (old(sender.writer.wEpoch) + 1) % EPOCHS
    case Arrive(i) =>
      world.alive && old(world.buffer) == [] && i < |world.network| ==> world.buffer == world.network[i]
    case OpenHandshake =>
      old(world.alive) && old(world.buffer) != [] ==>
        world.TookFront(old(Has(receiver)), old(world.buffer), old(world.left))
    case OpenChangeCipherSpec =>
      old(world.alive) && !old(receiver.hasCcs) && old(world.buffer) != [] ==>
        world.TookFront(old(Has(receiver)), old(world.buffer), old(world.left)) && !receiver.hasCcs
    case GetMessage =>
      && receiver.hasMessage == old(receiver.CurrentComplete())
      && |world.delivered| - |old(world.delivered)| == if receiver.hasMessage && !old(receiver.hasMessage) then 1 else 0
    case NextMessage =>
      old(receiver.hasMessage) ==> !receiver.hasMessage && receiver.ring == R.Advance(old(receiver.ring))
    case NextReadEpoch =>
      receiver.reader.rEpoch == if old(Leftover(receiver)) then old(receiver.reader.rEpoch)
                                else (old(receiver.reader.rEpoch) + 1) % EPOCHS
  }

  predicate OfSender(event: Event)
  {
    event.Add? || event.AddChangeCipherSpec? || event.Flush? || event.Retransmit? || event.NextWriteEpoch?
    || event.WriteAppData?
  }

  /** An event on the side of the sender. */
  method SenderStep(world: World, event: Event)
    requires world.Valid() && |world.sent| + (if event.Add? then 1 else 0) < SEQS && OfSender(event)
    modifies world, world.sender.Repr()
    ensures world.Valid() && world.delivered == old(world.delivered) && world.receiver.Repr == old(world.receiver.Repr)
    ensures old(world.sent) <= world.sent && |world.sent| <= |old(world.sent)| + if event.Add? then 1 else 0
    ensures old(|world.receiver.ring.slots|) == FLIGHT && Happened(world, event)
  {
    hide R.Connection.Valid, S.Connection.Valid, Faithful, World.NetworkGenuine, Protection.Sound, S.Sent, RecordBytes,
         FromBigEndian, S.Connection.NumberedFrom, S.Connection.Sendable, S.Connection.Use, Weight, Consecutive,
         NumbersBelow, OneEpochEach;
    RingOf(world.receiver);
    match event {
      case Add(typ, body) => var _ := world.Add(typ, body);
      case AddChangeCipherSpec => var _ := world.AddChangeCipherSpec();
      case Flush(mtu, accepts) => var _, _, _, _ := world.Flush(mtu, accepts);
      case Retransmit(mtu, accepts) => var _, _, _, _ := world.Retransmit(mtu, accepts);
      case WriteAppData(text) => if world.sender.writer.wEpoch >= 1 { var _, _ := world.WriteAppData(text); }
      case NextWriteEpoch => world.NextWriteEpoch();
    }
  }

  method Step(world: World, event: Event)
    requires world.Valid() && |world.sent| + (if event.Add? then 1 else 0) < SEQS
    modifies world.Repr()
    ensures world.Valid() && fresh(world.Repr() - old(world.Repr()))
    ensures |world.sent| <= |old(world.sent)| + if event.Add? then 1 else 0
    ensures old(world.sent) <= world.sent && old(world.delivered) <= world.delivered
    ensures old(|world.receiver.ring.slots|) == FLIGHT && Happened(world, event)
  {
    hide R.Connection.Valid, S.Connection.Valid, Faithful, World.NetworkGenuine, Protection.Sound, World.TookFront,
         PutOut, Leftover, Has, R.Advance, R.Connection.CurrentComplete, OneEpochEach;
    RingOf(world.receiver);
    if OfSender(event) {
      SenderStep(world, event);
      return;
    }
    match event {
      case Arrive(packet) => world.Arrive(packet);
      case OpenHandshake => world.OpenHandshake();
      case OpenChangeCipherSpec => var _ := world.OpenChangeCipherSpec();
      case GetMessage => world.GetMessage();
      case NextMessage => if world.receiver.hasMessage { world.NextMessage(); }
      case NextReadEpoch => var _ := world.NextReadEpoch();
    }
  }

  method AddMessage(sender: S.Connection, typ: byte, body: seq<byte>) returns (ok: bool)
    requires sender.Valid()
    modifies sender, sender.outgoing
    ensures sender.Valid() && sender.added == old(sender.added) + if ok then [Message(typ, body)] else []
    ensures ok <==> |body| < 0x100_0000 && (old(sender.complete) || |old(sender.flight)| < FLIGHT)
    ensures ok ==> !sender.complete
                   && sender.flight == (if old(sender.complete) then [] else old(sender.flight)) +
                       [old(sender.Adding(false, Message(typ, body)))]
                   && sender.Position() == if old(sender.complete) then Pos(0, 0) else old(sender.Position())
  {
    hide FragmentBytes;
    var data;
    ok, data := sender.MakeMessage(typ, body);
    if ok {
      FragmentLength(WholeFragment(Message(typ, body), sender.handshakeWriteSeq));
      ok := sender.AddOutgoing(false, data, Message(typ, body));
    }
  }

  lemma {:induction false} FragmentLength(f: Fragment)
    ensures |FragmentBytes(f)| == HM_HEADER_LENGTH + |f.body|
  {}

  lemma {:induction false} NothingReceived()
    ensures Faithful(Incoming(0, seq(FLIGHT, _ => None)), [])
  {}

  /** The message handed out is the one of its number. */
  lemma {:induction false} DeliveredIsSent(receiver: R.Connection, sent: seq<Message>)
    requires receiver.Valid() && Faithful(receiver.ring, sent) && receiver.CurrentComplete()
    ensures receiver.handshakeReadSeq < |sent| && receiver.CurrentMessage() == sent[receiver.handshakeReadSeq]
  {
    var i := receiver.handshakeReadSeq % FLIGHT;
    var part := receiver.ring.slots[i].value;
    assert SlotOk(receiver.ring, receiver.reader.rEpoch, i, part);
    SameNumber(part.seqNo, receiver.handshakeReadSeq, receiver.handshakeReadSeq);
    CompleteIsSent(part, sent);
  }

  lemma {:induction false} AdvanceFaithful(r: Incoming, sent: seq<Message>)
    requires |r.slots| == FLIGHT && Faithful(r, sent)
    ensures Faithful(R.Advance(r), sent)
  {}
}
