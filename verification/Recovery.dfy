/** What a retransmission brings back: whatever the network has lost, repeated or reordered, one that arrives in order
    delivers all that was said (section 4.2.4 of RFC 6347). */
module Recovery {
  import opened Bytes
  import opened DtlsWire
  import opened DtlsRecord
  import opened Replay
  import opened Reassembly
  import opened Ring
  import opened Cutting
  import opened Flight
  import opened Transport
  import opened Relay
  import S = Sender
  import R = Receiver

  // ---- Records on the network ----

  /** What is known of the network: the keys, what was sent and how much of it in epoch 0, the epochs of the writer
      and the reader, and the next numbers of the epoch of the writer and of the one before. */
  datatype Terms = Terms(p: Protection, maxLen: nat, sent: seq<Message>, due: nat, w: nat, epoch: nat, next: nat,
                         last: nat)

  /** The record carries a cut of a message, or of ChangeCipherSpec, in the epoch where it belongs: the first `due`
      messages in epoch 0. */
  ghost predicate Proper(t: Terms, rec: Record, e: Entry, c: Cut)
  {
    && Carries(t.p, rec.version, rec, e, c) && rec.version / 0x100 == VERSION_MAJOR
    && |e.Body()| <= t.maxLen && e.Fits() && e.epoch <= t.w && |Plain(e, c)| <= MAX_PLAIN_LENGTH
    && if e.Ccs? then e.epoch == 0 && t.w == 1
       else e.place < |t.sent| && t.sent[e.place] == e.message && (e.epoch == 0 <==> e.place < t.due)
  }

  /** The record carries application data that was sealed behind the change of keys. */
  ghost predicate Talks(t: Terms, rec: Record, text: seq<byte>)
  {
    && rec.Fits() && rec.typ == 23 && rec.version / 0x100 == VERSION_MAJOR && rec.Epoch() == t.w == 1
    && |text| <= MAX_PLAIN_LENGTH && rec.body == t.p.seal(1, 23, rec.version, rec.sequence, text)
  }

  /** What a record carries. */
  datatype Load = Part(e: Entry, c: Cut) | Talk(text: seq<byte>)

  ghost predicate Laden(t: Terms, rec: Record, l: Load)
  {
    match l
    case Part(e, c) => Proper(t, rec, e, c)
    case Talk(text) => Talks(t, rec, text)
  }

  /** Records of the reader's epoch, or a later one, have numbers below the next. */
  ghost predicate RecordFits(t: Terms, rec: Record)
  {
    && |rec.body| <= MAX_ENCRYPTED_LENGTH && (exists l: Load :: Laden(t, rec, l))
    && rec.Fits() && rec.Epoch() <= t.w
    && (rec.Epoch() >= t.epoch ==>
          rec.Number() < rec.Epoch() * NUMBERS + if rec.Epoch() == t.w then t.next else t.last)
  }

  ghost predicate AllFit(t: Terms, recs: seq<Record>)
  {
    forall j :: 0 <= j < |recs| ==> RecordFits(t, recs[j])
  }

  ghost predicate NetFits(t: Terms, contents: seq<seq<Record>>)
  {
    forall i :: 0 <= i < |contents| ==> AllFit(t, contents[i])
  }

  /** What fits now still fits when more has been sent, and when keys have been changed. */
  ghost predicate Later(t: Terms, u: Terms)
  {
    && u.p == t.p && u.maxLen == t.maxLen && t.sent <= u.sent && t.w <= u.w <= 1 && t.epoch <= u.epoch
    && (if t.w == 0 then t.due == |t.sent| <= u.due else t.due == u.due)
    && (if t.w == u.w then t.next <= u.next && (u.epoch < u.w ==> t.last <= u.last) else t.next <= u.last)
  }

  lemma {:induction false} FitsLater(t: Terms, u: Terms, rec: Record)
    requires RecordFits(t, rec) && Later(t, u)
    ensures RecordFits(u, rec)
  {
    hide FromBigEndian, Carries, Plain;
    var l: Load :| Laden(t, rec, l);
    LadenLater(t, u, rec, l);
  }

  lemma {:induction false} LadenLater(t: Terms, u: Terms, rec: Record, l: Load)
    requires Laden(t, rec, l) && Later(t, u)
    ensures Laden(u, rec, l)
  {
    hide FromBigEndian, Carries, Plain;
    if l.Part? { ProperLater(t, u, rec, l.e, l.c); }
  }

  lemma {:induction false} ProperLater(t: Terms, u: Terms, rec: Record, e: Entry, c: Cut)
    requires Proper(t, rec, e, c) && Later(t, u)
    ensures Proper(u, rec, e, c)
  {
    hide FromBigEndian, Plain;
  }

  lemma {:induction false} NetLater(t: Terms, u: Terms, contents: seq<seq<Record>>)
    requires NetFits(t, contents) && Later(t, u)
    ensures NetFits(u, contents)
  {
    hide RecordFits, Later;
    forall i, j | 0 <= i < |contents| && 0 <= j < |contents[i]|
      ensures RecordFits(u, contents[i][j])
    {
      assert AllFit(t, contents[i]);
      FitsLater(t, u, contents[i][j]);
    }
  }

  // ---- One record at the receiver ----

  /** The record layer takes the record. */
  ghost predicate Taken(p: Protection, epoch: nat, recorded: set<nat>, rec: Record)
    requires rec.Fits()
  {
    rec.Epoch() == epoch && (epoch == 0 || rec.version == p.recordVersion(epoch)) && !Stale(recorded, rec.Number())
  }

  /** What the receiver has behind a laden record at the front of a packet: it is dropped, or its cut is placed, or a
      ChangeCipherSpec is flagged, or it is application data and only its number is recorded. It is never an error. */
  ghost predicate Effect(t: Terms, s: R.Absorbed, rec: Record, l: Load, packet: seq<byte>)
    requires |s.ring.slots| == FLIGHT && packet != [] && Laden(t, rec, l)
  {
    var o := Examine(t.p, t.epoch, t.epoch == 0, s.recorded, packet);
    var after := R.AbsorbRecord(t.p, t.epoch, t.epoch == 0, t.maxLen, s, packet);
    && (t.epoch == 0 || rec.version == t.p.recordVersion(t.epoch) ==>
          R.Consumed(t.p, t.epoch, t.epoch == 0, t.maxLen, s, packet) == |RecordBytes(rec)|)
    && if !Taken(t.p, t.epoch, s.recorded, rec) then
         after == R.Absorbed(s.ring, s.recorded, true) && !R.FlagsCcs(o, t.epoch == 0)
       else
         && after.alive && after.recorded == s.recorded + {rec.Number()}
         && (R.FlagsCcs(o, t.epoch == 0) <==> l.Part? && l.e.Ccs?)
         && if l.Talk? || l.e.Ccs? then after.ring == s.ring
            else Place(s.ring, t.epoch, t.maxLen, Share(l.e, l.c)) == Received(true, after.ring)
  }

  lemma {:induction false} Dropped(t: Terms, s: R.Absorbed, rec: Record, l: Load, rest: seq<byte>)
    requires Laden(t, rec, l) && |rec.body| <= MAX_ENCRYPTED_LENGTH && |s.ring.slots| == FLIGHT
    requires !Taken(t.p, t.epoch, s.recorded, rec)
    ensures RecordBytes(rec) + rest != [] && Effect(t, s, rec, l, RecordBytes(rec) + rest)
  {
    hide ParseRecord, RecordBytes, Stale, FromBigEndian, Plain;
    RecordRoundTrip(rec, rest);
    RecordLength(rec);
  }

  /** In epoch 1 nothing but the last message is waited for. */
  lemma {:induction false} CutTaken(t: Terms, s: R.Absorbed, rec: Record, e: Entry, c: Cut, rest: seq<byte>)
    requires t.p.Sound() && Proper(t, rec, e, c) && |rec.body| <= MAX_ENCRYPTED_LENGTH
    requires Taken(t.p, t.epoch, s.recorded, rec) && t.epoch <= 1
    requires |s.ring.slots| == FLIGHT && InWindow(s.ring, t.epoch) && Faithful(s.ring, t.sent)
    requires |t.sent| <= s.ring.next + FLIGHT && |t.sent| < SEQS
    requires t.epoch == 1 ==> t.due == s.ring.next && |t.sent| <= t.due + 1
    ensures RecordBytes(rec) + rest != [] && Effect(t, s, rec, Part(e, c), RecordBytes(rec) + rest)
  {
    hide Examine, RecordBytes, Place, PlaceAll, InWindow, Faithful, Stale, FromBigEndian, FragmentBytes, Carries,
         Share;
    CutFits(t.p, rec.version, rec, e, c);
    CutOpened(t, s, rec, e, c, rest);
    RecordLength(rec);
    if e.Handshake? {
      ShareTaken(t, s.ring, e, c);
    }
  }

  /** Application data is dropped behind the change of keys. */
  lemma {:induction false} TalkTaken(t: Terms, s: R.Absorbed, rec: Record, text: seq<byte>, rest: seq<byte>)
    requires t.p.Sound() && Talks(t, rec, text) && |rec.body| <= MAX_ENCRYPTED_LENGTH
    requires Taken(t.p, t.epoch, s.recorded, rec) && |s.ring.slots| == FLIGHT
    ensures RecordBytes(rec) + rest != [] && Effect(t, s, rec, Talk(text), RecordBytes(rec) + rest)
  {
    hide ParseRecord, RecordBytes, PlaceAll, Stale, FromBigEndian;
    RecordRoundTrip(rec, rest);
    RecordLength(rec);
  }

  lemma {:induction false} CutOpened(t: Terms, s: R.Absorbed, rec: Record, e: Entry, c: Cut, rest: seq<byte>)
    requires t.p.Sound() && Proper(t, rec, e, c) && |rec.body| <= MAX_ENCRYPTED_LENGTH
    requires Taken(t.p, t.epoch, s.recorded, rec)
    ensures c.off + c.len <= |e.Body()|
    ensures Examine(t.p, t.epoch, t.epoch == 0, s.recorded, RecordBytes(rec) + rest)
            == DtlsRecord.Success(if e.Handshake? then RT_HANDSHAKE else RT_CHANGE_CIPHER_SPEC, rec.Number(),
                                  if e.Handshake? then FragmentBytes(Share(e, c)) else [MT_CCS], |RecordBytes(rec)|)
  {
    hide Examine, RecordBytes, Stale, FromBigEndian, FragmentBytes;
    Examined(t.p, rec.version, t.epoch == 0, s.recorded, rec, e, c, rest);
  }

  /** The share of a message that is sent in this epoch is placed, or ignored. */
  lemma {:induction false} ShareTaken(t: Terms, r: Incoming, e: Entry, c: Cut)
    requires e.Handshake? && c.off + c.len <= |e.message.body| <= t.maxLen && e.Fits() && e.epoch == t.epoch <= 1
    requires e.place < |t.sent| < SEQS && t.sent[e.place] == e.message && (e.epoch == 0 <==> e.place < t.due)
    requires |r.slots| == FLIGHT && InWindow(r, t.epoch) && Faithful(r, t.sent) && |t.sent| <= r.next + FLIGHT
    requires t.epoch == 1 ==> t.due == r.next && |t.sent| <= t.due + 1
    ensures Place(r, t.epoch, t.maxLen, Share(e, c)).ok
    ensures PlaceAll(r, t.epoch, t.maxLen, FragmentBytes(Share(e, c))) == Place(r, t.epoch, t.maxLen, Share(e, c))
  {
    hide Place, PlaceAll, FragmentBytes, InWindow, Faithful;
    GenuineRejected(r, t.epoch, t.maxLen, Share(e, c), t.sent);
    PlaceOne(r, t.epoch, t.maxLen, Share(e, c));
  }

  /** What is in the ring belongs to the epoch: the first `due` messages to epoch 0. */
  ghost predicate Staged(r: Incoming, epoch: nat, due: nat)
  {
    && |r.slots| == FLIGHT
    && forall i :: 0 <= i < FLIGHT && r.slots[i].Some? ==> (epoch == 0 <==> r.slots[i].value.seqNo < due)
  }

  lemma {:induction false} PlaceStaged(r: Incoming, epoch: nat, maxLen: nat, f: Fragment, due: nat)
    requires Staged(r, epoch, due) && (epoch == 0 <==> f.seqNo < due)
    ensures Staged(Place(r, epoch, maxLen, f).ring, epoch, due)
  {
    hide Take;
    var i := f.seqNo % FLIGHT;
    var p := if r.slots[i].Some? then r.slots[i].value else Blank(f, epoch);
    if f.off + |f.body| <= |p.bytes| { TakeKeeps(p, f.off, f.body, epoch); }
  }

  lemma {:induction false} AdvanceStaged(r: Incoming, epoch: nat, due: nat)
    requires Staged(r, epoch, due)
    ensures Staged(R.Advance(r), epoch, due)
  {}

  /** The complete message at the front belongs to the epoch. */
  lemma {:induction false} FrontStaged(r: Incoming, epoch: nat, due: nat)
    requires Staged(r, epoch, due) && InWindow(r, epoch) && r.slots[r.next % FLIGHT].Some?
    ensures epoch == 0 <==> r.next < due
  {
    var p := r.slots[r.next % FLIGHT].value;
    assert SlotOk(r, epoch, r.next % FLIGHT, p);
    SameNumber(p.seqNo, r.next, r.next);
  }

  /** When all that belongs to epoch 0 has been handed out the ring is empty. */
  lemma {:induction false} NothingStaged(r: Incoming, due: nat)
    requires Staged(r, 0, due) && InWindow(r, 0) && due <= r.next
    ensures forall i :: 0 <= i < FLIGHT ==> r.slots[i].None?
  {}

  lemma {:induction false} EmptyStaged(r: Incoming, epoch: nat, due: nat)
    requires |r.slots| == FLIGHT && forall i :: 0 <= i < FLIGHT ==> r.slots[i].None?
    ensures Staged(r, epoch, due)
  {}

  // ---- The receiver ----

  /** What is known of a world in which the peer says the first `due` messages in epoch 0. */
  ghost function TermsOf(world: World, due: nat, next: nat, last: nat): Terms
    reads world`sent, world.sender.writer`wEpoch, world.receiver.reader
  {
    Terms(world.Keys(), world.receiver.maxLen, world.sent, due, world.sender.writer.wEpoch,
          world.receiver.reader.rEpoch, next, last)
  }

  /** The receiver is at work on a flight, with next and last the numbers that records may still have: it is behind
      everything before the flight, and in the epoch of what it waits for. */
  ghost predicate AtWork(world: World, due: nat, next: nat, last: nat)
    reads world`alive, world`delivered, world`sent, world.sender.writer`wEpoch, world.receiver, world.receiver.reader,
          world.receiver.reader.bitmap
  {
    var receiver, reader, w := world.receiver, world.receiver.reader, world.sender.writer.wEpoch;
    && world.alive && !receiver.hasMessage && reader.rEpoch <= w <= 1 && (reader.nullCipher <==> reader.rEpoch == 0)
    && |world.delivered| <= |world.sent| <= |world.delivered| + FLIGHT && |world.sent| < SEQS
    && due <= |world.sent| && (if w == 0 then due == |world.sent| else |world.sent| <= due + 1)
    && (if reader.rEpoch == 0 then |world.delivered| <= due && (receiver.hasCcs ==> w == 1)
        else due <= |world.delivered| && !receiver.hasCcs)
    && Staged(receiver.ring, reader.rEpoch, due)
    && Below(reader.bitmap.recorded, reader.rEpoch, if reader.rEpoch == w then next else last)
  }

  /** It has done all it can: the next message is not complete, and there is no change of keys to make. */
  ghost predicate Waiting(world: World, due: nat, next: nat, last: nat)
    reads world`alive, world`delivered, world`sent, world.sender.writer`wEpoch, world.receiver, world.receiver.reader,
          world.receiver.reader.bitmap
  {
    AtWork(world, due, next, last) && !world.receiver.CurrentComplete() &&
        !(world.receiver.hasCcs && |world.delivered| == due)
  }

  /** Everything has been handed out, and the keys are those of the sender. */
  predicate Done(world: World)
    reads world`delivered, world`sent, world.sender.writer`wEpoch, world.receiver.reader
  {
    |world.delivered| == |world.sent| && world.receiver.reader.rEpoch == world.sender.writer.wEpoch
  }

  /** Hands out what is complete, and changes the keys behind the messages of epoch 0, which the state machine knows. */
  method Proceed(world: World, due: nat, ghost next: nat, ghost last: nat)
    requires world.Valid() && AtWork(world, due, next, last)
    modifies world, world.receiver.Repr
    ensures world.Valid() && fresh(world.receiver.Repr - old(world.receiver.Repr)) && OnlyReceiver(world)
    ensures Waiting(world, due, next, last) && world.left == old(world.left) && world.buffer == old(world.buffer)
    ensures old(world.delivered) <= world.delivered && old(world.receiver.reader.rEpoch) <= world.receiver.reader.rEpoch
    ensures old(world.receiver.hasCcs) || old(world.receiver.reader.rEpoch) == 1 ==>
              world.receiver.hasCcs || world.receiver.reader.rEpoch == 1
    ensures if |old(world.receiver.ring.slots)| == FLIGHT && old(world.receiver.CurrentComplete()) then
              |world.delivered| > |old(world.delivered)|
            else world.receiver.ring == old(world.receiver.ring) && world.delivered == old(world.delivered)
  {
    hide World.Valid, AtWork;
    WorldFacts(world);
    HandOutAll(world, due, next, last);
    WorldFacts(world);
    if world.receiver.hasCcs && |world.delivered| == due {
      Rekey(world, due, next, last);
    }
  }

  /** Hands out what is complete. */
  method HandOutAll(world: World, ghost due: nat, ghost next: nat, ghost last: nat)
    requires world.Valid() && AtWork(world, due, next, last)
    modifies world`delivered, world`origins, world.receiver, world.receiver.incoming
    ensures world.Valid() && world.receiver.Repr == old(world.receiver.Repr) && OnlyReceiver(world)
    ensures AtWork(world, due, next, last)
    ensures |world.receiver.ring.slots| == FLIGHT && !world.receiver.CurrentComplete()
    ensures world.receiver.hasCcs == old(world.receiver.hasCcs) && old(world.delivered) <= world.delivered
    ensures if |old(world.receiver.ring.slots)| == FLIGHT && old(world.receiver.CurrentComplete()) then
              |world.delivered| > |old(world.delivered)|
            else world.receiver.ring == old(world.receiver.ring) && world.delivered == old(world.delivered)
  {
    hide World.Valid, AtWork;
    WorldFacts(world);
    var more := HandOutOne(world, due, next, last);
    while more
      invariant world.Valid() && world.receiver.Repr == old(world.receiver.Repr) && OnlyReceiver(world)
      invariant AtWork(world, due, next, last) && |world.receiver.ring.slots| == FLIGHT
      invariant world.receiver.hasCcs == old(world.receiver.hasCcs)
      invariant old(world.delivered) <= world.delivered <= world.sent
      invariant if old(world.receiver.CurrentComplete()) then |world.delivered| > |old(world.delivered)|
                else !more && world.receiver.ring == old(world.receiver.ring) && world.delivered == old(world.delivered)
      invariant !more ==> !world.receiver.CurrentComplete()
      decreases |world.sent| - |world.delivered|, more
    {
      more := HandOutOne(world, due, next, last);
    }
  }

  /** The next message, if it is complete, is handed out. */
  method HandOutOne(world: World, ghost due: nat, ghost next: nat, ghost last: nat) returns (got: bool)
    requires world.Valid() && AtWork(world, due, next, last)
    modifies world`delivered, world`origins, world.receiver, world.receiver.incoming
    ensures world.Valid() && world.receiver.Repr == old(world.receiver.Repr) && OnlyReceiver(world)
    ensures AtWork(world, due, next, last) && |old(world.receiver.ring.slots)| == FLIGHT
    ensures (got <==> old(world.receiver.CurrentComplete())) && |world.receiver.ring.slots| == FLIGHT
    ensures !got ==> !world.receiver.CurrentComplete()
    ensures world.receiver.hasCcs == old(world.receiver.hasCcs) && old(world.delivered) <= world.delivered <= world.sent
    ensures if got then |world.delivered| == |old(world.delivered)| + 1
            else world.receiver.ring == old(world.receiver.ring) && world.delivered == old(world.delivered)
  {
    hide World.Valid, Staged, Below, R.Advance;
    WorldFacts(world);
    ghost var ring, epoch := world.receiver.ring, world.receiver.reader.rEpoch;
    AdvanceStaged(ring, epoch, due);
    if ring.slots[ring.next % FLIGHT].Some? { FrontStaged(ring, epoch, due); }
    var n := |world.delivered|;
    Receive(world);
    WorldFacts(world);
    got := |world.delivered| > n;
  }

  /** The keys are changed behind the messages of epoch 0. */
  method Rekey(world: World, due: nat, ghost next: nat, ghost last: nat)
    requires world.Valid() && AtWork(world, due, next, last) && world.receiver.hasCcs && |world.delivered| == due
    modifies world, world.receiver.Repr
    ensures world.Valid() && fresh(world.receiver.Repr - old(world.receiver.Repr)) && OnlyReceiver(world)
    ensures AtWork(world, due, next, last) && world.left == old(world.left) && world.buffer == old(world.buffer)
    ensures world.delivered == old(world.delivered) && world.receiver.ring == old(world.receiver.ring)
    ensures old(world.receiver.reader.rEpoch) == 0 && world.receiver.reader.rEpoch == 1 && !world.receiver.hasCcs
    ensures |world.receiver.ring.slots| == FLIGHT && !world.receiver.CurrentComplete()
  {
    hide World.Valid, Staged, Below, Examine, R.AbsorbRecord, R.FlagsCcs, World.TookFront;
    WorldFacts(world);
    NothingStaged(world.receiver.ring, due);
    EmptyStaged(world.receiver.ring, 1, due);
    NoneRecorded(1, next);
    var got := world.OpenChangeCipherSpec();
    WorldFacts(world);
    var ok := world.NextReadEpoch();
    WorldFacts(world);
  }

  // ---- One record ----

  /** What taking the record brings: the cut is in the ring, unless its message has been handed out; or the
      ChangeCipherSpec is flagged, unless the keys are changed. */
  ghost predicate Brought(ring0: Incoming, ring: Incoming, was: nat, now: nat, ccs: bool, epoch: nat, l: Load)
    requires |ring0.slots| == |ring.slots| == FLIGHT
  {
    if l.Talk? then true
    else if l.e.Ccs? then ccs || epoch == 1
    else l.e.place == was ==>
      || now > was
      || (ring.slots[was % FLIGHT].Some? &&
          forall j: nat :: Held(ring0, was, j) || l.c.off <= j < l.c.off + l.c.len ==> Held(ring, was, j))
  }

  /** A receiver that is not done opens the record at the front, and goes on as far as it can. */
  method PassProper(world: World, due: nat, ghost l: Load, ghost next0: nat, ghost last0: nat,
                    ghost next: nat, ghost last: nat)
    requires world.Valid() && Waiting(world, due, next0, last0) && !Done(world) && next0 <= next && last0 <= last
    requires world.left != [] && Laden(TermsOf(world, due, next, last), world.left[0], l)
    requires |world.left[0].body| <= MAX_ENCRYPTED_LENGTH
    requires world.left[0].Epoch() == world.receiver.reader.rEpoch ==>
               world.left[0].Number() < world.left[0].Epoch() * NUMBERS +
                 if world.left[0].Epoch() == world.sender.writer.wEpoch then next else last
    modifies world, world.receiver.Repr
    ensures world.Valid() && fresh(world.receiver.Repr - old(world.receiver.Repr)) && OnlyReceiver(world)
    ensures Waiting(world, due, next, last) && |world.buffer| < |old(world.buffer)|
    ensures old(world.delivered) <= world.delivered && old(world.receiver.reader.rEpoch) <= world.receiver.reader.rEpoch
    ensures world.left == [] || world.left == old(world.left)[1..]
    ensures old(world.receiver.reader.rEpoch) == 0 ||
            old(world.left)[0].version == world.Keys().recordVersion(old(world.receiver.reader.rEpoch)) ==>
              world.left == old(world.left)[1..]
    ensures |old(world.receiver.ring.slots)| == |world.receiver.ring.slots| == FLIGHT
    ensures old(Taken(world.Keys(), world.receiver.reader.rEpoch, world.receiver.reader.bitmap.recorded,
                      world.left[0])) ==>
              Brought(old(world.receiver.ring), world.receiver.ring, |old(world.delivered)|, |world.delivered|,
                      world.receiver.hasCcs, world.receiver.reader.rEpoch, l)
  {
    hide World.Valid, AtWork, Effect, Laden, Taken, Held, FromBigEndian;
    OpenProper(world, due, l, next0, last0, next, last);
    WorldFacts(world);
    Proceed(world, due, next, last);
    WorldFacts(world);
  }

  /** What the cut brings to the ring. */
  lemma {:induction false} PlaceBrings(r: Incoming, epoch: nat, maxLen: nat, sent: seq<Message>, e: Entry, c: Cut)
    requires |r.slots| == FLIGHT && e.Handshake? && c.off + c.len <= |e.message.body| && e.place < SEQS
    requires Place(r, epoch, maxLen, Share(e, c)).ok
    ensures Brought(r, Place(r, epoch, maxLen, Share(e, c)).ring, r.next, r.next, false, 0, Part(e, c))
  {
    hide Place, Held;
    if e.place == r.next {
      var s := Place(r, epoch, maxLen, Share(e, c)).ring;
      forall j: nat | Held(r, r.next, j) || c.off <= j < c.off + c.len
        ensures Held(s, r.next, j)
      {
        if Held(r, r.next, j) {
          HeldStays(r, epoch, maxLen, Share(e, c), r.next, j);
        } else {
          PlaceHolds(r, epoch, maxLen, Share(e, c), j);
        }
      }
      PlaceFills(r, epoch, maxLen, Share(e, c));
    }
  }

  lemma {:induction false} PlaceFills(r: Incoming, epoch: nat, maxLen: nat, f: Fragment)
    requires |r.slots| == FLIGHT && f.seqNo == r.next && Place(r, epoch, maxLen, f).ok
    ensures Place(r, epoch, maxLen, f).ring.slots[r.next % FLIGHT].Some?
  {
    hide Take;
  }

  /** What opening the record at the front comes to. */
  lemma {:induction false} FrontEffect(world: World, due: nat, l: Load, next0: nat, last0: nat, next: nat,
                                       last: nat, rest: seq<byte>)
    requires world.Valid() && Waiting(world, due, next0, last0) && !Done(world) && next0 <= next && last0 <= last
    requires world.left != [] && Laden(TermsOf(world, due, next, last), world.left[0], l)
    requires |world.left[0].body| <= MAX_ENCRYPTED_LENGTH
    requires world.left[0].Epoch() == world.receiver.reader.rEpoch ==>
               world.left[0].Number() < world.left[0].Epoch() * NUMBERS +
                 if world.left[0].Epoch() == world.sender.writer.wEpoch then next else last
    ensures var t, s, rec := TermsOf(world, due, next, last), Has(world.receiver), world.left[0];
      && RecordBytes(rec) + rest != [] && |s.ring.slots| == FLIGHT
      && Effect(t, s, rec, l, RecordBytes(rec) + rest)
      && (world.FrontIsCcs(s.recorded, RecordBytes(rec) + rest) ==> t.epoch == 0 && t.w == 1)
      && var after := R.AbsorbRecord(t.p, t.epoch, t.epoch == 0, t.maxLen, s, RecordBytes(rec) + rest);
         && Staged(after.ring, t.epoch, due) && Below(after.recorded, t.epoch, if t.epoch == t.w then next else last)
         && (Taken(t.p, t.epoch, s.recorded, rec) ==>
               Brought(s.ring, after.ring, |world.delivered|, |world.delivered|, l.Part? && l.e.Ccs?, 0, l))
  {
    hide World.Valid, Staged, Below, Examine, R.AbsorbRecord, R.Consumed, RecordBytes, Place,
         FromBigEndian, Held, Taken, Carries, Plain, InWindow, Faithful;
    WorldFacts(world);
    var t, s, rec := TermsOf(world, due, next, last), Has(world.receiver), world.left[0];
    LadenFits(t, rec, l);
    BelowHigher(s.recorded, t.epoch, if t.epoch == t.w then next0 else last0, if t.epoch == t.w then next else last);
    if !Taken(t.p, t.epoch, s.recorded, rec) {
      Dropped(t, s, rec, l, rest);
    } else {
      TakenMeans(t.p, t.epoch, s.recorded, rec);
      BelowAdd(s.recorded, t.epoch, if t.epoch == t.w then next else last, rec.Number());
      match l {
        case Talk(text) => TalkTaken(t, s, rec, text, rest);
        case Part(e, c) =>
          CutTaken(t, s, rec, e, c, rest);
          if e.Handshake? {
            PlaceStaged(s.ring, t.epoch, t.maxLen, Share(e, c), due);
            PlaceBrings(s.ring, t.epoch, t.maxLen, t.sent, e, c);
          }
      }
    }
  }

  lemma {:induction false} LadenFits(t: Terms, rec: Record, l: Load)
    requires Laden(t, rec, l)
    ensures rec.Fits() && (l.Part? ==> l.c.off + l.c.len <= |l.e.Body()| && rec.Epoch() == l.e.epoch)
  {
    if l.Part? { CutFits(t.p, rec.version, rec, l.e, l.c); }
  }

  lemma {:induction false} TakenMeans(p: Protection, epoch: nat, recorded: set<nat>, rec: Record)
    requires rec.Fits() && Taken(p, epoch, recorded, rec)
    ensures rec.Epoch() == epoch
  {}

  lemma {:induction false} BelowHigher(recorded: set<nat>, epoch: nat, next0: nat, next: nat)
    requires Below(recorded, epoch, next0) && next0 <= next
    ensures Below(recorded, epoch, next)
  {}

  lemma {:induction false} BelowAdd(recorded: set<nat>, epoch: nat, next: nat, n: nat)
    requires Below(recorded, epoch, next) && n < epoch * NUMBERS + next
    ensures Below(recorded + {n}, epoch, next)
  {}

  /** The record at the front is opened. */
  method OpenProper(world: World, due: nat, ghost l: Load, ghost next0: nat, ghost last0: nat,
                    ghost next: nat, ghost last: nat)
    requires world.Valid() && Waiting(world, due, next0, last0) && !Done(world) && next0 <= next && last0 <= last
    requires world.left != [] && Laden(TermsOf(world, due, next, last), world.left[0], l)
    requires |world.left[0].body| <= MAX_ENCRYPTED_LENGTH
    requires world.left[0].Epoch() == world.receiver.reader.rEpoch ==>
               world.left[0].Number() < world.left[0].Epoch() * NUMBERS +
                 if world.left[0].Epoch() == world.sender.writer.wEpoch then next else last
    modifies world, world.receiver.Repr
    ensures world.Valid() && fresh(world.receiver.Repr - old(world.receiver.Repr)) && OnlyReceiver(world)
    ensures AtWork(world, due, next, last) && |world.buffer| < |old(world.buffer)|
    ensures world.delivered == old(world.delivered) && world.receiver.reader.rEpoch == old(world.receiver.reader.rEpoch)
    ensures world.left == [] || world.left == old(world.left)[1..]
    ensures old(world.receiver.reader.rEpoch) == 0 ||
            old(world.left)[0].version == world.Keys().recordVersion(old(world.receiver.reader.rEpoch)) ==>
              world.left == old(world.left)[1..]
    ensures |old(world.receiver.ring.slots)| == |world.receiver.ring.slots| == FLIGHT
    ensures old(Taken(world.Keys(), world.receiver.reader.rEpoch, world.receiver.reader.bitmap.recorded,
                      world.left[0])) ==>
              Brought(old(world.receiver.ring), world.receiver.ring, |old(world.delivered)|, |world.delivered|,
                      world.receiver.hasCcs, world.receiver.reader.rEpoch, l)
  {
    hide World.Valid, Staged, Below, Examine, R.AbsorbRecord, R.Consumed, R.FlagsCcs, RecordBytes, S.RecordsBytes,
         FromBigEndian, Held, Taken;
    WorldFacts(world);
    ghost var rest := S.RecordsBytes(world.left[1..]);
    RecordsFront(world.left);
    RestLength(world.left);
    FrontEffect(world, due, l, next0, last0, next, last, rest);
    world.OpenHandshake();
    WorldFacts(world);
  }

  // ---- The network ----

  /** Every packet on the network, and what is left of the last one, holds records that fit. */
  ghost predicate NetworkFits(world: World, due: nat)
    requires world.Valid()
    reads world, world.receiver, world.Repr()
  {
    var t := TermsOf(world, due, world.sender.writer.Next(), world.sender.writer.Last());
    NetFits(t, world.contents) && AllFit(t, world.left)
  }

  lemma {:induction false} AllLater(t: Terms, u: Terms, recs: seq<Record>)
    requires AllFit(t, recs) && Later(t, u)
    ensures AllFit(u, recs)
  {
    hide RecordFits, Later;
    forall j | 0 <= j < |recs|
      ensures RecordFits(u, recs[j])
    {
      FitsLater(t, u, recs[j]);
    }
  }

  lemma {:induction false} TailFits(t: Terms, recs: seq<Record>)
    requires AllFit(t, recs)
    ensures AllFit(t, []) && (recs != [] ==> AllFit(t, recs[1..]))
  {
    hide RecordFits;
  }

  /** What is left is a packet, or behind its first record, or nothing. */
  ghost predicate LeftOver(before: seq<Record>, left: seq<Record>, contents: seq<seq<Record>>)
  {
    || left == [] || left == before || (before != [] && left == before[1..])
    || exists i :: 0 <= i < |contents| && left == contents[i]
  }

  /** The receiver has gone on, and has taken from the packet. */
  lemma {:induction false} FitsStill(t: Terms, u: Terms, contents: seq<seq<Record>>, before: seq<Record>,
                                     left: seq<Record>)
    requires NetFits(t, contents) && AllFit(t, before) && Later(t, u) && LeftOver(before, left, contents)
    ensures NetFits(u, contents) && AllFit(u, left)
  {
    hide RecordFits, Later;
    NetLater(t, u, contents);
    AllLater(t, u, before);
    TailFits(u, before);
  }

  /** Any record that is on the network may come first. */
  method PassAny(world: World, due: nat)
    requires world.Valid() && world.left != [] && NetworkFits(world, due) && !Done(world)
    requires Waiting(world, due, world.sender.writer.Next(), world.sender.writer.Last())
    modifies world, world.receiver.Repr
    ensures world.Valid() && fresh(world.receiver.Repr - old(world.receiver.Repr)) && OnlyReceiver(world)
    ensures NetworkFits(world, due) && |world.buffer| < |old(world.buffer)|
    ensures old(world.delivered) <= world.delivered && old(world.receiver.reader.rEpoch) <= world.receiver.reader.rEpoch
    ensures Waiting(world, due, world.sender.writer.Next(), world.sender.writer.Last())
  {
    hide World.Valid, NetFits, AllFit, Waiting, Below, Brought, Taken, Laden, FromBigEndian, Held, Stale;
    WorldFacts(world);
    ghost var next, last := world.sender.writer.Next(), world.sender.writer.Last();
    ghost var t, before := TermsOf(world, due, next, last), world.left;
    ghost var l := FirstFits(world, due);
    WaitingMeans(world, due, next, last);
    PassProper(world, due, l, next, last, next, last);
    WorldFacts(world);
    WaitingMeans(world, due, next, last);
    FitsStill(t, TermsOf(world, due, next, last), world.contents, before, world.left);
  }

  lemma {:induction false} WaitingMeans(world: World, due: nat, next: nat, last: nat)
    requires Waiting(world, due, next, last)
    ensures world.receiver.reader.rEpoch <= world.sender.writer.wEpoch <= 1
    ensures world.sender.writer.wEpoch == 0 ==> due == |world.sent|
    ensures |world.sent| < SEQS && |world.delivered| <= |world.sent| && world.alive && !world.receiver.hasMessage
    ensures world.receiver.reader.rEpoch == 0 ==> |world.delivered| <= due
    ensures world.receiver.reader.rEpoch == 1 ==> due <= |world.delivered|
    ensures |world.receiver.ring.slots| == FLIGHT && !world.receiver.CurrentComplete()
    ensures !(world.receiver.hasCcs && |world.delivered| == due)
    ensures Below(world.receiver.reader.bitmap.recorded, world.receiver.reader.rEpoch,
                  if world.receiver.reader.rEpoch == world.sender.writer.wEpoch then next else last)
  {
    hide Below;
  }

  lemma {:induction false} FirstFits(world: World, due: nat) returns (l: Load)
    requires world.Valid() && world.left != [] && NetworkFits(world, due)
    ensures var next, last, rec := world.sender.writer.Next(), world.sender.writer.Last(), world.left[0];
      && Laden(TermsOf(world, due, next, last), rec, l) && |rec.body| <= MAX_ENCRYPTED_LENGTH && rec.Fits()
      && (rec.Epoch() == world.receiver.reader.rEpoch ==>
            rec.Number() < rec.Epoch() * NUMBERS + if rec.Epoch() == world.sender.writer.wEpoch then next else last)
  {
    hide World.Valid, Laden, FromBigEndian;
    WorldFacts(world);
    var next, last, rec := world.sender.writer.Next(), world.sender.writer.Last(), world.left[0];
    assert RecordFits(TermsOf(world, due, next, last), rec);
    l :| Laden(TermsOf(world, due, next, last), rec, l);
  }

  /** The receiver takes what is left of a packet, until it is done. */
  method WorkOff(world: World, due: nat)
    requires world.Valid() && NetworkFits(world, due)
    requires Waiting(world, due, world.sender.writer.Next(), world.sender.writer.Last())
    modifies world, world.receiver.Repr
    ensures world.Valid() && fresh(world.receiver.Repr - old(world.receiver.Repr)) && OnlyReceiver(world)
    ensures NetworkFits(world, due) && (world.buffer == [] || Done(world))
    ensures old(world.delivered) <= world.delivered && old(world.receiver.reader.rEpoch) <= world.receiver.reader.rEpoch
    ensures Waiting(world, due, world.sender.writer.Next(), world.sender.writer.Last())
  {
    hide World.Valid, NetworkFits, Waiting, S.RecordsBytes, FromBigEndian;
    WorldFacts(world);
    while world.buffer != [] && !Done(world)
      invariant world.Valid() && fresh(world.receiver.Repr - old(world.receiver.Repr)) && OnlyReceiver(world)
      invariant world.sender.writer.writeSequence.Length == world.sender.writer.lastWriteSequence.Length == 8
      invariant NetworkFits(world, due)
      invariant Waiting(world, due, world.sender.writer.Next(), world.sender.writer.Last())
      invariant world.buffer == S.RecordsBytes(world.left)
      invariant old(world.delivered) <= world.delivered
      invariant old(world.receiver.reader.rEpoch) <= world.receiver.reader.rEpoch
      decreases |world.buffer|
    {
      NoBytes(world.left);
      PassAny(world, due);
      WorldFacts(world);
    }
  }

  // ---- The flight that is sent again ----

  /** The messages of the flight that come before the change of keys are those before `due`. */
  ghost predicate Planned(flight: seq<Entry>, sent: seq<Message>, due: nat)
  {
    forall i :: 0 <= i < |flight| ==> PlannedAt(flight, sent, due, i)
  }

  ghost predicate PlannedAt(flight: seq<Entry>, sent: seq<Message>, due: nat, i: nat)
    requires i < |flight|
  {
    var place := |sent| - Handshakes(flight) + Handshakes(flight[..i]);
    if flight[i].Ccs? then due == place else (flight[i].epoch == 0 <==> place < due)
  }

  /** Everything up to a position of the flight has been taken: of a message that is not handed out, its bytes up to
      there are held. */
  ghost predicate Reached(world: World, due: nat, at: Pos, next: nat, last: nat)
    reads world`alive, world`delivered, world`sent, world.sender`flight, world.sender.writer`wEpoch, world.receiver,
          world.receiver.reader, world.receiver.reader.bitmap
  {
    var flight, ring := world.sender.flight, world.receiver.ring;
    && Waiting(world, due, next, last) && at.written <= |flight| && |ring.slots| == FLIGHT &&
    var place := |world.sent| - Handshakes(flight) + Handshakes(flight[..at.written]);
    && EpochAt(flight, world.sender.writer.wEpoch, at.written) <= world.receiver.reader.rEpoch
    && place <= |world.delivered|
    && (place == |world.delivered| && at.written < |flight| && flight[at.written].Handshake? ==>
          forall j: nat :: j < at.offset ==> Held(ring, place, j))
  }

  /** The next message is complete where all its bytes are held. */
  lemma {:induction false} AllHeldCompletes(world: World)
    requires world.Valid() && !world.receiver.hasMessage && |world.delivered| < |world.sent|
    ensures var n := |world.delivered|;
      && |world.receiver.ring.slots| == FLIGHT
      && (world.receiver.ring.slots[n % FLIGHT].Some?
          && (forall j: nat :: j < |world.sent[n].body| ==> Held(world.receiver.ring, n, j)) ==>
            world.receiver.CurrentComplete())
  {
    hide World.Valid, InWindow, InTurn, Reassembly.Shows, Held;
    WorldFacts(world);
    var n, ring := |world.delivered|, world.receiver.ring;
    if ring.slots[n % FLIGHT].Some? && forall j: nat :: j < |world.sent[n].body| ==> Held(ring, n, j) {
      FrontNumber(ring, world.receiver.reader.rEpoch);
      AllHeld(ring, world.sent, n);
    }
  }

  lemma {:induction false} FrontNumber(r: Incoming, epoch: nat)
    requires InWindow(r, epoch) && r.slots[r.next % FLIGHT].Some?
    ensures r.slots[r.next % FLIGHT].value.seqNo == r.next
  {
    assert SlotOk(r, epoch, r.next % FLIGHT, r.slots[r.next % FLIGHT].value);
    SameNumber(r.slots[r.next % FLIGHT].value.seqNo, r.next, r.next);
  }

  /** A record that carries a cut of the flight is proper. */
  lemma {:induction false} EntryProper(t: Terms, mtu: nat, flight: seq<Entry>, rec: Record, c: Cut)
    requires Suits(t.p, mtu) && Keyed(flight, t.w) && InTurn(flight, t.sent) && Planned(flight, t.sent, t.due)
    requires c.index < |flight| && Carries(t.p, t.p.recordVersion(t.w), rec, flight[c.index], c)
    requires |flight[c.index].Body()| <= t.maxLen && RT_HEADER_LENGTH + |Plain(flight[c.index], c)| <= mtu && t.w <= 1
    ensures Proper(t, rec, flight[c.index], c)
  {
    hide FromBigEndian, InTurn, Plain, Handshakes, Protection.Sound;
    KeyedEpoch(flight, t.w, c.index);
    KeyedNext(flight, t.w, c.index);
    if c.index + 1 < |flight| { KeyedEpoch(flight, t.w, c.index + 1); }
    PlaceInTurn(flight, t.sent, c.index);
    assert PlannedAt(flight, t.sent, t.due, c.index);
  }

  /** A record of the flight that is sent again comes first. */
  method PassAgain(world: World, due: nat, ghost mtu: nat, ghost recs: seq<Record>, ghost cuts: seq<Cut>, ghost at: Pos,
                   ghost to: Pos, ghost next0: nat, ghost last0: nat, ghost next: nat, ghost last: nat)
    returns (ghost at1: Pos, ghost next1: nat, ghost last1: nat)
    requires world.Valid() && Reached(world, due, at, next0, last0) && !Done(world) && Suits(world.Keys(), mtu)
    requires Keyed(world.sender.flight, world.sender.writer.wEpoch) && Planned(world.sender.flight, world.sent, due)
    requires Short(world) && |world.buffer| <= mtu
    requires Ahead(world.Keys(), world.sender.writer.wEpoch, world.sender.flight, mtu, recs, cuts, at, to, next0,
                   last0, next, last)
    requires recs != [] && world.left != [] && world.left[0] == recs[0]
    modifies world, world.receiver.Repr
    ensures world.Valid() && fresh(world.receiver.Repr - old(world.receiver.Repr)) && OnlyReceiver(world)
    ensures Reached(world, due, at1, next1, last1) && world.left == old(world.left)[1..]
    ensures |world.buffer| < |old(world.buffer)| && cuts != []
    ensures old(world.receiver.reader.rEpoch) <= world.receiver.reader.rEpoch
    ensures Ahead(world.Keys(), world.sender.writer.wEpoch, world.sender.flight, mtu, recs[1..], cuts[1..], at1, to,
                  next1, last1, next, last)
  {
    hide World.Valid, Waiting, Below, Brought, Proper, FromBigEndian, Held, Stale, Ahead, Keyed, Planned, InTurn,
         Taken, Plain, Carries, Handshakes, Suits, RecordBytes, S.RecordsBytes;
    WorldFacts(world);
    ghost var w, flight := world.sender.writer.wEpoch, world.sender.flight;
    AheadFront(world.Keys(), w, flight, mtu, recs, cuts, at, to, next0, last0, next, last);
    ghost var e, c, rec := flight[at.written], cuts[0], recs[0];
    next1, last1 := if e.epoch == w then next0 + 1 else next0, if e.epoch == w then last0 else last0 + 1;
    at1 := Behind(e, c, at);
    FrontProper(world, due, mtu, at, c, next0, last0, next1, last1);
    ghost var ring0, was, epoch0 := world.receiver.ring, |world.delivered|, world.receiver.reader.rEpoch;
    WaitingMeans(world, due, next0, last0);
    CutFits(world.Keys(), world.Keys().recordVersion(w), rec, e, c);
    PlaceInTurn(flight, world.sent, at.written);
    ghost var place := |world.sent| - Handshakes(flight) + Handshakes(flight[..at.written]);
    assert place == was && e.Handshake? ==> forall j: nat :: j < at.offset ==> Held(ring0, place, j);
    assert Laden(TermsOf(world, due, next1, last1), rec, Part(e, c));
    PassProper(world, due, Part(e, c), next0, last0, next1, last1);
    WorldFacts(world);
    ReachedOn(world, due, at, c, ring0, was, epoch0, next1, last1);
  }

  /** The record that comes first is taken, if it is of the receiver's epoch: its number is new. */
  lemma {:induction false} FrontProper(world: World, due: nat, mtu: nat, at: Pos, c: Cut, next0: nat, last0: nat,
                                       next: nat, last: nat)
    requires world.Valid() && Reached(world, due, at, next0, last0) && Suits(world.Keys(), mtu)
    requires Keyed(world.sender.flight, world.sender.writer.wEpoch) && Planned(world.sender.flight, world.sent, due)
    requires Short(world) && |world.buffer| <= mtu && at.written < |world.sender.flight| && world.left != []
    requires var w, e, rec := world.sender.writer.wEpoch, world.sender.flight[at.written], world.left[0];
      && Carries(world.Keys(), world.Keys().recordVersion(w), rec, e, c) && c.index == at.written
      && RT_HEADER_LENGTH + |Plain(e, c)| <= mtu
      && rec.Number() == rec.Epoch() * NUMBERS + (if e.epoch == w then next0 else last0)
      && next == (if e.epoch == w then next0 + 1 else next0) && last == if e.epoch == w then last0 else last0 + 1
    ensures var t, rec, e := TermsOf(world, due, next, last), world.left[0], world.sender.flight[at.written];
      && Proper(t, rec, e, c) && |rec.body| <= MAX_ENCRYPTED_LENGTH && rec.Fits() && rec.Epoch() == e.epoch
      && (rec.Epoch() == t.epoch ==>
            && rec.Number() < rec.Epoch() * NUMBERS + (if rec.Epoch() == t.w then next else last)
            && Taken(t.p, t.epoch, world.receiver.reader.bitmap.recorded, rec))
      && (t.epoch == 0 || rec.version == t.p.recordVersion(t.epoch))
  {
    hide World.Valid, Waiting, Proper, FromBigEndian, Stale, Keyed, Planned, InTurn, Plain, Handshakes, Suits,
         RecordBytes, S.RecordsBytes, Below, Held;
    WorldFacts(world);
    WaitingMeans(world, due, next0, last0);
    var w, rec, e := world.sender.writer.wEpoch, world.left[0], world.sender.flight[at.written];
    var recorded, epoch := world.receiver.reader.bitmap.recorded, world.receiver.reader.rEpoch;
    EntryProper(TermsOf(world, due, next, last), mtu, world.sender.flight, rec, c);
    RecordsFront(world.left);
    RecordLength(rec);
    SuitsSize(world.Keys(), mtu);
    BelowIsNew(recorded, epoch, if epoch == w then next0 else last0);
  }

  lemma {:induction false} SuitsSize(p: Protection, mtu: nat)
    requires Suits(p, mtu)
    ensures mtu <= RT_HEADER_LENGTH + MAX_PLAIN_LENGTH <= RT_HEADER_LENGTH + MAX_ENCRYPTED_LENGTH
  {
    hide Protection.Sound;
  }

  /** What the receiver had before a record with the cut at a position, and what it has brought. */
  ghost predicate Passed(world: World, due: nat, at: Pos, c: Cut, ring0: Incoming, was: nat, epoch0: nat)
    requires at.written < |world.sender.flight|
    reads world`delivered, world`sent, world.sender, world.receiver, world.receiver.reader
  {
    var flight, e := world.sender.flight, world.sender.flight[at.written];
    var place := |world.sent| - Handshakes(flight) + Handshakes(flight[..at.written]);
    && |ring0.slots| == |world.receiver.ring.slots| == FLIGHT && was <= |world.delivered|
    && e.epoch <= epoch0 <= world.receiver.reader.rEpoch && (if epoch0 == 0 then was <= due else due <= was)
    && c.off == at.offset && c.off + c.len <= |e.Body()| && 0 <= place <= was
    && (place == was && e.Handshake? ==> forall j: nat :: j < at.offset ==> Held(ring0, place, j))
    && (e.epoch == epoch0 ==>
          Brought(ring0, world.receiver.ring, was, |world.delivered|, world.receiver.hasCcs,
                  world.receiver.reader.rEpoch, Part(e, c)))
  }

  /** A message that is not handed out belongs to the receiver's epoch, and its bytes up to the end of the cut are
      held. */
  lemma {:induction false} StillHeld(world: World, due: nat, at: Pos, c: Cut, ring0: Incoming, was: nat, epoch0: nat)
    requires at.written < |world.sender.flight| && Passed(world, due, at, c, ring0, was, epoch0)
    requires world.Valid() && Planned(world.sender.flight, world.sent, due)
    requires world.sender.flight[at.written].Handshake? && epoch0 <= 1
    ensures var flight, ring := world.sender.flight, world.receiver.ring;
      var place := |world.sent| - Handshakes(flight) + Handshakes(flight[..at.written]);
      && |ring.slots| == FLIGHT && 0 <= place <= |world.delivered|
      && (place == |world.delivered| ==>
            ring.slots[place % FLIGHT].Some? && forall j: nat :: j < c.off + c.len ==> Held(ring, place, j))
  {
    hide World.Valid, InTurn, Handshakes, Held;
    WorldFacts(world);
    PlaceInTurn(world.sender.flight, world.sent, at.written);
    assert PlannedAt(world.sender.flight, world.sent, due, at.written);
  }

  /** A message of which nothing is missing is handed out. */
  lemma {:induction false} WholeDelivered(world: World, due: nat, at: Pos, c: Cut, ring0: Incoming, was: nat,
                                          epoch0: nat, next: nat, last: nat)
    requires at.written < |world.sender.flight| && Passed(world, due, at, c, ring0, was, epoch0)
    requires world.Valid() && Waiting(world, due, next, last) && Planned(world.sender.flight, world.sent, due)
    requires var e := world.sender.flight[at.written]; e.Handshake? && c.off + c.len == |e.Body()| && epoch0 <= 1
    ensures |world.sent| - Handshakes(world.sender.flight) + Handshakes(world.sender.flight[..at.written]) <
            |world.delivered|
  {
    hide World.Valid, Waiting, Planned, InTurn, Handshakes, Held, Below, Passed;
    WorldFacts(world);
    WaitingMeans(world, due, next, last);
    PlaceInTurn(world.sender.flight, world.sent, at.written);
    StillHeld(world, due, at, c, ring0, was, epoch0);
    if |world.delivered| < |world.sent| { AllHeldCompletes(world); }
  }

  /** Behind a ChangeCipherSpec the keys are changed. */
  lemma {:induction false} Rekeyed(world: World, due: nat, at: Pos, c: Cut, ring0: Incoming, was: nat, epoch0: nat,
                                   next: nat, last: nat)
    requires at.written < |world.sender.flight| && Passed(world, due, at, c, ring0, was, epoch0)
    requires world.Valid() && Waiting(world, due, next, last) && Planned(world.sender.flight, world.sent, due)
    requires world.sender.flight[at.written].Ccs? && world.sender.flight[at.written].epoch == 0 && epoch0 <= 1
    ensures world.receiver.reader.rEpoch == 1
  {
    hide World.Valid, Waiting, Handshakes, Held, Below;
    WaitingMeans(world, due, next, last);
    assert PlannedAt(world.sender.flight, world.sent, due, at.written);
  }

  /** Behind a record that was taken, or that the receiver no longer needs, the flight is reached up to there. */
  lemma {:induction false} ReachedOn(world: World, due: nat, at: Pos, c: Cut, ring0: Incoming, was: nat, epoch0: nat,
                                     next: nat, last: nat)
    requires at.written < |world.sender.flight| && Passed(world, due, at, c, ring0, was, epoch0) && epoch0 <= 1
    requires world.Valid() && Waiting(world, due, next, last) && Planned(world.sender.flight, world.sent, due)
    requires Keyed(world.sender.flight, world.sender.writer.wEpoch)
    ensures Reached(world, due, Behind(world.sender.flight[at.written], c, at), next, last)
  {
    hide World.Valid, Waiting, Keyed, Planned, Handshakes, Held, Brought;
    var e := world.sender.flight[at.written];
    KeyedNext(world.sender.flight, world.sender.writer.wEpoch, at.written);
    HandshakesUpto(world.sender.flight, at.written, at.written + 1);
    if e.Ccs? {
      Rekeyed(world, due, at, c, ring0, was, epoch0, next, last);
    } else {
      StillHeld(world, due, at, c, ring0, was, epoch0);
      if c.off + c.len == |e.Body()| { WholeDelivered(world, due, at, c, ring0, was, epoch0, next, last); }
    }
  }

  /** Where the packets that carry the flight have got the receiver: as far as the records before recs lead, or it is
      done. */
  ghost predicate Along(world: World, due: nat, mtu: nat, recs: seq<Record>, cuts: seq<Cut>, at: Pos, to: Pos,
                        next0: nat, last0: nat, next: nat, last: nat)
    reads world`alive, world`delivered, world`sent, world.sender`flight, world.sender.writer`wEpoch, world.receiver,
          world.receiver.reader, world.receiver.reader.bitmap
  {
    && Reached(world, due, at, next0, last0) && next0 <= next && last0 <= last
    && (!Done(world) ==>
          Ahead(world.Keys(), world.sender.writer.wEpoch, world.sender.flight, mtu, recs, cuts, at, to, next0, last0,
                next, last))
  }

  /** What does not change while the flight is sent again. */
  ghost predicate Again(world: World, due: nat, mtu: nat)
    requires world.Valid()
    reads world, world.receiver, world.Repr()
  {
    && Suits(world.Keys(), mtu) && Keyed(world.sender.flight, world.sender.writer.wEpoch)
    && Planned(world.sender.flight, world.sent, due) && Short(world) && NetworkFits(world, due)
  }

  /** The records that are to come take numbers. */
  lemma {:induction false} AheadNumbers(p: Protection, w: nat, flight: seq<Entry>, mtu: nat, recs: seq<Record>,
                                        cuts: seq<Cut>, from: Pos, to: Pos, next0: nat, last0: nat, next: nat,
                                        last: nat)
    requires Ahead(p, w, flight, mtu, recs, cuts, from, to, next0, last0, next, last)
    ensures next0 <= next && last0 <= last
  {
    hide CarryAll, S.ShortBodies, Leads, Consecutive, NumbersBelow;
    ConsecutiveBelow(recs, w, next0, last0, next, last);
  }

  /** A record of a packet of the flight. */
  method PassNext(world: World, due: nat, ghost mtu: nat, ghost recs: seq<Record>, ghost cuts: seq<Cut>, ghost at: Pos,
                  ghost to: Pos, ghost next0: nat, ghost last0: nat, ghost next: nat, ghost last: nat)
    returns (ghost at1: Pos, ghost next1: nat, ghost last1: nat)
    requires world.Valid() && Along(world, due, mtu, recs, cuts, at, to, next0, last0, next, last) && !Done(world)
    requires Again(world, due, mtu) && |world.buffer| <= mtu
    requires recs != [] && world.left != [] && world.left[0] == recs[0]
    modifies world, world.receiver.Repr
    ensures world.Valid() && fresh(world.receiver.Repr - old(world.receiver.Repr)) && OnlyReceiver(world)
    ensures cuts != [] && Along(world, due, mtu, recs[1..], cuts[1..], at1, to, next1, last1, next, last)
    ensures Again(world, due, mtu) && world.left == old(world.left)[1..] && |world.buffer| < |old(world.buffer)|
  {
    hide World.Valid, Waiting, Ahead, Keyed, Planned, Handshakes, Held, Suits, FromBigEndian, NetFits, AllFit, Short;
    WorldFacts(world);
    WaitingMeans(world, due, next0, last0);
    ghost var t, before := TermsOf(world, due, world.sender.writer.Next(), world.sender.writer.Last()), world.left;
    at1, next1, last1 := PassAgain(world, due, mtu, recs, cuts, at, to, next0, last0, next, last);
    WorldFacts(world);
    WaitingMeans(world, due, next1, last1);
    FitsStill(t, TermsOf(world, due, world.sender.writer.Next(), world.sender.writer.Last()), world.contents, before,
              world.left);
    AheadNumbers(world.Keys(), world.sender.writer.wEpoch, world.sender.flight, mtu, recs[1..], cuts[1..], at1, to,
                 next1, last1, next, last);
  }

  /** A packet of the flight arrives. */
  method PassPacketAgain(world: World, i: nat, due: nat, ghost mtu: nat, ghost recs: seq<Record>, ghost cuts: seq<Cut>,
                         ghost at: Pos, ghost to: Pos, ghost next0: nat, ghost last0: nat, ghost next: nat,
                         ghost last: nat)
    returns (ghost cuts1: seq<Cut>, ghost at1: Pos, ghost next1: nat, ghost last1: nat)
    requires world.Valid() && Along(world, due, mtu, recs, cuts, at, to, next0, last0, next, last)
    requires Again(world, due, mtu) && world.buffer == []
    requires i < |world.network| == |world.contents| && |world.network[i]| <= mtu && world.contents[i] <= recs
    modifies world, world.receiver.Repr
    ensures world.Valid() && fresh(world.receiver.Repr - old(world.receiver.Repr)) && OnlyReceiver(world)
    ensures Along(world, due, mtu, recs[|world.contents[i]|..], cuts1, at1, to, next1, last1, next, last)
    ensures Again(world, due, mtu) && (world.buffer == [] || Done(world))
  {
    hide World.Valid, Along, Again, S.RecordsBytes;
    cuts1, at1, next1, last1 := cuts, at, next0, last0;
    WorldFacts(world);
    ghost var k, mine := 0, world.contents[i];
    AlongAlive(world, due, mtu, recs, cuts, at, to, next0, last0, next, last);
    Bring(world, i, due, mtu);
    WorldFacts(world);
    while world.buffer != [] && !Done(world)
      invariant world.Valid() && fresh(world.receiver.Repr - old(world.receiver.Repr)) && OnlyReceiver(world)
      invariant k <= |mine| && world.left == mine[k..] && world.buffer == S.RecordsBytes(world.left)
      invariant |world.buffer| <= mtu && Again(world, due, mtu)
      invariant Along(world, due, mtu, recs[k..], cuts1, at1, to, next1, last1, next, last)
      decreases |world.buffer|
    {
      NoBytes(world.left);
      at1, next1, last1 := PassNext(world, due, mtu, recs[k..], cuts1, at1, to, next1, last1, next, last);
      WorldFacts(world);
      assert recs[k..][1..] == recs[k + 1..] && mine[k..][1..] == mine[k + 1..];
      k, cuts1 := k + 1, cuts1[1..];
    }
    NoBytes(world.left);
    AlongDone(world, due, mtu, recs[k..], cuts1, at1, to, next1, last1, next, last, recs[|mine|..]);
  }

  lemma {:induction false} AlongDone(world: World, due: nat, mtu: nat, recs: seq<Record>, cuts: seq<Cut>, at: Pos,
                                     to: Pos, next0: nat, last0: nat, next: nat, last: nat, others: seq<Record>)
    requires Along(world, due, mtu, recs, cuts, at, to, next0, last0, next, last)
    ensures Done(world) ==> Along(world, due, mtu, others, cuts, at, to, next0, last0, next, last)
  {
    hide Reached, Ahead;
  }

  /** A packet arrives where the last one is used up. */
  method Bring(world: World, i: nat, due: nat, ghost mtu: nat)
    requires world.Valid() && Again(world, due, mtu)
    modifies world`buffer, world`left
    ensures world.Valid() && Again(world, due, mtu)
    ensures if world.alive && old(world.buffer) == [] && i < |world.network| && |world.network| == |world.contents| then
              world.buffer == world.network[i] && world.left == world.contents[i]
            else world.buffer == old(world.buffer)
  {
    hide World.Valid, Keyed, Planned, Suits, S.RecordsBytes, NetFits, AllFit, FromBigEndian, Short;
    WorldFacts(world);
    if i < |world.contents| {
      PacketFits(TermsOf(world, due, world.sender.writer.Next(), world.sender.writer.Last()), world.contents, i);
    }
    world.Arrive(i);
  }

  lemma {:induction false} AlongAlive(world: World, due: nat, mtu: nat, recs: seq<Record>, cuts: seq<Cut>, at: Pos,
                                      to: Pos, next0: nat, last0: nat, next: nat, last: nat)
    requires Along(world, due, mtu, recs, cuts, at, to, next0, last0, next, last)
    ensures world.alive
  {
    hide Staged, Below, Held, Handshakes, Ahead;
  }

  lemma {:induction false} PacketFits(t: Terms, contents: seq<seq<Record>>, i: nat)
    requires NetFits(t, contents) && i < |contents|
    ensures AllFit(t, contents[i])
  {
    hide AllFit;
  }

  /** The packets that came onto the network since it held n arrive, in order. */
  method PassAllAgain(world: World, n: nat, due: nat, ghost mtu: nat, ghost cuts: seq<Cut>, ghost to: Pos,
                      ghost next0: nat, ghost last0: nat, ghost next: nat, ghost last: nat)
    requires world.Valid() && Again(world, due, mtu) && world.buffer == []
    requires n <= |world.network| == |world.contents|
    requires forall i :: n <= i < |world.network| ==> |world.network[i]| <= mtu
    requires Along(world, due, mtu, Flat(world.contents[n..]), cuts, Pos(0, 0), to, next0, last0, next, last)
    requires to == Pos(|world.sender.flight|, 0)
    modifies world, world.receiver.Repr
    ensures world.Valid() && fresh(world.receiver.Repr - old(world.receiver.Repr)) && OnlyReceiver(world)
    ensures Again(world, due, mtu) && Done(world) && Waiting(world, due, next, last)
  {
    hide World.Valid, Along, Again, Flat;
    ghost var cuts1, at, n1, l1 := cuts, Pos(0, 0), next0, last0;
    var i := n;
    while i < |world.network| && !Done(world)
      invariant n <= i <= |world.network| && (world.buffer == [] || Done(world))
      invariant world.Valid() && fresh(world.receiver.Repr - old(world.receiver.Repr)) && OnlyReceiver(world)
      invariant Again(world, due, mtu)
      invariant Along(world, due, mtu, Flat(world.contents[i..]), cuts1, at, to, n1, l1, next, last)
    {
      ghost var recs, mine := Flat(world.contents[i..]), world.contents[i];
      FlatFront(world.contents[i..]);
      assert world.contents[i..][1..] == world.contents[i + 1..];
      assert recs == mine + Flat(world.contents[i + 1..]) && recs[|mine|..] == Flat(world.contents[i + 1..]);
      cuts1, at, n1, l1 := PassPacketAgain(world, i, due, mtu, recs, cuts1, at, to, n1, l1, next, last);
      i := i + 1;
    }
    if !Done(world) {
      assert world.contents[i..] == [] && Flat([]) == [] by { S.NoRecords(0, 0, 0); }
    }
    AllReached(world, due, mtu, Flat(world.contents[i..]), cuts1, at, to, n1, l1, next, last);
  }

  /** At the end of the flight the receiver is done. */
  lemma {:induction false} AllReached(world: World, due: nat, mtu: nat, recs: seq<Record>, cuts: seq<Cut>, at: Pos,
                                      to: Pos, next0: nat, last0: nat, next: nat, last: nat)
    requires world.Valid() && Along(world, due, mtu, recs, cuts, at, to, next0, last0, next, last)
    requires recs == [] || Done(world)
    requires to == Pos(|world.sender.flight|, 0)
    ensures Done(world) && Waiting(world, due, next, last)
  {
    hide World.Valid, Ahead, Held, Handshakes, Staged, Below;
    WorldFacts(world);
    AheadDone(world.Keys(), world.sender.writer.wEpoch, world.sender.flight, mtu, cuts, at, to, next0, last0, next,
              last);
    assert world.sender.flight[..|world.sender.flight|] == world.sender.flight;
    BelowHigher(world.receiver.reader.bitmap.recorded, world.receiver.reader.rEpoch,
                if world.receiver.reader.rEpoch == world.sender.writer.wEpoch then next0 else last0,
                if world.receiver.reader.rEpoch == world.sender.writer.wEpoch then next else last);
  }

  // ---- Sending, and sending again ----

  /** A proper cut, and a number below the next. */
  ghost predicate Known(t: Terms, rec: Record)
  {
    && (exists l: Load :: Laden(t, rec, l)) && rec.Fits() && rec.Epoch() <= t.w
    && rec.Number() < rec.Epoch() * NUMBERS + if rec.Epoch() == t.w then t.next else t.last
  }

  ghost predicate AllKnown(t: Terms, recs: seq<Record>)
  {
    forall k :: 0 <= k < |recs| ==> Known(t, recs[k])
  }

  lemma {:induction false} KnownFits(t: Terms, contents: seq<seq<Record>>, packets: seq<seq<byte>>, mtu: nat)
    requires AllKnown(t, Flat(contents)) && |packets| == |contents| && Suits(t.p, mtu)
    requires forall i :: 0 <= i < |packets| ==> packets[i] == S.RecordsBytes(contents[i]) && |packets[i]| <= mtu
    ensures NetFits(t, contents)
    decreases |contents|
  {
    hide Known, AllFit, S.RecordsBytes, Suits;
    if contents != [] {
      var n := |contents| - 1;
      var front := Flat(contents[..n]);
      assert Flat(contents)[..|front|] == front && Flat(contents)[|front|..] == contents[n];
      KnownFits(t, contents[..n], packets[..n], mtu);
      PacketKnown(t, contents[n], mtu);
      forall i | 0 <= i < |contents|
        ensures AllFit(t, contents[i])
      {
        if i < n { assert contents[..n][i] == contents[i]; }
      }
    }
  }

  lemma {:induction false} PacketKnown(t: Terms, recs: seq<Record>, mtu: nat)
    requires AllKnown(t, recs) && |S.RecordsBytes(recs)| <= mtu && Suits(t.p, mtu)
    ensures AllFit(t, recs)
  {
    hide Known, RecordFits, S.RecordsBytes, Suits;
    SuitsSize(t.p, mtu);
    forall j | 0 <= j < |recs|
      ensures recs[j].Fits()
    {
      KnownSmall(t, recs[j]);
    }
    forall j | 0 <= j < |recs|
      ensures RecordFits(t, recs[j])
    {
      RecordSize(recs, j);
      KnownSmall(t, recs[j]);
    }
  }

  lemma {:induction false} KnownSmall(t: Terms, rec: Record)
    requires Known(t, rec)
    ensures rec.Fits() && (|rec.body| <= MAX_ENCRYPTED_LENGTH ==> RecordFits(t, rec))
  {
    hide Laden, FromBigEndian;
  }

  /** A record is no longer than the packet it is in. */
  lemma {:induction false} RecordSize(recs: seq<Record>, j: nat)
    requires j < |recs| && forall k :: 0 <= k < |recs| ==> recs[k].Fits()
    ensures RT_HEADER_LENGTH + |recs[j].body| <= |S.RecordsBytes(recs)|
    decreases |recs|
  {
    hide RecordBytes;
    RecordLength(recs[|recs| - 1]);
    if j < |recs| - 1 { RecordSize(recs[..|recs| - 1], j); }
  }

  /** Packets that carry cuts of the flight fit. */
  lemma {:induction false} SentFits(t: Terms, mtu: nat, flight: seq<Entry>, from: Pos, packets: seq<seq<byte>>,
                                    contents: seq<seq<Record>>, cuts: seq<Cut>, to: Pos)
    requires S.Sent(t.p, t.p.recordVersion(t.w), flight, mtu, from, packets, contents, cuts, to) && t.w <= 1
    requires NumbersBelow(Flat(contents), t.w, t.next, t.last) && Suits(t.p, mtu)
    requires Keyed(flight, t.w) && InTurn(flight, t.sent) && Planned(flight, t.sent, t.due)
    requires forall i :: 0 <= i < |flight| ==> |flight[i].Body()| <= t.maxLen
    ensures NetFits(t, contents)
  {
    hide Suits, Keyed, InTurn, Planned, S.RecordsBytes, Leads, FromBigEndian, Flat, Carries, Proper, Plain;
    forall k | 0 <= k < |cuts|
      ensures Known(t, Flat(contents)[k])
    {
      assert S.ShortBody(flight[cuts[k].index], cuts[k], mtu);
      assert NumberBelow(Flat(contents)[k], t.w, t.next, t.last);
      EntryProper(t, mtu, flight, Flat(contents)[k], cuts[k]);
      assert Laden(t, Flat(contents)[k], Part(flight[cuts[k].index], cuts[k]));
    }
    KnownFits(t, contents, packets, mtu);
  }

  /** All that was on the network fits, with higher numbers, and so does what is put out. */
  lemma {:induction false} MoreFits(t: Terms, u: Terms, contents: seq<seq<Record>>, more: seq<seq<Record>>,
                                    left: seq<Record>)
    requires NetFits(t, contents) && AllFit(t, left) && Later(t, u) && NetFits(u, more)
    ensures NetFits(u, contents + more) && AllFit(u, left)
  {
    hide AllFit, Later;
    NetLater(t, u, contents);
    AllLater(t, u, left);
  }

  /** The numbers of the records may be higher. */
  lemma {:induction false} WaitingHigher(world: World, due: nat, next0: nat, last0: nat, next: nat, last: nat)
    requires next0 <= next && last0 <= last
    ensures Waiting(world, due, next0, last0) ==> Waiting(world, due, next, last)
  {
    hide Staged;
  }

  /** The flight is sent, from where it was left or once more from its start, as far as the transport takes it. */
  method SendOn(world: World, due: nat, again: bool, mtu: nat, accepts: nat, ghost used: nat)
    requires world.Valid() && Again(world, due, mtu)
    requires Waiting(world, due, world.sender.writer.Next(), world.sender.writer.Last())
    requires world.sender.writer.counted && used < NUMBERS
    requires Weight(Bodies(world.sender.flight)) + world.sender.writer.Next() + world.sender.writer.Last() <= used
    modifies world`network, world`contents, world.sender`complete, world.sender`written, world.sender`offset,
             world.sender.writer`emitted, world.sender.writer`counted, world.sender.writer.writeSequence,
             world.sender.writer.lastWriteSequence
    ensures world.Valid() && Again(world, due, mtu) && (old(world.sender.complete) || !again ==> world.sender.complete)
    ensures world.sender.writer.writeSequence.Length == world.sender.writer.lastWriteSequence.Length == 8
    ensures Waiting(world, due, world.sender.writer.Next(), world.sender.writer.Last())
    ensures world.sender.writer.counted && world.sender.writer.Next() + world.sender.writer.Last() <= used
  {
    hide World.Valid, Suits, Keyed, Protection.Sound, Weight, Consecutive, NumbersBelow, S.Sent,
         S.Connection.Sendable, InTurn, Planned, FromBigEndian, Waiting, NetFits, AllFit;
    WorldFacts(world);
    CanSend(world, mtu);
    ghost var next0, last0 := world.sender.writer.Next(), world.sender.writer.Last();
    ghost var t := TermsOf(world, due, next0, last0);
    ghost var more, cuts, from, to;
    var r;
    UseAtMost(Bodies(world.sender.flight), world.sender.Position(), next0 + last0);
    WaitingMeans(world, due, next0, last0);
    if again {
      from := Pos(0, 0);
      r, more, cuts, to := world.Retransmit(mtu, accepts);
    } else {
      from := world.sender.Position();
      r, more, cuts, to := world.Flush(mtu, accepts);
    }
    assert world.sender.writer.counted && !r.Broken?;
    WorldFacts(world);
    PutOutFits(world, due, mtu, t, old(world.contents), |old(world.network)|, from, more, cuts, to);
  }

  /** The network fits, with what was put out, and the receiver waits as before. */
  lemma {:induction false} PutOutFits(world: World, due: nat, mtu: nat, t: Terms, contents: seq<seq<Record>>, n: nat,
                                      from: Pos, more: seq<seq<Record>>, cuts: seq<Cut>, to: Pos)
    requires world.Valid() && Waiting(world, due, t.next, t.last) && NetFits(t, contents) && AllFit(t, world.left)
    requires t == TermsOf(world, due, t.next, t.last) && world.contents == contents + more && n <= |world.network|
    requires Suits(world.Keys(), mtu) && Keyed(world.sender.flight, t.w) && Planned(world.sender.flight, t.sent, due)
    requires Short(world) && S.Sent(t.p, t.p.recordVersion(t.w), world.sender.flight, mtu, from, world.network[n..],
                                    more, cuts, to)
    requires t.next <= world.sender.writer.Next() && t.last <= world.sender.writer.Last()
    requires NumbersBelow(Flat(more), t.w, world.sender.writer.Next(), world.sender.writer.Last())
    ensures world.sender.writer.writeSequence.Length == world.sender.writer.lastWriteSequence.Length == 8
    ensures NetworkFits(world, due)
    ensures Waiting(world, due, world.sender.writer.Next(), world.sender.writer.Last())
  {
    hide World.Valid, Suits, Keyed, NumbersBelow, S.Sent, InTurn, Planned, FromBigEndian, Waiting, NetFits, AllFit;
    WorldFacts(world);
    WaitingMeans(world, due, t.next, t.last);
    var u := TermsOf(world, due, world.sender.writer.Next(), world.sender.writer.Last());
    SentFits(u, mtu, world.sender.flight, from, world.network[n..], more, cuts, to);
    MoreFits(t, u, contents, more, world.left);
    WaitingHigher(world, due, t.next, t.last, u.next, u.last);
  }

  lemma {:induction false} UseAtMost(bodies: seq<seq<byte>>, p: Pos, used: nat)
    requires p.written <= |bodies|
    ensures S.UseOf(bodies, p, used) <= used + Weight(bodies)
  {
    hide Weight, Spent;
  }

  /** The receiver is behind everything before the flight. */
  ghost predicate Begun(world: World)
    reads world`delivered, world`sent, world.sender`flight, world.sender.writer`wEpoch, world.receiver.reader`rEpoch
  {
    var flight := world.sender.flight;
    && EpochAt(flight, world.sender.writer.wEpoch, 0) <= world.receiver.reader.rEpoch
    && |world.sent| - Handshakes(flight) <= |world.delivered|
  }

  /** The flight is sent once more, and all of it arrives in order. */
  method Recover(world: World, due: nat, mtu: nat, ghost used: nat)
    requires world.Valid() && Again(world, due, mtu) && Begun(world) && world.buffer == []
    requires Waiting(world, due, world.sender.writer.Next(), world.sender.writer.Last())
    requires world.sender.writer.counted && used < NUMBERS
    requires Weight(Bodies(world.sender.flight)) + world.sender.writer.Next() + world.sender.writer.Last() <= used
    requires Weight(Bodies(world.sender.flight)) <= |world.sender.flight| * 0x100_0000
    modifies world.Repr()
    ensures world.Valid() && fresh(world.Repr() - old(world.Repr())) && Again(world, due, mtu) && Done(world)
    ensures Waiting(world, due, world.sender.writer.Next(), world.sender.writer.Last())
    ensures world.sender.writer.counted && world.sender.writer.Next() + world.sender.writer.Last() <= used
    ensures world.sent == old(world.sent) && world.sender.writer.wEpoch == old(world.sender.writer.wEpoch)
    ensures world.sender.complete == old(world.sender.complete) && world.sender.flight == old(world.sender.flight)
  {
    hide World.Valid, Again, Along, Weight, FromBigEndian;
    WorldFacts(world);
    var n := |world.network|;
    ghost var next0, last0 := world.sender.writer.Next(), world.sender.writer.Last();
    ghost var cuts := SendWhole(world, due, mtu, used);
    WorldFacts(world);
    PassAllAgain(world, n, due, mtu, cuts, Pos(|world.sender.flight|, 0), next0, last0, world.sender.writer.Next(),
                 world.sender.writer.Last());
    WorldFacts(world);
  }

  /** The whole flight goes onto the network once more. */
  method SendWhole(world: World, due: nat, mtu: nat, ghost used: nat) returns (ghost cuts: seq<Cut>)
    requires world.Valid() && Again(world, due, mtu) && Begun(world)
    requires Waiting(world, due, world.sender.writer.Next(), world.sender.writer.Last())
    requires world.sender.writer.counted && used < NUMBERS
    requires Weight(Bodies(world.sender.flight)) + world.sender.writer.Next() + world.sender.writer.Last() <= used
    requires Weight(Bodies(world.sender.flight)) <= |world.sender.flight| * 0x100_0000
    modifies world`network, world`contents, world.sender`written, world.sender`offset, world.sender.writer`emitted,
             world.sender.writer`counted, world.sender.writer.writeSequence, world.sender.writer.lastWriteSequence
    ensures world.Valid() && Again(world, due, mtu)
    ensures |old(world.network)| <= |world.network| == |world.contents|
    ensures forall i :: |old(world.network)| <= i < |world.network| ==> |world.network[i]| <= mtu
    ensures world.sender.writer.counted && world.sender.writer.Next() + world.sender.writer.Last() <= used
    ensures Along(world, due, mtu, Flat(world.contents[|old(world.network)|..]), cuts, Pos(0, 0),
                  Pos(|world.sender.flight|, 0), old(world.sender.writer.Next()), old(world.sender.writer.Last()),
                  world.sender.writer.Next(), world.sender.writer.Last())
  {
    hide World.Valid, Suits, Keyed, Protection.Sound, Weight, Consecutive, NumbersBelow, S.Sent, InTurn, Planned,
         S.Connection.Sendable, FromBigEndian, Waiting, NetFits, AllFit, Ahead, Handshakes;
    WorldFacts(world);
    CanSend(world, mtu);
    ghost var next0, last0 := world.sender.writer.Next(), world.sender.writer.Last();
    ghost var n, flight, w := |world.network|, world.sender.flight, world.sender.writer.wEpoch;
    ghost var t := TermsOf(world, due, next0, last0);
    WaitingMeans(world, due, next0, last0);
    StartReached(world, due, next0, last0);
    ghost var more, to;
    var r;
    r, more, cuts, to := world.Retransmit(mtu, PLENTY);
    assert world.sender.writer.counted && r.Done?;
    WorldFacts(world);
    PutOutFits(world, due, mtu, t, old(world.contents), n, Pos(0, 0), more, cuts, to);
    AheadOfAll(world.Keys(), w, flight, mtu, world.network[n..], more, cuts, to, next0, last0,
               world.sender.writer.Next(), world.sender.writer.Last());
    NewestShort(world.network, n, mtu);
    assert world.contents[n..] == more;
  }

  lemma {:induction false} StartReached(world: World, due: nat, next: nat, last: nat)
    requires Waiting(world, due, next, last) && Begun(world)
    ensures Reached(world, due, Pos(0, 0), next, last)
  {
    hide Below, Held, EpochAt;
    assert world.sender.flight[..0] == [];
  }

  // ---- Whole conversations over a network that loses packets ----

  /** What may happen to a flight: it is sent on, or again, as far as the transport takes it; or behind the change of
      keys application data is sent; or any packet that was ever sent arrives. What does not arrive is lost. */
  datatype Mishap = Sending(again: bool, mtu: nat, accepts: nat) | Talking(text: seq<byte>) | Arriving(packet: nat)

  ghost predicate MtuSuits(p: Protection, m: Mishap)
  {
    && (m.Sending? ==> Suits(p, m.mtu))
    && (m.Talking? ==> |m.text| + p.maxOverhead(1) <= MAX_ENCRYPTED_LENGTH)
  }

  /** How many messages are said before the keys are changed. */
  function BeforeChange(commands: seq<Command>): (n: nat)
    ensures n <= |commands|
  {
    if commands == [] || commands[0].ChangeKeys? then 0 else 1 + BeforeChange(commands[1..])
  }

  /** How many messages are said in epoch 0, when the flight follows that many; changed: it starts in epoch 1. */
  function DueAfter(due: nat, changed: bool, commands: seq<Command>): nat
  {
    if changed then due else due + BeforeChange(commands)
  }

  lemma {:induction false} BeforeChangeMeans(commands: seq<Command>)
    ensures var b := BeforeChange(commands);
      && (forall i :: 0 <= i < b ==> commands[i].Say?) && (b < |commands| ==> commands[b].ChangeKeys?)
  {
    if commands != [] && commands[0].Say? { BeforeChangeMeans(commands[1..]); }
  }

  /** Epochs and messages along a flight that was made of commands. */
  lemma {:induction false} LaidAlong(flight: seq<Entry>, commands: seq<Command>, w: nat, i: nat)
    requires Keyed(flight, w) && |flight| == |commands| && i <= |flight| && EpochAt(flight, w, 0) == 0
    requires forall k :: 0 <= k < |flight| ==> (flight[k].Handshake? <==> commands[k].Say?)
    ensures var b := BeforeChange(commands);
      && (i <= b ==> EpochAt(flight, w, i) == 0 && Handshakes(flight[..i]) == i)
      && (i > b ==> EpochAt(flight, w, i) == 1 && Handshakes(flight[..i]) >= b)
    decreases i
  {
    hide Handshakes, EpochAt, Keyed, BeforeChange;
    if i == 0 {
      assert flight[..0] == [] && Handshakes([]) == 0 by { NothingSaid([]); }
    } else {
      BeforeChangeMeans(commands);
      LaidAlong(flight, commands, w, i - 1);
      NextEpoch(flight, w, i - 1);
      HandshakesUpto(flight, i - 1, i);
    }
  }

  lemma {:induction false} NextEpoch(flight: seq<Entry>, w: nat, i: nat)
    requires Keyed(flight, w) && i < |flight|
    ensures EpochAt(flight, w, i + 1) == if flight[i].Ccs? then 1 else EpochAt(flight, w, i)
  {
    KeyedNext(flight, w, i);
  }

  /** In a flight that starts in epoch 1 the keys are not changed. */
  lemma {:induction false} LaidLate(flight: seq<Entry>, w: nat, i: nat)
    requires Keyed(flight, w) && i <= |flight| && EpochAt(flight, w, 0) == 1
    ensures EpochAt(flight, w, i) == 1
  {
    if i > 0 {
      LaidLate(flight, w, i - 1);
      KeyedNext(flight, w, i - 1);
    }
  }

  /** A flight made of commands is as planned. */
  lemma {:induction false} PlannedFlight(flight: seq<Entry>, commands: seq<Command>, e0: nat, w: nat,
                                         sent: seq<Message>, due0: nat)
    requires Keyed(flight, w) && EpochAt(flight, w, 0) == e0 <= 1 && |flight| == |commands|
    requires forall k :: 0 <= k < |flight| ==> (flight[k].Handshake? <==> commands[k].Say?)
    requires Handshakes(flight) <= |sent|
    requires var base := |sent| - Handshakes(flight); if e0 == 0 then due0 == base else due0 <= base
    ensures Planned(flight, sent, DueAfter(due0, e0 == 1, commands))
    ensures var due := DueAfter(due0, e0 == 1, commands); due0 <= due <= |sent| && (w == 0 ==> due == |sent|)
  {
    hide Keyed, Handshakes;
    var due := DueAfter(due0, e0 == 1, commands);
    BeforeChangeMeans(commands);
    forall i | 0 <= i < |flight|
      ensures PlannedAt(flight, sent, due, i)
    {
      KeyedNext(flight, w, i);
      if e0 == 0 {
        LaidAlong(flight, commands, w, i);
      } else {
        LaidLate(flight, w, i);
      }
    }
    assert flight[..|flight|] == flight;
    if e0 == 0 {
      LaidAlong(flight, commands, w, |flight|);
    } else {
      LaidLate(flight, w, |flight|);
    }
  }

  /** There is nothing in the ring, and no flag, and the numbers of its epoch from next on are new. */
  ghost predicate Calm(world: World, next: nat)
    reads world`alive, world.receiver, world.receiver.reader, world.receiver.reader.bitmap
  {
    var receiver, reader := world.receiver, world.receiver.reader;
    && world.alive && !receiver.hasMessage && !receiver.hasCcs && (reader.nullCipher <==> reader.rEpoch == 0)
    && |receiver.ring.slots| == FLIGHT && (forall i :: 0 <= i < FLIGHT ==> receiver.ring.slots[i].None?)
    && Below(reader.bitmap.recorded, reader.rEpoch, next)
  }

  /** A receiver that is done has nothing in the ring. */
  lemma {:induction false} DoneCalm(world: World, due: nat, next: nat, last: nat)
    requires world.Valid() && Waiting(world, due, next, last) && Done(world)
    ensures Calm(world, next)
  {
    hide World.Valid, Staged, Below;
    WorldFacts(world);
    NothingBehind(world.receiver.ring, world.receiver.reader.rEpoch, world.sent);
  }

  lemma {:induction false} NothingBehind(r: Incoming, epoch: nat, sent: seq<Message>)
    requires InWindow(r, epoch) && Faithful(r, sent) && |sent| <= r.next
    ensures forall i :: 0 <= i < FLIGHT ==> r.slots[i].None?
  {
    hide Reassembly.Shows;
  }

  /** All that was said has been handed out, and at most the given numbers are used up. */
  ghost predicate Settled(world: World, due: nat, used: nat)
    requires world.Valid()
    reads world, world.receiver, world.Repr()
  {
    var sender := world.sender;
    && sender.writer.writeSequence.Length == sender.writer.lastWriteSequence.Length == 8
    && Waiting(world, due, sender.writer.Next(), sender.writer.Last()) && NetworkFits(world, due) && Done(world)
    && sender.writer.counted && sender.writer.Next() + sender.writer.Last() <= used
    && (sender.complete || (sender.flight == [] && sender.Position() == Pos(0, 0)))
  }

  /** The numbers that one sending of the flight can take, at most. */
  ghost function Toll(world: World): nat
    reads world.sender`flight
  {
    |world.sender.flight| * 0x100_0000
  }

  /** The flight is under way, and at most the given numbers are used up. */
  ghost predicate Underway(world: World, due: nat, mtu: nat, used: nat)
    requires world.Valid()
    reads world, world.receiver, world.Repr()
  {
    var writer := world.sender.writer;
    && writer.writeSequence.Length == writer.lastWriteSequence.Length == 8
    && Again(world, due, mtu) && Begun(world) && Waiting(world, due, writer.Next(), writer.Last())
    && world.sender.flight != [] && writer.counted && writer.Next() + writer.Last() <= used
    && Weight(Bodies(world.sender.flight)) <= Toll(world)
  }

  /** What was said, and the flight, are as they were. */
  twostate predicate SameFlight(world: World)
    reads world, world.sender, world.sender.writer
  {
    && world.sent == old(world.sent) && world.sender.writer.wEpoch == old(world.sender.writer.wEpoch)
    && world.sender.flight == old(world.sender.flight) && world.sender.complete
  }

  /** One thing that happens to the flight. */
  method Suffer(world: World, m: Mishap, due: nat, ghost mtu: nat, ghost used: nat)
    requires world.Valid() && Underway(world, due, mtu, used) && MtuSuits(world.Keys(), m)
    requires world.sender.complete || (m.Sending? && !m.again)
    requires used + Toll(world) < NUMBERS
    modifies world.Repr()
    ensures world.Valid() && fresh(world.Repr() - old(world.Repr())) && SameFlight(world)
    ensures Underway(world, due, mtu, used + Toll(world))
  {
    hide World.Valid, Underway, Suits, Toll;
    match m {
      case Sending(again, other, accepts) => SufferSending(world, again, other, accepts, due, mtu, used);
      case Talking(text) => SufferTalk(world, text, due, mtu, used);
      case Arriving(packet) => SufferPacket(world, packet, due, mtu, used);
    }
  }

  method SufferSending(world: World, again: bool, other: nat, accepts: nat, due: nat, ghost mtu: nat, ghost used: nat)
    requires world.Valid() && Underway(world, due, mtu, used) && Suits(world.Keys(), other)
    requires world.sender.complete || !again
    requires used + Toll(world) < NUMBERS
    modifies world.Repr()
    ensures world.Valid() && fresh(world.Repr() - old(world.Repr())) && SameFlight(world)
    ensures Underway(world, due, mtu, used + Toll(world))
  {
    hide World.Valid, NetworkFits, Suits, Keyed, Planned, Short, Waiting, Weight, FromBigEndian, Handshakes, EpochAt;
    WorldFacts(world);
    SendOn(world, due, again, other, accepts, used + Toll(world));
    WorldFacts(world);
  }

  method SufferTalk(world: World, text: seq<byte>, due: nat, ghost mtu: nat, ghost used: nat)
    requires world.Valid() && Underway(world, due, mtu, used) && world.sender.complete
    requires |text| + world.Keys().maxOverhead(1) <= MAX_ENCRYPTED_LENGTH && used + Toll(world) < NUMBERS
    modifies world.Repr()
    ensures world.Valid() && fresh(world.Repr() - old(world.Repr())) && SameFlight(world)
    ensures Underway(world, due, mtu, used + Toll(world))
  {
    hide World.Valid, NetworkFits, Suits, Keyed, Planned, Short, Waiting, Weight, FromBigEndian, Handshakes, EpochAt;
    WorldFacts(world);
    if world.sender.writer.wEpoch >= 1 {
      TalkOn(world, text, due, mtu, used + Toll(world));
      WorldFacts(world);
    }
  }

  /** Application data is sent. */
  method TalkOn(world: World, text: seq<byte>, due: nat, ghost mtu: nat, ghost used: nat)
    requires world.Valid() && Again(world, due, mtu) && world.sender.writer.wEpoch >= 1
    requires Waiting(world, due, world.sender.writer.Next(), world.sender.writer.Last())
    requires world.sender.writer.counted
    requires world.sender.writer.Next() + world.sender.writer.Last() + 1 <= used < NUMBERS
    requires |text| + world.Keys().maxOverhead(1) <= MAX_ENCRYPTED_LENGTH
    modifies world`network, world`contents, world.sender.writer`emitted, world.sender.writer`counted,
             world.sender.writer.writeSequence, world.sender.writer.lastWriteSequence
    ensures world.Valid() && Again(world, due, mtu)
    ensures world.sender.writer.writeSequence.Length == world.sender.writer.lastWriteSequence.Length == 8
    ensures Waiting(world, due, world.sender.writer.Next(), world.sender.writer.Last())
    ensures world.sender.writer.counted && world.sender.writer.Next() + world.sender.writer.Last() <= used
  {
    hide World.Valid, Suits, Keyed, Planned, Waiting, FromBigEndian, NetFits, AllFit, RecordBytes;
    WorldFacts(world);
    ghost var next0, last0 := world.sender.writer.Next(), world.sender.writer.Last();
    ghost var t := TermsOf(world, due, next0, last0);
    WaitingMeans(world, due, next0, last0);
    var ret;
    ghost var rec;
    ret, rec := world.WriteAppData(text);
    WorldFacts(world);
    ghost var u := TermsOf(world, due, world.sender.writer.Next(), world.sender.writer.Last());
    WaitingHigher(world, due, next0, last0, u.next, u.last);
    ghost var more := if ret > 0 then [[rec]] else [];
    if ret > 0 { TalkFits(u, mtu, rec, text); } else { NoneFits(u); }
    MoreFits(t, u, old(world.contents), more, world.left);
    assert world.contents == old(world.contents) + more;
  }

  lemma {:induction false} NoneFits(t: Terms)
    ensures NetFits(t, [])
  {}

  /** A record of application data fits. */
  lemma {:induction false} TalkFits(t: Terms, mtu: nat, rec: Record, text: seq<byte>)
    requires rec.Fits() && rec.typ == 23 && rec.Epoch() == t.w == 1 && rec.version == t.p.recordVersion(1)
    requires rec.body == t.p.seal(1, 23, rec.version, rec.sequence, text) && |text| <= 16384 && Suits(t.p, mtu)
    requires |text| + t.p.maxOverhead(1) <= MAX_ENCRYPTED_LENGTH && rec.Number() < NUMBERS + t.next
    ensures NetFits(t, [[rec]])
  {
    hide FromBigEndian;
    assert Laden(t, rec, Talk(text));
    assert RecordFits(t, rec);
  }

  method SufferPacket(world: World, packet: nat, due: nat, ghost mtu: nat, ghost used: nat)
    requires world.Valid() && Underway(world, due, mtu, used) && world.sender.complete
    modifies world.Repr()
    ensures world.Valid() && fresh(world.Repr() - old(world.Repr())) && SameFlight(world)
    ensures Underway(world, due, mtu, used + Toll(world))
  {
    hide World.Valid, NetworkFits, Suits, Keyed, Planned, Short, Waiting, Weight, FromBigEndian, Handshakes, EpochAt;
    WorldFacts(world);
    Bring(world, packet, due, mtu);
    WorldFacts(world);
    WorkOff(world, due);
    WorldFacts(world);
  }

  /** Whatever happens to the flight, the receiver can still be brought to its end. */
  method Endure(world: World, trouble: seq<Mishap>, due: nat, ghost mtu: nat, ghost used: nat)
    requires world.Valid() && Underway(world, due, mtu, used) && world.sender.complete
    requires forall i :: 0 <= i < |trouble| ==> MtuSuits(world.Keys(), trouble[i])
    requires used + Times(|trouble|, Toll(world)) < NUMBERS
    modifies world.Repr()
    ensures world.Valid() && fresh(world.Repr() - old(world.Repr())) && SameFlight(world)
    ensures Underway(world, due, mtu, used + Times(|trouble|, Toll(world)))
  {
    hide World.Valid, Underway, MtuSuits, Times;
    assert Times(0, Toll(world)) == 0 by { TimesNone(Toll(world)); }
    ghost var toll := Toll(world);
    var i := 0;
    while i < |trouble|
      invariant i <= |trouble| && world.Valid() && fresh(world.Repr() - old(world.Repr())) && SameFlight(world)
      invariant Underway(world, due, mtu, used + Times(i, toll))
    {
      TimesMore(i + 1, |trouble|, toll);
      TimesMore(i, |trouble|, toll);
      Suffer(world, trouble[i], due, mtu, used + Times(i, toll));
      i := i + 1;
    }
  }

  /** n times the toll. */
  function Times(n: nat, toll: nat): nat
  {
    if n == 0 then 0 else Times(n - 1, toll) + toll
  }

  lemma {:induction false} TimesNone(toll: nat)
    ensures Times(0, toll) == 0
  {}

  lemma {:induction false} TimesMore(i: nat, n: nat, toll: nat)
    requires i <= n
    ensures Times(i, toll) <= Times(n, toll) && Times(i + 1, toll) == Times(i, toll) + toll
    decreases n
  {
    if i < n { TimesMore(i, n - 1, toll); }
  }

  /** What is left of the last packet is taken, and the flight is sent again, unless the receiver is done. */
  method Finish(world: World, due: nat, mtu: nat, ghost used: nat)
    requires world.Valid() && Underway(world, due, mtu, used) && world.sender.complete
    requires used + Toll(world) < NUMBERS
    modifies world.Repr()
    ensures world.Valid() && fresh(world.Repr() - old(world.Repr())) && SameFlight(world)
    ensures Settled(world, due, used + Toll(world))
  {
    hide World.Valid, NetworkFits, Suits, Keyed, Planned, Short, Waiting, Weight, FromBigEndian, Handshakes, EpochAt;
    WorldFacts(world);
    WorkOff(world, due);
    WorldFacts(world);
    if !Done(world) {
      Recover(world, due, mtu, used + Toll(world));
      WorldFacts(world);
    }
  }

  /** What is asked of a flight: it has no more than FLIGHT items and changes the keys at most once, and behind the
      change at most one message is said. */
  ghost predicate Sayable(commands: seq<Command>, w: nat, sent: nat, due: nat, maxLen: nat)
  {
    && commands != [] && |commands| <= FLIGHT && Utterable(commands, maxLen) && sent + |Said(commands)| < SEQS
    && w + |commands| - |Said(commands)| <= 1
    && (w + |commands| - |Said(commands)| == 1 ==> sent + |Said(commands)| <= DueAfter(due, w == 1, commands) + 1)
  }

  /** A flight is added where all before it has been handed out. */
  method Begin(world: World, commands: seq<Command>, due: nat, ghost mtu: nat, ghost used: nat) returns (due1: nat)
    requires world.Valid() && Settled(world, due, used) && Suits(world.Keys(), mtu)
    requires Sayable(commands, world.sender.writer.wEpoch, |world.sent|, due, world.receiver.maxLen)
    modifies world`sent, world.sender, world.sender.outgoing, world.sender.writer, world.sender.writer.writeSequence,
             world.sender.writer.lastWriteSequence
    ensures world.Valid() && Underway(world, due1, mtu, used) && |world.sender.flight| == |commands|
    ensures due1 == DueAfter(due, old(world.sender.writer.wEpoch) == 1, commands)
    ensures world.sent == old(world.sent) + Said(commands)
    ensures world.sender.writer.wEpoch == old(world.sender.writer.wEpoch) + |commands| - |Said(commands)|
  {
    hide World.Valid, Suits, Said, Laid, Weight, Handshakes, Staged, Below, FromBigEndian, NetFits, AllFit;
    WorldFacts(world);
    ghost var e0, n0, l0 := world.sender.writer.wEpoch, world.sender.writer.Next(), world.sender.writer.Last();
    LaidNothing(e0, world.receiver.maxLen);
    DoneCalm(world, due, n0, l0);
    WaitingMeans(world, due, n0, l0);
    ghost var t, contents, left := TermsOf(world, due, n0, l0), world.contents, world.left;
    due1 := DueAfter(due, world.sender.writer.wEpoch == 1, commands);
    ghost var flight := AddFlight(world, commands, e0, n0, used);
    Begins(world, commands, flight, t, contents, left, used);
  }

  /** The flight that was added is under way. */
  lemma {:induction false} Begins(world: World, commands: seq<Command>, flight: seq<Entry>, t: Terms,
                                  contents: seq<seq<Record>>, left: seq<Record>, used: nat)
    requires world.Valid() && Adding(world, flight, t.w, t.next, used) && flight != []
    requires Sayable(commands, t.w, |t.sent|, t.due, t.maxLen) && |flight| == |commands|
    requires forall i :: 0 <= i < |flight| ==> (flight[i].Handshake? <==> commands[i].Say?)
    requires NetFits(t, contents) && AllFit(t, left) && contents == world.contents && left == world.left
    requires t.p == world.Keys() && t.maxLen == world.receiver.maxLen && world.sent == t.sent + Said(commands)
    requires Handshakes(flight) == |Said(commands)| && world.sender.writer.wEpoch == t.w + |commands| - |Said(commands)|
    requires t.w == t.epoch == world.receiver.reader.rEpoch && world.delivered == t.sent && Calm(world, t.next)
    requires if t.w == 0 then t.due == |t.sent| else t.due <= |t.sent|
    ensures var due := DueAfter(t.due, t.w == 1, commands);
      && world.sender.writer.writeSequence.Length == world.sender.writer.lastWriteSequence.Length == 8
      && Waiting(world, due, world.sender.writer.Next(), world.sender.writer.Last())
      && NetworkFits(world, due) && Begun(world) && Planned(world.sender.flight, world.sent, due)
      && Keyed(world.sender.flight, world.sender.writer.wEpoch) && Short(world) && world.sender.flight != []
      && Weight(Bodies(world.sender.flight)) <= Toll(world)
  {
    hide World.Valid, Said, Laid, Weight, Handshakes, Staged, Below, FromBigEndian, NetFits, AllFit, Keyed, EpochAt,
         Utterable, Planned, BeforeChange;
    WorldFacts(world);
    var w, due := world.sender.writer.wEpoch, DueAfter(t.due, t.w == 1, commands);
    LaidStart(flight, t.w, w, world.receiver.maxLen);
    PlaceInTurn(flight, world.sent, 0);
    PlannedFlight(flight, commands, t.w, w, world.sent, t.due);
    EmptyStaged(world.receiver.ring, t.w, due);
    FitsStill(t, TermsOf(world, due, world.sender.writer.Next(), world.sender.writer.Last()), contents, left, left);
  }

  /** The flight is sent, whatever happens to it happens, and at last it is sent again and arrives in order. */
  method GoThrough(world: World, trouble: seq<Mishap>, mtu: nat, accepts: nat, due: nat, ghost used: nat)
    requires world.Valid() && Underway(world, due, mtu, used) && Suits(world.Keys(), mtu)
    requires forall i :: 0 <= i < |trouble| ==> MtuSuits(world.Keys(), trouble[i])
    requires used + Times(|trouble| + 2, Toll(world)) < NUMBERS
    modifies world.Repr()
    ensures world.Valid() && fresh(world.Repr() - old(world.Repr())) && SameFlight(world)
    ensures Settled(world, due, used + Times(|trouble| + 2, Toll(world)))
  {
    hide World.Valid, Underway, Settled, MtuSuits, Suits, Times, Toll;
    ghost var toll := Toll(world);
    assert MtuSuits(world.Keys(), Sending(false, mtu, accepts)) by { FirstSuits(world.Keys(), mtu, accepts); }
    TimesMore(|trouble|, |trouble|, toll);
    TimesMore(|trouble| + 1, |trouble| + 1, toll);
    Suffer(world, Sending(false, mtu, accepts), due, mtu, used);
    Endure(world, trouble, due, mtu, used + toll);
    Finish(world, due, mtu, used + toll + Times(|trouble|, toll));
  }

  lemma {:induction false} FirstSuits(p: Protection, mtu: nat, accepts: nat)
    requires Suits(p, mtu)
    ensures MtuSuits(p, Sending(false, mtu, accepts))
  {}

  /** One flight, from where all before it has been handed out to where all of it has been. */
  method PassThrough(world: World, commands: seq<Command>, trouble: seq<Mishap>, mtu: nat, accepts: nat, due: nat,
                     ghost used: nat)
    returns (due1: nat)
    requires world.Valid() && Settled(world, due, used) && Suits(world.Keys(), mtu)
    requires forall i :: 0 <= i < |trouble| ==> MtuSuits(world.Keys(), trouble[i])
    requires Sayable(commands, world.sender.writer.wEpoch, |world.sent|, due, world.receiver.maxLen)
    requires used + Times(|trouble| + 2, |commands| * 0x100_0000) < NUMBERS
    modifies world.Repr()
    ensures world.Valid() && fresh(world.Repr() - old(world.Repr()))
    ensures Settled(world, due1, used + Times(|trouble| + 2, |commands| * 0x100_0000))
    ensures due1 == DueAfter(due, old(world.sender.writer.wEpoch) == 1, commands)
    ensures world.sent == old(world.sent) + Said(commands)
    ensures world.sender.writer.wEpoch == old(world.sender.writer.wEpoch) + |commands| - |Said(commands)|
  {
    hide World.Valid, Underway, Settled, MtuSuits, Sayable, Suits, Said, Times;
    WorldFacts(world);
    due1 := Begin(world, commands, due, mtu, used);
    WorldFacts(world);
    GoThrough(world, trouble, mtu, accepts, due1, used);
  }

  /** What a flight goes through: the packets that its first sending comes to, and then any mishaps. */
  datatype Trouble = Trouble(mtu: nat, accepts: nat, mishaps: seq<Mishap>)

  /** How often items are sent, at most. */
  function Toil(flights: seq<seq<Command>>, troubles: seq<Trouble>): nat
    requires |troubles| == |flights|
  {
    if flights == [] then 0
    else
      var n := |flights| - 1;
      Toil(flights[..n], troubles[..n]) + Times(|troubles[n].mishaps| + 2, |flights[n]|)
  }

  /** How many messages are said in epoch 0. */
  function Due(flights: seq<seq<Command>>): nat
  {
    if flights == [] then 0
    else
      var n := |flights| - 1;
      DueAfter(Due(flights[..n]), AllChanges(flights[..n]) == 1, flights[n])
  }

  ghost predicate TroubleSuits(p: Protection, trouble: Trouble)
  {
    Suits(p, trouble.mtu) && forall i :: 0 <= i < |trouble.mishaps| ==> MtuSuits(p, trouble.mishaps[i])
  }

  lemma {:induction false} TimesScaled(n: nat, a: nat)
    ensures Times(n, a * 0x100_0000) == Times(n, a) * 0x100_0000
  {
    if n > 0 { TimesScaled(n - 1, a); }
  }

  lemma {:induction false} ToilUpto(flights: seq<seq<Command>>, troubles: seq<Trouble>, k: nat)
    requires |troubles| == |flights| && k < |flights|
    ensures Toil(flights[..k + 1], troubles[..k + 1]) ==
            Toil(flights[..k], troubles[..k]) + Times(|troubles[k].mishaps| + 2, |flights[k]|)
    ensures Toil(flights[..k + 1], troubles[..k + 1]) <= Toil(flights, troubles)
    decreases |flights|
  {
    hide Times;
    var n := |flights| - 1;
    if k < n {
      ToilUpto(flights[..n], troubles[..n], k);
      assert flights[..n][..k] == flights[..k] && flights[..n][..k + 1] == flights[..k + 1];
      assert troubles[..n][..k] == troubles[..k] && troubles[..n][..k + 1] == troubles[..k + 1];
    } else {
      assert flights[..k + 1] == flights && troubles[..k + 1] == troubles;
    }
  }

  /** Behind the change of keys nothing more is said in epoch 0. */
  lemma {:induction false} DueUpto(flights: seq<seq<Command>>, k: nat)
    requires k < |flights| && AllChanges(flights) <= 1
    ensures Due(flights[..k + 1]) == DueAfter(Due(flights[..k]), AllChanges(flights[..k]) == 1, flights[k])
    ensures AllChanges(flights[..k + 1]) == 1 ==> Due(flights[..k + 1]) == Due(flights)
    decreases |flights|
  {
    hide Said, BeforeChange;
    var n := |flights| - 1;
    AllUpto(flights, k);
    if k < n {
      AllUpto(flights, n - 1);
      DueUpto(flights[..n], k);
      assert flights[..n][..k] == flights[..k] && flights[..n][..k + 1] == flights[..k + 1];
      AllUpto(flights[..n], k);
    } else {
      assert flights[..k + 1] == flights;
    }
  }

  /** The next flight is one that may be said. */
  lemma {:induction false} NextSayable(flights: seq<seq<Command>>, k: nat, maxLen: nat)
    requires k < |flights| && 0 < |flights[k]| <= FLIGHT && Utterable(flights[k], maxLen)
    requires |AllSaid(flights)| < SEQS && AllChanges(flights) <= 1
    requires AllChanges(flights) == 1 ==> |AllSaid(flights)| <= Due(flights) + 1
    ensures Sayable(flights[k], AllChanges(flights[..k]), |AllSaid(flights[..k])|, Due(flights[..k]), maxLen)
  {
    hide Said, AllSaid, AllChanges, Due, DueAfter, Utterable;
    AllUpto(flights, k);
    DueUpto(flights, k);
  }

  /** Of two messages behind the change of keys, what comes again of the first would be an error once that is handed
      out. */
  lemma {:induction false} RepeatRefused(r: Incoming, maxLen: nat, f: Fragment, sent: seq<Message>)
    requires InWindow(r, 1) && Faithful(r, sent) && Genuine(f, sent) && f.seqNo < r.next
    ensures !Place(r, 1, maxLen, f).ok
  {
    hide Place, InWindow, Faithful, Genuine;
    GenuineRejected(r, 1, maxLen, f, sent);
  }

  /** However packets are lost, repeated, reordered and cut short, and however often the transport blocks: if every
      flight is at last sent again and that arrives in order, then whatever is said in flights of at most FLIGHT items,
      fewer than 2^16 messages in all, with one change of keys and at most one message behind it, is handed out, all of
      it and nothing else. */
  method Persist(p: Protection, maxLen: nat, flights: seq<seq<Command>>, troubles: seq<Trouble>)
    returns (delivered: seq<Message>)
    requires p.Sound() && |AllSaid(flights)| < SEQS && AllChanges(flights) <= 1 && |troubles| == |flights|
    requires AllChanges(flights) == 1 ==> |AllSaid(flights)| <= Due(flights) + 1
    requires forall i :: 0 <= i < |flights| ==> 0 < |flights[i]| <= FLIGHT && Utterable(flights[i], maxLen)
    requires forall i :: 0 <= i < |flights| ==> TroubleSuits(p, troubles[i])
    requires Toil(flights, troubles) < 0x100_0000
    ensures delivered == AllSaid(flights)
  {
    hide World.Valid, Settled, Suits, MtuSuits, Sayable, Said, AllSaid, AllChanges, Toil, Due, Times, Utterable,
         Protection.Sound;
    NothingYet(flights);
    NoToil(flights, troubles);
    var world := new World(p, maxLen);
    WorldFacts(world);
    SettledAtFirst(world);
    var due, k := 0, 0;
    while k < |flights|
      invariant k <= |flights| && world.Valid() && fresh(world.Repr()) && world.Keys() == p
      invariant world.receiver.maxLen == maxLen
      invariant Settled(world, due, Toil(flights[..k], troubles[..k]) * 0x100_0000) && due == Due(flights[..k])
      invariant world.sent == AllSaid(flights[..k]) && world.sender.writer.wEpoch == AllChanges(flights[..k])
    {
      AllUpto(flights, k);
      DueUpto(flights, k);
      ToilUpto(flights, troubles, k);
      NextSayable(flights, k, maxLen);
      TimesScaled(|troubles[k].mishaps| + 2, |flights[k]|);
      due := PassThrough(world, flights[k], troubles[k].mishaps, troubles[k].mtu, troubles[k].accepts, due,
                         Toil(flights[..k], troubles[..k]) * 0x100_0000);
      k := k + 1;
    }
    assert flights[..k] == flights;
    SettledMeans(world, due, Toil(flights[..k], troubles[..k]) * 0x100_0000);
    return world.delivered;
  }

  lemma {:induction false} NoToil(flights: seq<seq<Command>>, troubles: seq<Trouble>)
    requires |flights| == |troubles|
    ensures Toil(flights[..0], troubles[..0]) == 0 && Due(flights[..0]) == 0
  {}

  lemma {:induction false} SettledMeans(world: World, due: nat, used: nat)
    requires world.Valid() && Settled(world, due, used)
    ensures world.delivered == world.sent
  {
    hide World.Valid, Waiting, NetworkFits;
    WorldFacts(world);
  }

  /** Nothing has been said yet. */
  lemma {:induction false} SettledAtFirst(world: World)
    requires world.Valid() && world.sent == world.delivered == [] && world.buffer == [] && world.alive
    requires world.network == [] && world.sender.flight == [] && world.sender.Position() == Pos(0, 0)
    requires world.sender.writer.wEpoch == 0 && world.sender.writer.counted
    requires world.sender.writer.Counters(0, 0) && !world.receiver.hasMessage && !world.receiver.hasCcs
    requires world.receiver.ring == Incoming(0, seq(FLIGHT, _ => None)) && world.receiver.reader.bitmap.recorded == {}
    requires SameReader(world.receiver, 0, true)
    ensures Settled(world, 0, 0)
  {
    hide World.Valid, S.RecordsBytes, FromBigEndian;
    WorldFacts(world);
    NoBytes(world.left);
    NoneRecorded(0, 0);
  }
}
