/** The ring of incoming handshake messages, as values: what a fragment does to it, and what that preserves. */
module Ring {
  import opened Bytes
  import opened DtlsWire
  import opened Reassembly

  /** SSL_MAX_HANDSHAKE_FLIGHT */
  const FLIGHT: nat := 7
  const SEQS: nat := 0x1_0000

  datatype Message = Message(typ: byte, body: seq<byte>)

  /** The messages from number `next` on, each in the slot of its number modulo FLIGHT. */
  datatype Incoming = Incoming(next: nat, slots: seq<Option<Partial>>)

  /** ok is false for an error, which ends the connection. */
  datatype Received = Received(ok: bool, ring: Incoming)

  function Blank(f: Fragment, epoch: nat): Partial
  {
    Partial(f.typ, f.seqNo, {epoch}, seq(f.msgLen, _ => 0), {})
  }

  /** The loop body of dtls1_open_handshake, with dtls1_get_incoming_message. */
  function Place(r: Incoming, epoch: nat, maxLen: nat, f: Fragment): (s: Received)
    requires |r.slots| == FLIGHT
    ensures |s.ring.slots| == FLIGHT && s.ring.next == r.next
  {
    if f.off > f.msgLen || f.off + |f.body| > f.msgLen || f.msgLen > maxLen then Received(false, r)
    else if epoch == 1 && f.seqNo != r.next then Received(false, r)
    else if f.seqNo < r.next || f.seqNo > r.next + FLIGHT then Received(true, r)
    else if f.seqNo - r.next >= FLIGHT then Received(false, r)
    else
      var i := f.seqNo % FLIGHT;
      var p := if r.slots[i].Some? then r.slots[i].value else Blank(f, epoch);
      if p.typ != f.typ || |p.bytes| != f.msgLen then Received(false, r)
      else Received(true, r.(slots := r.slots[i := Some(if p.Complete() then p else Take(p, f.off, f.body, epoch))]))
  }

  /** The loop of dtls1_open_handshake over the fragments of a record. */
  function PlaceAll(r: Incoming, epoch: nat, maxLen: nat, payload: seq<byte>): (s: Received)
    requires |r.slots| == FLIGHT
    ensures |s.ring.slots| == FLIGHT && s.ring.next == r.next
    decreases |payload|
  {
    if payload == [] then Received(true, r)
    else match ParseFragment(payload)
      case Fail => Received(false, r)
      case Ok(f, rest) =>
        var s := Place(r, epoch, maxLen, f);
        if !s.ok then s else PlaceAll(s.ring, epoch, maxLen, rest)
  }

  /** Of all fragments exactly these are errors: those that do not lie within their message, those of messages that
      are too long, in epoch 1 all but those of the next message, those 7 ahead of it, and those that disagree with
      the fragments before them about the type or the length of their message. */
  lemma {:induction false} Refused(r: Incoming, epoch: nat, maxLen: nat, f: Fragment)
    requires |r.slots| == FLIGHT
    ensures |r.slots| == 7
    ensures !Place(r, epoch, maxLen, f).ok <==>
            || f.off + |f.body| > f.msgLen || f.msgLen > maxLen || (epoch == 1 && f.seqNo != r.next)
            || f.seqNo == r.next + 7
            || (&& r.next <= f.seqNo < r.next + 7 && r.slots[f.seqNo % 7].Some?
                && (r.slots[f.seqNo % 7].value.typ != f.typ || |r.slots[f.seqNo % 7].value.bytes| != f.msgLen))
  {}

  /** Byte j of a message, of which p has come in, after fragment f has come in too; nothing moves once all is in. */
  function After(p: Option<Partial>, f: Fragment, j: nat): byte
    requires p.Some? ==> j < |p.value.bytes|
  {
    if p.Some? && p.value.Complete() then p.value.bytes[j]
    else if f.off <= j < f.off + |f.body| then f.body[j - f.off]
    else if p.Some? then p.value.bytes[j]
    else 0
  }

  /** An accepted fragment of one of the 7 messages from the next on puts its bytes into the slot of its message, and
      touches no other; the others are ignored. */
  lemma {:induction false} Placed(r: Incoming, epoch: nat, maxLen: nat, f: Fragment)
    requires |r.slots| == FLIGHT && Place(r, epoch, maxLen, f).ok
    ensures !(r.next <= f.seqNo < r.next + 7) ==> Place(r, epoch, maxLen, f).ring == r
    ensures forall i: nat :: i < 7 && i != f.seqNo % 7 ==> Place(r, epoch, maxLen, f).ring.slots[i] == r.slots[i]
    ensures r.next <= f.seqNo < r.next + 7 ==>
              var was, now := r.slots[f.seqNo % 7], Place(r, epoch, maxLen, f).ring.slots[f.seqNo % 7];
              && now.Some? && now.value.typ == f.typ && |now.value.bytes| == f.msgLen
              && now.value.seqNo == (if was.Some? then was.value.seqNo else f.seqNo)
              && (forall j: nat :: j < f.msgLen ==> now.value.bytes[j] == After(was, f, j))
              && (forall j: nat :: j < f.msgLen && !(was.Some? && was.value.Complete()) ==>
                    (j in now.value.covered <==>
                       f.off <= j < f.off + |f.body| || (was.Some? && j in was.value.covered)))
  {
    var was, i := r.slots[f.seqNo % 7], f.seqNo % FLIGHT;
    if r.next <= f.seqNo < r.next + 7 {
      var p := if was.Some? then was.value else Blank(f, epoch);
      var q := if p.Complete() then p else Take(p, f.off, f.body, epoch);
      assert Place(r, epoch, maxLen, f).ring.slots[i] == Some(q);
      forall j: nat | j < f.msgLen
        ensures q.bytes[j] == After(was, f, j)
      {
        assert j in p.covered ==> was.Some?;
      }
    }
  }

  // ---- What every step keeps ----

  /** Every occupied slot holds a message of its own number, in the window that starts at next, from records of
      one epoch only; what is not complete has come in records of the current epoch. */
  ghost predicate InWindow(r: Incoming, epoch: nat)
  {
    && |r.slots| == FLIGHT && r.next < SEQS
    && forall i :: 0 <= i < FLIGHT && r.slots[i].Some? ==> SlotOk(r, epoch, i, r.slots[i].value)
  }

  ghost predicate SlotOk(r: Incoming, epoch: nat, i: nat, p: Partial)
  {
    && p.seqNo % FLIGHT == i && r.next <= p.seqNo < r.next + FLIGHT && p.seqNo < SEQS
    && |p.epochs| == 1 && (!p.Complete() ==> p.epochs == {epoch})
  }

  lemma {:induction false} PlaceInWindow(r: Incoming, epoch: nat, maxLen: nat, f: Fragment)
    requires InWindow(r, epoch) && f.Fits()
    ensures InWindow(Place(r, epoch, maxLen, f).ring, epoch)
  {
    hide Take;
    var s := Place(r, epoch, maxLen, f);
    if s.ring != r {
      var i := f.seqNo % FLIGHT;
      if r.slots[i].Some? {
        SameNumber(r.slots[i].value.seqNo, f.seqNo, r.next);
      }
      TakeKeeps(if r.slots[i].Some? then r.slots[i].value else Blank(f, epoch), f.off, f.body, epoch);
    }
  }

  lemma {:induction false} TakeKeeps(p: Partial, off: nat, body: seq<byte>, epoch: nat)
    requires off + |body| <= |p.bytes|
    ensures var q := Take(p, off, body, epoch);
      q.typ == p.typ && q.seqNo == p.seqNo && q.epochs == p.epochs + {epoch} && p.covered <= q.covered &&
          (p.Complete() ==> q.Complete())
  {}

  /** Two numbers in one window that share a slot are the same: the assertion in dtls1_get_incoming_message. */
  lemma {:induction false} SameNumber(a: nat, b: nat, next: nat)
    requires a % FLIGHT == b % FLIGHT && next <= a < next + FLIGHT && next <= b < next + FLIGHT
    ensures a == b
  {}

  lemma {:induction false} SlotNumber(r: Incoming, epoch: nat, f: Fragment)
    requires InWindow(r, epoch) && r.next <= f.seqNo < r.next + FLIGHT && r.slots[f.seqNo % FLIGHT].Some?
    ensures r.slots[f.seqNo % FLIGHT].value.seqNo == f.seqNo
  {
    SameNumber(r.slots[f.seqNo % FLIGHT].value.seqNo, f.seqNo, r.next);
  }

  /** A message once complete is not changed by any fragment. */
  lemma {:induction false} Frozen(r: Incoming, epoch: nat, maxLen: nat, payload: seq<byte>, i: nat)
    requires |r.slots| == FLIGHT && i < FLIGHT && r.slots[i].Some? && r.slots[i].value.Complete()
    ensures PlaceAll(r, epoch, maxLen, payload).ring.slots[i] == r.slots[i]
    decreases |payload|
  {
    hide ParseFragment, Take;
    if payload != [] && ParseFragment(payload).Ok? {
      var s := Place(r, epoch, maxLen, ParseFragment(payload).value);
      if s.ok {
        Frozen(s.ring, epoch, maxLen, ParseFragment(payload).rest, i);
      }
    }
  }

  // ---- Fragments of the messages that the peer sent ----

  /** f is a fragment of one of the messages sent. */
  ghost predicate Genuine(f: Fragment, sent: seq<Message>)
  {
    && f.seqNo < |sent| && f.typ == sent[f.seqNo].typ && f.msgLen == |sent[f.seqNo].body|
    && f.off + |f.body| <= f.msgLen && f.body == sent[f.seqNo].body[f.off..f.off + |f.body|]
  }

  /** What has arrived is what was sent. */
  ghost predicate Faithful(r: Incoming, sent: seq<Message>)
  {
    forall i :: 0 <= i < |r.slots| && r.slots[i].Some? ==> FaithfulSlot(r.slots[i].value, sent)
  }

  ghost predicate FaithfulSlot(p: Partial, sent: seq<Message>)
  {
    p.seqNo < |sent| && p.typ == sent[p.seqNo].typ && Shows(p, sent[p.seqNo].body)
  }

  lemma {:induction false} PlaceFaithful(r: Incoming, epoch: nat, maxLen: nat, f: Fragment, sent: seq<Message>)
    requires InWindow(r, epoch) && Faithful(r, sent) && Genuine(f, sent)
    ensures Faithful(Place(r, epoch, maxLen, f).ring, sent)
  {
    hide Take, Shows;
    var s := Place(r, epoch, maxLen, f);
    if s.ring != r {
      var i := f.seqNo % FLIGHT;
      var p := if r.slots[i].Some? then r.slots[i].value else Blank(f, epoch);
      if r.slots[i].Some? {
        SameNumber(p.seqNo, f.seqNo, r.next);
      } else {
        BlankShows(f, epoch, sent[f.seqNo].body);
      }
      TakeKeeps(p, f.off, f.body, epoch);
      TakeShows(p, f.off, f.body, epoch, sent[f.seqNo].body);
    }
  }

  lemma {:induction false} BlankShows(f: Fragment, epoch: nat, body: seq<byte>)
    requires f.msgLen == |body|
    ensures Shows(Blank(f, epoch), body)
  {}

  function FragmentsBytes(fs: seq<Fragment>): seq<byte>
  {
    if fs == [] then [] else FragmentBytes(fs[0]) + FragmentsBytes(fs[1..])
  }

  /** However the fragments were put into records, records of genuine fragments keep the ring faithful. */
  lemma {:induction false} PlaceAllFaithful(r: Incoming, epoch: nat, maxLen: nat, fs: seq<Fragment>, sent: seq<Message>)
    requires |r.slots| == FLIGHT && InWindow(r, epoch) && Faithful(r, sent)
    requires forall i :: 0 <= i < |fs| ==> Genuine(fs[i], sent) && fs[i].Fits()
    ensures Faithful(PlaceAll(r, epoch, maxLen, FragmentsBytes(fs)).ring, sent)
    decreases |fs|
  {
    hide Place, InWindow, ParseFragment, Genuine, Faithful, FragmentBytes;
    if fs != [] {
      FragmentRoundTrip(fs[0], FragmentsBytes(fs[1..]));
      PlaceInWindow(r, epoch, maxLen, fs[0]);
      PlaceFaithful(r, epoch, maxLen, fs[0], sent);
      var s := Place(r, epoch, maxLen, fs[0]);
      if s.ok {
        PlaceAllFaithful(s.ring, epoch, maxLen, fs[1..], sent);
      }
    }
  }

  /** A complete message is the one that was sent. */
  lemma {:induction false} CompleteIsSent(p: Partial, sent: seq<Message>)
    requires FaithfulSlot(p, sent) && p.Complete()
    ensures p.bytes == sent[p.seqNo].body
  {}

  /** Of genuine fragments exactly these are errors: those of messages that are too long, in epoch 1 all but
      those of the next message, and those FLIGHT ahead of it. The last are not ignored, although those further
      ahead are. */
  lemma {:induction false} GenuineRejected(r: Incoming, epoch: nat, maxLen: nat, f: Fragment, sent: seq<Message>)
    requires InWindow(r, epoch) && Faithful(r, sent) && Genuine(f, sent)
    ensures !Place(r, epoch, maxLen, f).ok <==>
            f.msgLen > maxLen || (epoch == 1 && f.seqNo != r.next) || f.seqNo == r.next + FLIGHT
  {
    var i := f.seqNo % FLIGHT;
    if r.next <= f.seqNo < r.next + FLIGHT && r.slots[i].Some? {
      SameNumber(r.slots[i].value.seqNo, f.seqNo, r.next);
    }
  }

  // ---- Nothing that was received is lost ----

  function PlaceMany(r: Incoming, epoch: nat, maxLen: nat, fs: seq<Fragment>): (s: Received)
    requires |r.slots| == FLIGHT
    ensures |s.ring.slots| == FLIGHT && s.ring.next == r.next
  {
    if fs == [] then Received(true, r)
    else
      var s := PlaceMany(r, epoch, maxLen, fs[..|fs| - 1]);
      if !s.ok then s else Place(s.ring, epoch, maxLen, fs[|fs| - 1])
  }

  lemma {:induction false} PlaceManyFirst(r: Incoming, epoch: nat, maxLen: nat, fs: seq<Fragment>)
    requires |r.slots| == FLIGHT && fs != []
    ensures var s := Place(r, epoch, maxLen, fs[0]);
      PlaceMany(r, epoch, maxLen, fs) == if s.ok then PlaceMany(s.ring, epoch, maxLen, fs[1..]) else s
    decreases |fs|
  {
    hide Place;
    var before := fs[..|fs| - 1];
    if before != [] {
      PlaceManyFirst(r, epoch, maxLen, before);
      assert fs[1..][..|fs[1..]| - 1] == before[1..];
    }
  }

  /** A record of fragments does what they do one after the other, up to the first error; and bytes behind them that
      are no fragment are an error. */
  lemma {:induction false} PlaceAllInTurn(r: Incoming, epoch: nat, maxLen: nat, fs: seq<Fragment>, rest: seq<byte>)
    requires |r.slots| == FLIGHT && forall k :: 0 <= k < |fs| ==> fs[k].Fits()
    requires rest == [] || ParseFragment(rest).Fail?
    ensures var s := PlaceMany(r, epoch, maxLen, fs);
      PlaceAll(r, epoch, maxLen, FragmentsBytes(fs) + rest) == Received(s.ok && rest == [], s.ring)
    decreases |fs|
  {
    hide Place, ParseFragment, FragmentBytes;
    if fs == [] {
      assert [] + rest == rest;
    } else {
      var s, more := Place(r, epoch, maxLen, fs[0]), FragmentsBytes(fs[1..]) + rest;
      FragmentRoundTrip(fs[0], more);
      assert FragmentsBytes(fs) + rest == FragmentBytes(fs[0]) + more;
      PlaceManyFirst(r, epoch, maxLen, fs);
      if s.ok {
        PlaceAllInTurn(s.ring, epoch, maxLen, fs[1..], rest);
      } else {
        assert !PlaceMany(r, epoch, maxLen, fs).ok;
      }
    }
  }

  /** Some fragment of message n holds its byte j. */
  ghost predicate Arrived(fs: seq<Fragment>, n: nat, j: nat)
  {
    exists k :: 0 <= k < |fs| && fs[k].seqNo == n && fs[k].off <= j < fs[k].off + |fs[k].body|
  }

  /** Byte j of message n is in its slot. */
  predicate Held(r: Incoming, n: nat, j: nat)
    requires |r.slots| == FLIGHT
  {
    r.slots[n % FLIGHT].Some? && (r.slots[n % FLIGHT].value.Complete() || j in r.slots[n % FLIGHT].value.covered)
  }

  /** In whatever order genuine fragments of the messages in the window arrive, every byte is kept. */
  lemma {:induction false} Kept(r: Incoming, epoch: nat, maxLen: nat, fs: seq<Fragment>, sent: seq<Message>, n: nat,
                                j: nat)
    requires |r.slots| == FLIGHT && InWindow(r, epoch) && Faithful(r, sent) && r.next <= n < r.next + FLIGHT
    requires n < |sent|
    requires forall k :: 0 <= k < |fs| ==> Genuine(fs[k], sent) && fs[k].Fits()
    requires PlaceMany(r, epoch, maxLen, fs).ok && Arrived(fs, n, j)
    ensures Held(PlaceMany(r, epoch, maxLen, fs).ring, n, j)
    ensures InWindow(PlaceMany(r, epoch, maxLen, fs).ring, epoch)
    ensures Faithful(PlaceMany(r, epoch, maxLen, fs).ring, sent)
    decreases |fs|
  {
    hide Place, InWindow, Genuine, Faithful, Held;
    var last, before := fs[|fs| - 1], fs[..|fs| - 1];
    PlaceManyKeeps(r, epoch, maxLen, before, sent);
    var r1 := PlaceMany(r, epoch, maxLen, before).ring;
    PlaceInWindow(r1, epoch, maxLen, last);
    PlaceFaithful(r1, epoch, maxLen, last, sent);
    if last.seqNo == n && last.off <= j < last.off + |last.body| {
      PlaceHolds(r1, epoch, maxLen, last, j);
    } else {
      var k :| 0 <= k < |fs| && fs[k].seqNo == n && fs[k].off <= j < fs[k].off + |fs[k].body|;
      assert before[k] == fs[k];
      Kept(r, epoch, maxLen, before, sent, n, j);
      HeldStays(r1, epoch, maxLen, last, n, j);
    }
  }

  /** Once every byte of a message has arrived, in any order and with any overlap, it is complete and as it was sent. */
  lemma {:induction false} AllArrived(r: Incoming, epoch: nat, maxLen: nat, fs: seq<Fragment>, sent: seq<Message>,
                                      n: nat)
    requires |r.slots| == FLIGHT && InWindow(r, epoch) && Faithful(r, sent) && r.next <= n < r.next + FLIGHT
    requires n < |sent|
    requires forall k :: 0 <= k < |fs| ==> Genuine(fs[k], sent) && fs[k].Fits()
    requires PlaceMany(r, epoch, maxLen, fs).ok && sent[n].body != []
    requires forall j: nat :: j < |sent[n].body| ==> Arrived(fs, n, j)
    ensures var slot := PlaceMany(r, epoch, maxLen, fs).ring.slots[n % FLIGHT];
      slot.Some? && slot.value.Complete() && Message(slot.value.typ, slot.value.bytes) == sent[n]
  {
    hide Place, PlaceMany, Genuine, Arrived;
    Kept(r, epoch, maxLen, fs, sent, n, 0);
    var r1 := PlaceMany(r, epoch, maxLen, fs).ring;
    var p := r1.slots[n % FLIGHT].value;
    SameNumber(p.seqNo, n, r.next);
    forall j: nat | j < |sent[n].body|
      ensures Held(r1, n, j)
    {
      Kept(r, epoch, maxLen, fs, sent, n, j);
    }
    AllHeld(r1, sent, n);
  }

  lemma {:induction false} AllHeld(r: Incoming, sent: seq<Message>, n: nat)
    requires |r.slots| == FLIGHT && n < |sent| && r.slots[n % FLIGHT].Some?
    requires FaithfulSlot(r.slots[n % FLIGHT].value, sent) && r.slots[n % FLIGHT].value.seqNo == n
    requires forall j: nat :: j < |sent[n].body| ==> Held(r, n, j)
    ensures r.slots[n % FLIGHT].value.Complete() && r.slots[n % FLIGHT].value.bytes == sent[n].body
  {
    var p := r.slots[n % FLIGHT].value;
    forall j: nat | j < |p.bytes|
      ensures p.Complete() || j in p.covered
    {
      assert Held(r, n, j);
    }
  }

  lemma {:induction false} PlaceManyKeeps(r: Incoming, epoch: nat, maxLen: nat, fs: seq<Fragment>, sent: seq<Message>)
    requires |r.slots| == FLIGHT && InWindow(r, epoch) && Faithful(r, sent)
    requires forall k :: 0 <= k < |fs| ==> Genuine(fs[k], sent) && fs[k].Fits()
    ensures InWindow(PlaceMany(r, epoch, maxLen, fs).ring, epoch)
    ensures Faithful(PlaceMany(r, epoch, maxLen, fs).ring, sent)
    decreases |fs|
  {
    hide Place, InWindow, Genuine, Faithful;
    if fs != [] {
      var last, before := fs[|fs| - 1], fs[..|fs| - 1];
      PlaceManyKeeps(r, epoch, maxLen, before, sent);
      var r1 := PlaceMany(r, epoch, maxLen, before).ring;
      PlaceInWindow(r1, epoch, maxLen, last);
      PlaceFaithful(r1, epoch, maxLen, last, sent);
    }
  }

  lemma {:induction false} PlaceHolds(r: Incoming, epoch: nat, maxLen: nat, f: Fragment, j: nat)
    requires |r.slots| == FLIGHT && r.next <= f.seqNo && f.off <= j < f.off + |f.body|
    requires f.seqNo < r.next + FLIGHT && Place(r, epoch, maxLen, f).ok
    ensures Held(Place(r, epoch, maxLen, f).ring, f.seqNo, j)
  {}

  lemma {:induction false} HeldStays(r: Incoming, epoch: nat, maxLen: nat, f: Fragment, n: nat, j: nat)
    requires |r.slots| == FLIGHT && Held(r, n, j)
    ensures Held(Place(r, epoch, maxLen, f).ring, n, j)
  {
    hide Take;
    var i := f.seqNo % FLIGHT;
    if r.slots[i].Some? && f.off + |f.body| <= |r.slots[i].value.bytes| {
      TakeKeeps(r.slots[i].value, f.off, f.body, epoch);
    }
  }
}
