/** A flight of outgoing messages, and records that carry it (d1_both.cc; sections 4.2.2 and 4.2.3 of RFC 6347). */
module Flight {
  import opened Bytes
  import opened DtlsWire
  import opened DtlsRecord
  import opened Ring
  import opened Cutting

  /** A handshake message, with its place among all that were ever added, or ChangeCipherSpec; and the epoch it was
      added in. */
  datatype Entry = Handshake(epoch: nat, place: nat, message: Message) | Ccs(epoch: nat)
  {
    /** What there is to cut. */
    function Body(): seq<byte> {
      if Handshake? then message.body else []
    }

    predicate Fits() {
      |Body()| < 0x100_0000
    }
  }

  function Bodies(flight: seq<Entry>): (r: seq<seq<byte>>)
    ensures |r| == |flight| && forall i :: 0 <= i < |r| ==> r[i] == flight[i].Body()
  {
    seq(|flight|, i requires 0 <= i < |flight| => flight[i].Body())
  }

  /** A message in one piece, as it is kept for sending. */
  function WholeFragment(m: Message, number: nat): Fragment
  {
    Fragment(m.typ, |m.body|, number, 0, m.body)
  }

  // ---- Numbering of the messages ----

  /** How many handshake messages there are. */
  function Handshakes(flight: seq<Entry>): (n: nat)
    ensures n <= |flight|
  {
    if flight == [] then 0
    else Handshakes(flight[..|flight| - 1]) + if flight[|flight| - 1].Handshake? then 1 else 0
  }

  /** The handshake messages of the flight are the last ones that were added, in order. */
  ghost predicate InTurn(flight: seq<Entry>, added: seq<Message>)
    decreases |flight|
  {
    if flight == [] then true
    else
      var e, before := flight[|flight| - 1], flight[..|flight| - 1];
      && e.Fits()
      && if e.Ccs? then InTurn(before, added)
         else && added != [] && e.place == |added| - 1 && e.message == added[|added| - 1]
              && InTurn(before, added[..|added| - 1])
  }

  /** Where a message of the flight is among all messages. */
  lemma {:induction false} PlaceInTurn(flight: seq<Entry>, added: seq<Message>, i: nat)
    requires InTurn(flight, added) && i < |flight|
    ensures flight[i].Fits() && Handshakes(flight) <= |added|
    ensures flight[i].Handshake? ==>
              && flight[i].place == |added| - Handshakes(flight) + Handshakes(flight[..i])
              && flight[i].place < |added| && flight[i].message == added[flight[i].place]
    decreases |flight|
  {
    var n := |flight| - 1;
    var rest := if flight[n].Ccs? then added else added[..|added| - 1];
    if i < n {
      PlaceInTurn(flight[..n], rest, i);
      assert flight[..n][..i] == flight[..i];
    } else if n > 0 {
      PlaceInTurn(flight[..n], rest, 0);
    }
  }

  lemma {:induction false} HandshakesUpto(flight: seq<Entry>, i: nat, j: nat)
    requires i < j <= |flight|
    ensures Handshakes(flight[..i]) + (if flight[i].Handshake? then 1 else 0) <= Handshakes(flight[..j])
    ensures j == i + 1 ==> Handshakes(flight[..j]) == Handshakes(flight[..i]) + if flight[i].Handshake? then 1 else 0
    decreases j
  {
    assert flight[..j][..j - 1] == flight[..j - 1];
    if i < j - 1 {
      HandshakesUpto(flight, i, j - 1);
    }
  }

  /** No two messages of a flight have the same 16-bit number. */
  lemma {:induction false} NumbersDiffer(flight: seq<Entry>, added: seq<Message>, i: nat, j: nat)
    requires InTurn(flight, added) && |flight| <= FLIGHT && i < |flight| && j < |flight|
    requires flight[i].Handshake? && flight[j].Handshake?
    ensures flight[i].place % SEQS == flight[j].place % SEQS <==> i == j
  {
    hide InTurn, Handshakes;
    PlaceInTurn(flight, added, i);
    PlaceInTurn(flight, added, j);
    if i < j {
      PlacesGrow(flight, i, j);
      CloseNumbers(flight[i].place, flight[j].place);
    } else if j < i {
      PlacesGrow(flight, j, i);
      CloseNumbers(flight[j].place, flight[i].place);
    }
  }

  lemma {:induction false} PlacesGrow(flight: seq<Entry>, i: nat, j: nat)
    requires i < j < |flight| && flight[i].Handshake?
    ensures Handshakes(flight[..i]) < Handshakes(flight[..j]) < Handshakes(flight[..i]) + |flight|
  {
    HandshakesUpto(flight, i, j);
  }

  lemma {:induction false} CloseNumbers(a: nat, b: nat)
    requires a < b < a + FLIGHT
    ensures a % SEQS != b % SEQS
  {}

  // ---- Records that carry cuts ----

  /** The fragment of a message that a cut is. */
  function Share(e: Entry, c: Cut): Fragment
    requires e.Handshake? && c.off + c.len <= |e.message.body|
  {
    var m := e.message;
    Fragment(m.typ, |m.body|, e.place % SEQS, c.off, m.body[c.off..c.off + c.len])
  }

  /** What is sealed for a cut: its share of the message, or the byte of ChangeCipherSpec. */
  function Plain(e: Entry, c: Cut): seq<byte>
    requires c.off + c.len <= |e.Body()|
  {
    if e.Handshake? then FragmentBytes(Share(e, c)) else [MT_CCS]
  }

  /** The record carries the cut of the entry, in its epoch. */
  ghost predicate Carries(p: Protection, version: nat, rec: Record, e: Entry, c: Cut)
  {
    && rec.Fits() && rec.Epoch() == e.epoch && rec.version == version && c.off + c.len <= |e.Body()|
    && rec.typ == (if e.Handshake? then RT_HANDSHAKE else RT_CHANGE_CIPHER_SPEC)
    && rec.body == p.seal(rec.Epoch(), rec.typ, rec.version, rec.sequence, Plain(e, c))
  }

  /** The records carry the cuts of the flight, one each. */
  ghost predicate CarryAll(p: Protection, version: nat, recs: seq<Record>, flight: seq<Entry>, cuts: seq<Cut>)
  {
    && |recs| == |cuts|
    && forall k :: 0 <= k < |cuts| ==>
                     cuts[k].index < |flight| && Carries(p, version, recs[k], flight[cuts[k].index], cuts[k])
  }

  lemma {:induction false} CarryMore(p: Protection, version: nat, recs: seq<Record>, flight: seq<Entry>, cuts: seq<Cut>,
                                     rec: Record, c: Cut)
    requires CarryAll(p, version, recs, flight, cuts) && c.index < |flight|
    requires Carries(p, version, rec, flight[c.index], c)
    ensures CarryAll(p, version, recs + [rec], flight, cuts + [c])
  {
    hide Carries;
  }

  lemma {:induction false} CarryConcat(p: Protection, version: nat, recs: seq<Record>, flight: seq<Entry>,
                                       cuts: seq<Cut>, more: seq<Record>, moreCuts: seq<Cut>)
    requires CarryAll(p, version, recs, flight, cuts) && CarryAll(p, version, more, flight, moreCuts)
    ensures CarryAll(p, version, recs + more, flight, cuts + moreCuts)
  {
    hide Carries;
  }

  function Flat(contents: seq<seq<Record>>): seq<Record>
  {
    if contents == [] then [] else Flat(contents[..|contents| - 1]) + contents[|contents| - 1]
  }

  lemma {:induction false} FlatMore(contents: seq<seq<Record>>, recs: seq<Record>)
    ensures Flat(contents + [recs]) == Flat(contents) + recs
  {
    assert (contents + [recs])[..|contents|] == contents;
  }

  lemma {:induction false} FlatConcat(a: seq<seq<Record>>, b: seq<seq<Record>>)
    ensures Flat(a + b) == Flat(a) + Flat(b)
    decreases |b|
  {
    hide Flat;
    if b == [] {
      FlatNothing();
      assert a + b == a && Flat(a) + [] == Flat(a);
    } else {
      var n := |b| - 1;
      FlatConcat(a, b[..n]);
      FlatMore(b[..n], b[n]);
      FlatMore(a + b[..n], b[n]);
      assert b[..n] + [b[n]] == b && (a + b[..n]) + [b[n]] == a + b;
      assert Flat(a) + (Flat(b[..n]) + b[n]) == (Flat(a) + Flat(b[..n])) + b[n];
    }
  }

  // ---- What opens out of the records ----

  /** The fragment in a record. */
  ghost function Opens(p: Protection, rec: Record): Option<Fragment>
  {
    if !rec.Fits() || rec.typ != RT_HANDSHAKE then None
    else match p.open(rec.Epoch(), rec.typ, rec.version, rec.sequence, rec.body)
      case None => None
      case Some(text) =>
        match ParseFragment(text)
        case Fail => None
        case Ok(f, rest) => if rest == [] then Some(f) else None
  }

  lemma {:induction false} CarriedOpens(p: Protection, version: nat, rec: Record, e: Entry, c: Cut)
    requires p.Sound() && Carries(p, version, rec, e, c) && e.Fits()
    ensures Opens(p, rec) == if e.Handshake? then Some(Share(e, c)) else None
  {
    hide FragmentBytes, ParseFragment;
    if e.Handshake? {
      FragmentRoundTrip(Share(e, c), []);
      assert FragmentBytes(Share(e, c)) + [] == FragmentBytes(Share(e, c));
    }
  }

  /** The bodies of the fragments of message `number` that open out of the records, in order. */
  ghost function Gathered(p: Protection, recs: seq<Record>, number: nat): seq<byte>
  {
    if recs == [] then []
    else
      var f := Opens(p, recs[|recs| - 1]);
      Gathered(p, recs[..|recs| - 1], number) + if f.Some? && f.value.seqNo == number then f.value.body else []
  }

  /** How many ChangeCipherSpecs there are. */
  function CcsRecords(recs: seq<Record>): nat
  {
    if recs == [] then 0
    else CcsRecords(recs[..|recs| - 1]) + if recs[|recs| - 1].typ == RT_CHANGE_CIPHER_SPEC then 1 else 0
  }

  /** What opens out of records that carry cuts is what was cut. */
  lemma {:induction false} GatheredIsCollected(p: Protection, version: nat, recs: seq<Record>, flight: seq<Entry>,
                                               added: seq<Message>, cuts: seq<Cut>, i: nat)
    requires p.Sound() && CarryAll(p, version, recs, flight, cuts) && InTurn(flight, added) && |flight| <= FLIGHT
    requires i < |flight| && flight[i].Handshake?
    ensures Gathered(p, recs, flight[i].place % SEQS) == Collected(Bodies(flight), cuts, i)
    decreases |cuts|
  {
    hide Carries, Opens, InTurn;
    if cuts != [] {
      var n := |cuts| - 1;
      var c, e := cuts[n], flight[cuts[n].index];
      GatheredIsCollected(p, version, recs[..n], flight, added, cuts[..n], i);
      PlaceInTurn(flight, added, c.index);
      CarriedOpens(p, version, recs[n], e, c);
      CutFits(p, version, recs[n], e, c);
      if e.Handshake? {
        NumbersDiffer(flight, added, i, c.index);
      }
    }
  }

  lemma {:induction false} CutFits(p: Protection, version: nat, rec: Record, e: Entry, c: Cut)
    requires Carries(p, version, rec, e, c)
    ensures c.off + c.len <= |e.Body()| && (rec.typ == RT_CHANGE_CIPHER_SPEC <==> e.Ccs?)
    ensures rec.Fits() && rec.Epoch() == e.epoch
  {}

  /** Each ChangeCipherSpec up to a position is carried by one record. */
  lemma {:induction false} CcsCarried(p: Protection, version: nat, recs: seq<Record>, flight: seq<Entry>,
                                      cuts: seq<Cut>, to: Pos)
    requires CarryAll(p, version, recs, flight, cuts) && Leads(Bodies(flight), Pos(0, 0), cuts, to)
    ensures to.written <= |flight| && CcsRecords(recs) == to.written - Handshakes(flight[..to.written])
    decreases |cuts|
  {
    hide Carries;
    if cuts != [] {
      var n := |cuts| - 1;
      var c := cuts[n];
      CcsCarried(p, version, recs[..n], flight, cuts[..n], Pos(c.index, c.off));
      CutFits(p, version, recs[n], flight[c.index], c);
      HandshakesUpto(flight, c.index, c.index + 1);
    }
  }

  /** Records that carry cuts which lead from the start of the flight to a position hold, of every message, exactly
      what is before that position, in order; and as many ChangeCipherSpecs as are before it. */
  lemma {:induction false} FlightCarried(p: Protection, version: nat, recs: seq<Record>, flight: seq<Entry>,
                                         added: seq<Message>, cuts: seq<Cut>, to: Pos)
    requires p.Sound() && CarryAll(p, version, recs, flight, cuts) && InTurn(flight, added) && |flight| <= FLIGHT
    requires Leads(Bodies(flight), Pos(0, 0), cuts, to)
    ensures Holds(p, recs, flight, to)
  {
    hide CarryAll, Gathered, Collected, Leads, InTurn, Part;
    CcsCarried(p, version, recs, flight, cuts, to);
    forall i | 0 <= i < |flight| && flight[i].Handshake?
      ensures Gathered(p, recs, flight[i].place % SEQS) == Part(Bodies(flight), to, i)
    {
      GatheredIsCollected(p, version, recs, flight, added, cuts, i);
      CutsPartition(Bodies(flight), cuts, to, i);
    }
  }

  /** The records hold what is before the position. */
  ghost predicate Holds(p: Protection, recs: seq<Record>, flight: seq<Entry>, to: Pos)
  {
    && to.written <= |flight| && CcsRecords(recs) == to.written - Handshakes(flight[..to.written])
    && forall i :: 0 <= i < |flight| && flight[i].Handshake? ==>
                     Gathered(p, recs, flight[i].place % SEQS) == Part(Bodies(flight), to, i)
  }

  /** At the end of the flight that is every message with all its bytes, and every ChangeCipherSpec. */
  lemma {:induction false} WholeFlight(p: Protection, recs: seq<Record>, flight: seq<Entry>, to: Pos)
    requires Holds(p, recs, flight, to) && to.written == |flight|
    ensures forall i :: 0 <= i < |flight| && flight[i].Handshake? ==>
                          Gathered(p, recs, flight[i].place % SEQS) == flight[i].message.body
    ensures CcsRecords(recs) == |flight| - Handshakes(flight)
  {
    assert flight[..|flight|] == flight;
  }

  // ---- Numbering of the records ----

  /** The records take the numbers of their epochs, the current one w and the one before, one after the other. */
  ghost predicate Consecutive(recs: seq<Record>, w: nat, next0: nat, last0: nat, next: nat, last: nat)
    decreases |recs|
  {
    if recs == [] then next == next0 && last == last0
    else
      var rec, before := recs[|recs| - 1], recs[..|recs| - 1];
      && rec.Fits()
      && if rec.Epoch() == w then
           next > 0 && rec.Number() == w * NUMBERS + (next - 1) && Consecutive(before, w, next0, last0, next - 1, last)
         else
           && rec.Epoch() + 1 == w && last > 0 && rec.Number() == rec.Epoch() * NUMBERS + (last - 1)
           && Consecutive(before, w, next0, last0, next, last - 1)
  }

  lemma {:induction false} ConsecutiveMore(recs: seq<Record>, w: nat, next0: nat, last0: nat, next: nat, last: nat,
                                           rec: Record)
    requires Consecutive(recs, w, next0, last0, next, last) && rec.Fits()
    requires rec.Epoch() == w || rec.Epoch() + 1 == w
    requires rec.Number() == rec.Epoch() * NUMBERS + if rec.Epoch() == w then next else last
    ensures if rec.Epoch() == w then Consecutive(recs + [rec], w, next0, last0, next + 1, last)
            else Consecutive(recs + [rec], w, next0, last0, next, last + 1)
  {
    assert (recs + [rec])[..|recs|] == recs;
  }

  lemma {:induction false} ConsecutiveConcat(a: seq<Record>, b: seq<Record>, w: nat, next0: nat, last0: nat,
                                             next1: nat, last1: nat, next: nat, last: nat)
    requires Consecutive(a, w, next0, last0, next1, last1) && Consecutive(b, w, next1, last1, next, last)
    ensures Consecutive(a + b, w, next0, last0, next, last)
    decreases |b|
  {
    hide FromBigEndian;
    if b == [] {
      assert a + b == a;
    } else {
      var n := |b| - 1;
      assert (a + b)[..|a + b| - 1] == a + b[..n];
      if b[n].Epoch() == w {
        ConsecutiveConcat(a, b[..n], w, next0, last0, next1, last1, next - 1, last);
      } else {
        ConsecutiveConcat(a, b[..n], w, next0, last0, next1, last1, next, last - 1);
      }
    }
  }

  /** The first record has the next number of its epoch. */
  lemma {:induction false} ConsecutiveFront(recs: seq<Record>, w: nat, next0: nat, last0: nat, next: nat, last: nat)
    requires Consecutive(recs, w, next0, last0, next, last) && recs != []
    ensures var rec := recs[0];
      && rec.Fits() && (rec.Epoch() == w || rec.Epoch() + 1 == w)
      && rec.Number() == rec.Epoch() * NUMBERS + (if rec.Epoch() == w then next0 else last0)
      && if rec.Epoch() == w then Consecutive(recs[1..], w, next0 + 1, last0, next, last)
         else Consecutive(recs[1..], w, next0, last0 + 1, next, last)
    decreases |recs|
  {
    hide FromBigEndian;
    var n := |recs| - 1;
    if n == 0 {
      assert recs[..n] == [] && recs[1..] == [];
    } else {
      assert recs[..n][1..] == recs[1..][..n - 1];
      if recs[n].Epoch() == w {
        ConsecutiveFront(recs[..n], w, next0, last0, next - 1, last);
      } else {
        ConsecutiveFront(recs[..n], w, next0, last0, next, last - 1);
      }
    }
  }

  /** The record has a number of its epoch below the next one. */
  ghost predicate NumberBelow(rec: Record, w: nat, next: nat, last: nat)
  {
    && rec.Fits() && (rec.Epoch() == w || rec.Epoch() + 1 == w)
    && rec.Number() < rec.Epoch() * NUMBERS + if rec.Epoch() == w then next else last
  }

  ghost predicate NumbersBelow(recs: seq<Record>, w: nat, next: nat, last: nat)
  {
    forall k :: 0 <= k < |recs| ==> NumberBelow(recs[k], w, next, last)
  }

  lemma {:induction false} ConsecutiveBelow(recs: seq<Record>, w: nat, next0: nat, last0: nat, next: nat, last: nat)
    requires Consecutive(recs, w, next0, last0, next, last)
    ensures next0 <= next && last0 <= last && NumbersBelow(recs, w, next, last)
    decreases |recs|
  {
    hide FromBigEndian;
    if recs != [] {
      var n := |recs| - 1;
      if recs[n].Epoch() == w {
        ConsecutiveBelow(recs[..n], w, next0, last0, next - 1, last);
        BelowMore(recs[..n], w, next - 1, last, next, last);
      } else {
        ConsecutiveBelow(recs[..n], w, next0, last0, next, last - 1);
        BelowMore(recs[..n], w, next, last - 1, next, last);
      }
      assert forall k :: 0 <= k < n ==> recs[k] == recs[..n][k];
    }
  }

  lemma {:induction false} BelowMore(recs: seq<Record>, w: nat, next0: nat, last0: nat, next: nat, last: nat)
    requires NumbersBelow(recs, w, next0, last0) && next0 <= next && last0 <= last
    ensures NumbersBelow(recs, w, next, last)
  {
    hide FromBigEndian;
    forall k | 0 <= k < |recs|
      ensures NumberBelow(recs[k], w, next, last)
    {
      assert NumberBelow(recs[k], w, next0, last0);
    }
  }

  lemma {:induction false} FlatFront(contents: seq<seq<Record>>)
    requires contents != []
    ensures Flat(contents) == contents[0] + Flat(contents[1..])
    decreases |contents|
  {
    hide Flat;
    var n := |contents| - 1;
    FlatMore(contents[..n], contents[n]);
    assert contents[..n] + [contents[n]] == contents;
    if n == 0 {
      FlatNothing();
      assert contents[..0] == [] && contents[1..] == [] && [] + contents[0] == contents[0] + [];
    } else {
      FlatFront(contents[..n]);
      FlatMore(contents[1..n], contents[n]);
      assert contents[..n][1..] == contents[1..n] && contents[1..n] + [contents[n]] == contents[1..];
    }
  }

  lemma {:induction false} FlatNothing()
    ensures Flat([]) == []
  {}
}
