/** Partial and retried writes of application data over TLS (s3_pkt.cc, ssl_buffer.cc). */
module AppWrite {
  import opened Bytes

  const RT_APPLICATION_DATA: byte := 23
  const MAX_PLAIN_LENGTH: nat := 16384

  /** The transport takes some bytes at a time, as `takes` has it, and then none: a write that takes none blocks. */
  class Transport {
    var takes: seq<nat>
    var wire: seq<byte>

    constructor (pattern: seq<nat>)
      ensures takes == pattern && wire == []
    {
      takes, wire := pattern, [];
    }

    /** BIO_write */
    method Write(data: seq<byte>) returns (ret: int)
      requires data != []
      modifies this
      ensures ret <= |data|
      ensures wire == old(wire) + if ret > 0 then data[..ret] else []
      ensures |takes| <= |old(takes)| && (ret <= 0 ==> |takes| < |old(takes)| || takes == [])
    {
      if takes == [] {
        return -1;
      }
      var k := if takes[0] <= |data| then takes[0] else |data|;
      takes := takes[1..];
      wire := wire + data[..k];
      return if k == 0 then -1 else k;
    }
  }

  function Flatten(parts: seq<seq<byte>>): seq<byte>
  {
    if parts == [] then [] else Flatten(parts[..|parts| - 1]) + parts[|parts| - 1]
  }

  lemma {:induction false} FlattenSnoc(parts: seq<seq<byte>>, part: seq<byte>)
    ensures Flatten(parts + [part]) == Flatten(parts) + part
  {
    assert (parts + [part])[..|parts|] == parts;
  }

  /** The records of the plaintexts, one behind the other. */
  function Records(seal: (nat, seq<byte>) -> Option<seq<byte>>, texts: seq<seq<byte>>): seq<byte>
  {
    if texts == [] then []
    else
      var n := |texts| - 1;
      Records(seal, texts[..n]) + (match seal(n, texts[n]) case None => [] case Some(rec) => rec)
  }

  lemma {:induction false} RecordsSnoc(seal: (nat, seq<byte>) -> Option<seq<byte>>, texts: seq<seq<byte>>,
                                       text: seq<byte>)
    requires seal(|texts|, text).Some?
    ensures Records(seal, texts + [text]) == Records(seal, texts) + seal(|texts|, text).value
  {
    assert (texts + [text])[..|texts|] == texts;
  }

  /** The next record, where the write buffer is empty. */
  lemma {:induction false} NextRecord(wire: seq<byte>, buffer: seq<byte>, wire0: seq<byte>,
                                      seal: (nat, seq<byte>) -> Option<seq<byte>>, texts: seq<seq<byte>>,
                                      text: seq<byte>)
    requires wire + buffer == wire0 + Records(seal, texts) && buffer == [] && seal(|texts|, text).Some?
    ensures wire + seal(|texts|, text).value == wire0 + Records(seal, texts + [text])
  {
    hide Records;
    RecordsSnoc(seal, texts, text);
    assert wire + buffer == wire;
  }

  class Connection {
    const bio: Transport
    /** tls_seal_record: the record for a plaintext, given the number of records sealed so far; it may fail. */
    const seal: (nat, seq<byte>) -> Option<seq<byte>>
    const maxSendFragment: nat
    /** SSL_MODE_ENABLE_PARTIAL_WRITE, SSL_MODE_ACCEPT_MOVING_WRITE_BUFFER */
    const partialWrite: bool
    const movingBuffer: bool
    /** Bytes of the caller's data that earlier calls have finished with. */
    var wnum: nat
    var wpendPending: bool
    var wpendTot: nat
    var wpendBuf: nat
    var wpendType: byte
    var wpendRet: nat
    var writeBuffer: seq<byte>
    /** Records sealed: the write sequence number. */
    var writeSequence: nat
    /** The plaintexts sealed, in order, and what was on the wire before. */
    ghost var texts: seq<seq<byte>>
    ghost const wire0: seq<byte>

    /** What went out and what is still in the write buffer are the sealed records, each once and in order. */
    ghost predicate Valid()
      reads this, bio
    {
      && 0 < maxSendFragment <= MAX_PLAIN_LENGTH
      && bio.wire + writeBuffer == wire0 + Records(seal, texts)
      && writeSequence == |texts|
      && (wpendPending ==> wpendRet == wpendTot > 0)
    }

    /** Bytes of the caller's data that have been sealed. */
    function Position(): nat
      reads this
    {
      wnum + Pending()
    }

    /** Bytes in the record that is pending. */
    function Pending(): nat
      reads this
    {
      if wpendPending then wpendRet else 0
    }

    constructor (transport: Transport, sealer: (nat, seq<byte>) -> Option<seq<byte>>, fragment: nat, partial: bool,
                 moving: bool)
      requires 0 < fragment <= MAX_PLAIN_LENGTH
      ensures Valid() && bio == transport && Position() == 0 && texts == [] && partialWrite == partial && !wpendPending
      ensures maxSendFragment == fragment && seal == sealer && movingBuffer == moving
    {
      bio, seal, maxSendFragment, partialWrite, movingBuffer := transport, sealer, fragment, partial, moving;
      wnum, wpendPending, wpendTot, wpendBuf, wpendType, wpendRet := 0, false, 0, 0, 0, 0;
      writeBuffer, writeSequence, texts, wire0 := [], 0, [], transport.wire;
    }

    /** tls_write_buffer_flush: writes everything, or keeps the rest. */
    method FlushBuffer() returns (ret: int)
      requires Valid()
      modifies this`writeBuffer, bio
      ensures Valid() && (ret > 0 <==> writeBuffer == []) && |bio.takes| <= |old(bio.takes)|
      ensures ret <= 0 ==> |bio.takes| < |old(bio.takes)| || bio.takes == []
    {
      while writeBuffer != []
        invariant Valid() && |bio.takes| <= |old(bio.takes)|
        decreases |writeBuffer|
      {
        ret := bio.Write(writeBuffer);
        if ret <= 0 {
          return;
        }
        ghost var buffer := writeBuffer;
        writeBuffer := writeBuffer[ret..];
        assert buffer == buffer[..ret] + buffer[ret..];
      }
      return 1;
    }

    /** ssl3_write_pending */
    method WritePending(typ: byte, at: nat, len: nat) returns (ret: int)
      requires Valid() && wpendPending
      modifies this`writeBuffer, this`wpendPending, bio
      ensures Valid() && |bio.takes| <= |old(bio.takes)|
      ensures ret > 0 ==> ret == wpendRet && !wpendPending && writeBuffer == []
      ensures ret <= 0 ==> wpendPending
      ensures Retryable(typ, at, len) && ret <= 0 ==> |bio.takes| < |old(bio.takes)| || bio.takes == []
      ensures !Retryable(typ, at, len) ==> ret <= 0
    {
      if wpendTot > len || (!movingBuffer && wpendBuf != at) || wpendType != typ {
        return -1;
      }
      ret := FlushBuffer();
      if ret <= 0 {
        return;
      }
      wpendPending := false;
      return wpendRet;
    }

    /** The arguments are those of the write that is pending. */
    ghost predicate Retryable(typ: byte, at: nat, len: nat)
      reads this`wpendTot, this`wpendBuf, this`wpendType
    {
      wpendTot <= len && (movingBuffer || wpendBuf == at) && wpendType == typ
    }

    /** No seal fails. */
    ghost predicate SealsAll()
    {
      forall n: nat, t: seq<byte> {:trigger seal(n, t)} :: seal(n, t).Some?
    }

    /** Nothing but the transport keeps the data from being written: no seal fails, and what is pending was begun
        with the same arguments. */
    ghost predicate Willing(typ: byte, at: nat, data: seq<byte>)
      reads this`wpendPending, this`wpendTot, this`wpendBuf, this`wpendType, this`writeBuffer
    {
      && SealsAll() && 0 < |data| <= MAX_PLAIN_LENGTH
      && (if wpendPending then Retryable(typ, at, |data|) else writeBuffer == [])
    }

    /** The transport has taken no more for now. */
    ghost predicate Blocked(takes0: nat)
      reads bio
    {
      |bio.takes| < takes0 || bio.takes == []
    }

    /** do_ssl3_write, for data at the given address: a pending record is only flushed; else one is sealed. */
    method DoWrite(typ: byte, at: nat, data: seq<byte>) returns (ret: int)
      requires Valid()
      modifies this, bio
      ensures Valid() && wnum == old(wnum)
      ensures ret <= |data|
      ensures old(wpendPending) ==> texts == old(texts) && (ret > 0 ==> ret == old(wpendRet))
      ensures old(wpendPending) && ret <= 0 ==> wpendPending && wpendRet == old(wpendRet)
      ensures !old(wpendPending) && (ret > 0 || wpendPending) ==>
                && texts == old(texts) + [data] && (ret > 0 ==> ret == |data|) && (wpendPending ==> wpendRet == |data|)
      ensures !old(wpendPending) && ret <= 0 && !wpendPending ==> texts == old(texts)
      ensures |bio.takes| <= |old(bio.takes)|
      ensures ret <= 0 && old(Willing(typ, at, data)) ==>
                wpendPending && Blocked(|old(bio.takes)|) && Willing(typ, at, data)
      ensures ret > 0 ==> !wpendPending && writeBuffer == []
    {
      if wpendPending {
        ret := WritePending(typ, at, |data|);
        return;
      }
      if |data| > MAX_PLAIN_LENGTH || writeBuffer != [] {
        return -1;
      }
      if |data| == 0 {
        return 0;
      }
      var ok := SealNew(typ, at, data);
      if !ok {
        return -1;
      }
      ret := WritePending(typ, at, |data|);
    }

    /** The part of do_ssl3_write that seals a record into the write buffer. */
    method SealNew(typ: byte, at: nat, data: seq<byte>) returns (ok: bool)
      requires Valid() && !wpendPending && writeBuffer == [] && data != []
      modifies this
      ensures Valid() && wnum == old(wnum) && wpendPending == ok
      ensures texts == old(texts) + if ok then [data] else []
      ensures ok <==> seal(old(writeSequence), data).Some?
      ensures ok ==> wpendRet == |data| && Retryable(typ, at, |data|)
    {
      var rec := seal(writeSequence, data);
      if rec.None? {
        return false;
      }
      hide Records;
      NextRecord(bio.wire, writeBuffer, wire0, seal, texts, data);
      writeBuffer := rec.value;
      writeSequence := writeSequence + 1;
      texts := texts + [data];
      wpendTot, wpendBuf, wpendType, wpendRet, wpendPending := |data|, at, typ, |data|, true;
      return true;
    }

    /** The write, of which tot bytes are finished with, can go on as far as the transport lets it. */
    ghost predicate WillingAt(tot: nat, at: nat, data: seq<byte>)
      reads this`wpendPending, this`wpendTot, this`wpendBuf, this`wpendType, this`writeBuffer
    {
      tot < |data| && Willing(RT_APPLICATION_DATA, at + tot, data[tot..][..Least(|data| - tot, maxSendFragment)])
    }

    function Least(a: nat, b: nat): (r: nat)
      ensures r <= a && r <= b && (r == a || r == b)
    {
      if a < b then a else b
    }

    /** A turn of the loop of ssl3_write_app_data: as much of the rest of the data as goes into a record. */
    method WriteNext(tot: nat, at: nat, data: seq<byte>, ghost texts0: seq<seq<byte>>, ghost from: nat)
      returns (ret: int)
      requires Valid() && tot <= |data| && AsFull(texts0, texts, maxSendFragment, false)
      requires Continued(texts0, texts, from, data, tot + Pending())
      modifies this, bio
      ensures Valid() && wnum == old(wnum) && |bio.takes| <= |old(bio.takes)| && ret <= |data| - tot
      ensures ret > 0 ==> !wpendPending && writeBuffer == []
      ensures ret > 0 ==> ret == if old(wpendPending) then old(wpendRet) else Least(|data| - tot, maxSendFragment)
      ensures Continued(texts0, texts, from, data, tot + if ret > 0 then ret else Pending())
      ensures AsFull(texts0, texts, maxSendFragment, |data| == tot + if ret > 0 then ret else Pending())
      ensures 0 < ret < |data| - tot ==> AsFull(texts0, texts, maxSendFragment, false)
      ensures |texts| <= |old(texts)| + 1
      ensures old(WillingAt(tot, at, data)) && ret <= 0 ==> Blocked(|old(bio.takes)|) && WillingAt(tot, at, data)
    {
      hide Continued, AsFull, Records, Willing, Retryable, SealsAll;
      var n := |data| - tot;
      var nw := if n > maxSendFragment then maxSendFragment else n;
      assert data[tot..][..nw] == data[tot..tot + nw];
      ghost var was, pending := texts, Pending();
      ret := DoWrite(RT_APPLICATION_DATA, at + tot, data[tot..tot + nw]);
      Goes(texts0, was, texts, from, data, tot, tot + nw, pending, ret, Pending());
      Fuller(texts0, was, texts, data, tot, n, nw, maxSendFragment, pending);
    }

    /** ssl3_write_app_data. Whatever happens, the call seals the caller's data from where the calls before it
        stopped: nothing twice, nothing left out. It loses the position only when it is called with less data than
        earlier calls have finished with. */
    method WriteAppData(at: nat, data: seq<byte>) returns (ret: int)
      requires Valid()
      modifies this, bio
      ensures Valid()
      ensures |data| < old(wnum) ==> ret == -1 && texts == old(texts) && wnum == 0 && wpendPending == old(wpendPending)
      ensures |data| >= old(wnum) ==>
                Continued(old(texts), texts, old(Position()), data, if ret > 0 then ret else Position())
      ensures ret > 0 ==> ret <= |data| && Position() == 0 && writeBuffer == [] && (!partialWrite ==> ret == |data|)
      ensures |data| >= old(wnum) ==>
                AsFull(old(texts), texts, maxSendFragment, |data| == if ret > 0 then ret else Position())
      ensures partialWrite && ret > 0 ==>
                ret == if old(wpendPending) then old(Position()) else Least(|data|, old(wnum) + maxSendFragment)
      ensures partialWrite ==> |texts| <= |old(texts)| + 1
      ensures |bio.takes| <= |old(bio.takes)|
      ensures old(WillingAt(wnum, at, data)) && ret <= 0 ==> Blocked(|old(bio.takes)|) && WillingAt(wnum, at, data)
    {
      hide Flatten, Continued, AsFull, Records, Willing, Retryable, SealsAll;
      var tot := wnum;
      wnum := 0;
      if |data| < tot {
        return -1;  // "bad length"
      }
      var n := |data| - tot;
      NothingSealed(texts, tot + Pending(), data, maxSendFragment);
      WillingSeals(tot, at, data);
      while true
        invariant Valid() && wnum == 0 && n == |data| - tot >= 0 && |bio.takes| <= |old(bio.takes)|
        invariant old(WillingAt(wnum, at, data)) ==> SealsAll() && WillingAt(tot, at, data)
        invariant Continued(old(texts), texts, old(Position()), data, tot + Pending())
        invariant AsFull(old(texts), texts, maxSendFragment, false)
        invariant partialWrite ==> texts == old(texts) && tot == old(wnum) && Pending() == old(Pending())
        decreases n
      {
        ret := WriteNext(tot, at, data, old(texts), old(Position()));
        if ret <= 0 {
          wnum := tot;
          return;
        }
        if ret == n || partialWrite {
          ret := tot + ret;
          return;
        }
        n := n - ret;
        tot := tot + ret;
        GoesOn(tot, at, data);
      }
    }

    /** Where nothing is pending, only a seal can fail. */
    lemma {:induction false} GoesOn(tot: nat, at: nat, data: seq<byte>)
      requires Valid() && tot < |data| && !wpendPending && writeBuffer == []
      ensures SealsAll() ==> WillingAt(tot, at, data)
    {
      hide Records, SealsAll;
    }

    lemma {:induction false} WillingSeals(tot: nat, at: nat, data: seq<byte>)
      ensures WillingAt(tot, at, data) ==> SealsAll()
    {
      hide SealsAll;
    }
  }

  /** The records sealed between texts0 and texts hold max bytes each, but for a last one at the end of the data. */
  ghost predicate AsFull(texts0: seq<seq<byte>>, texts: seq<seq<byte>>, max: nat, atEnd: bool)
  {
    && texts0 <= texts
    && forall i :: |texts0| <= i < |texts| ==> 0 < |texts[i]| <= max && (|texts[i]| < max ==> i == |texts| - 1 && atEnd)
  }

  /** Between texts0 and texts the bytes of data from `from` up to `to` have been sealed, once and in order. Where
      no byte of data is left to seal, `from` may lie behind its end. */
  ghost predicate Continued(texts0: seq<seq<byte>>, texts: seq<seq<byte>>, from: nat, data: seq<byte>, to: nat)
  {
    && texts0 <= texts && from <= to
    && (if to <= |data| then Flatten(texts) == Flatten(texts0) + data[from..to] else texts == texts0 && to == from)
  }

  lemma {:induction false} NothingSealed(texts: seq<seq<byte>>, from: nat, data: seq<byte>, max: nat)
    ensures Continued(texts, texts, from, data, from)
    ensures AsFull(texts, texts, max, false)
  {}

  lemma {:induction false} MoreSealed(texts0: seq<seq<byte>>, texts: seq<seq<byte>>, from: nat, data: seq<byte>,
                                      mid: nat, to: nat)
    requires Continued(texts0, texts, from, data, mid) && mid <= to <= |data|
    ensures Continued(texts0, texts + [data[mid..to]], from, data, to)
  {
    FlattenSnoc(texts, data[mid..to]);
    assert data[from..to] == data[from..mid] + data[mid..to];
  }

  /** What a call of do_ssl3_write seals: nothing while a record is pending, else the next bytes of data, unless the
      seal fails. */
  lemma {:induction false} Goes(texts0: seq<seq<byte>>, was: seq<seq<byte>>, texts: seq<seq<byte>>, from: nat,
                                data: seq<byte>, mid: nat, to: nat, pending0: nat, ret: int, pending: nat)
    requires Continued(texts0, was, from, data, mid + pending0) && mid <= to <= |data|
    requires if pending0 > 0 then texts == was && if ret > 0 then ret == pending0 else pending == pending0
             else if ret > 0 || pending > 0 then
               texts == was + [data[mid..to]] && mid + (if ret > 0 then ret else pending) == to
             else texts == was
    ensures Continued(texts0, texts, from, data, mid + if ret > 0 then ret else pending)
  {
    hide Continued;
    if pending0 == 0 {
      MoreSealed(texts0, was, from, data, mid, to);
    }
  }

  /** The next n of the bytes from `mid` on, or max of them, make one more record, unless nothing is sealed. */
  lemma {:induction false} Fuller(texts0: seq<seq<byte>>, was: seq<seq<byte>>, texts: seq<seq<byte>>, data: seq<byte>,
                                  mid: nat, n: nat, nw: nat, max: nat, pending0: nat)
    requires AsFull(texts0, was, max, false) && mid + n == |data| && nw == (if n > max then max else n)
    requires texts == was || (texts == was + [data[mid..mid + nw]] && nw > 0)
    ensures AsFull(texts0, texts, max, mid + nw == |data|)
    ensures nw < n ==> AsFull(texts0, texts, max, false)
    ensures texts == was ==> AsFull(texts0, texts, max, false) && AsFull(texts0, texts, max, true)
  {}

  lemma {:induction false} ContinuedThen(texts0: seq<seq<byte>>, texts1: seq<seq<byte>>, texts: seq<seq<byte>>,
                                         data: seq<byte>, from: nat, mid: nat, to: nat)
    requires Continued(texts0, texts1, from, data, mid) && Continued(texts1, texts, mid, data, to) && from <= |data|
    ensures Continued(texts0, texts, from, data, to) && to <= |data|
  {
    assert mid <= |data|;
    assert data[from..to] == data[from..mid] + data[mid..to];
  }

  /** A write that is retried until it succeeds, or given up: what was sealed in all is a prefix of the data, every
      byte once; on success it is what the last call reports, all of it is on the wire, and without partial writes
      it is all of the data. */
  method WriteRetrying(c: Connection, at: nat, data: seq<byte>, tries: nat) returns (ret: int)
    requires c.Valid() && c.Position() == 0 && !c.wpendPending
    modifies c, c.bio
    ensures c.Valid()
    ensures var to := if ret > 0 then ret else c.Position();
      to <= |data| && Flatten(c.texts) == Flatten(old(c.texts)) + data[..to]
    ensures ret > 0 ==> c.bio.wire == c.wire0 + Records(c.seal, c.texts) && (!c.partialWrite ==> ret == |data|)
    ensures old(c.WillingAt(0, at, data)) && tries > |old(c.bio.takes)| && ret <= 0 ==> c.bio.takes == []
  {
    hide Flatten, Records;
    ret := 0;
    var i := 0;
    NothingSealed(c.texts, 0, data, 0);
    while ret <= 0 && i < tries
      invariant c.Valid() && i <= tries
      invariant ret <= 0 ==> c.Position() <= |data|
      invariant ret > 0 ==> 0 < ret <= |data| && c.writeBuffer == [] && (!c.partialWrite ==> ret == |data|)
      invariant Continued(old(c.texts), c.texts, 0, data, if ret > 0 then ret else c.Position())
      invariant old(c.WillingAt(0, at, data)) && ret <= 0 ==>
                  c.WillingAt(c.wnum, at, data) && (c.bio.takes == [] || |c.bio.takes| + i <= |old(c.bio.takes)|)
      decreases tries - i
    {
      ghost var texts1, mid := c.texts, c.Position();
      ret := c.WriteAppData(at, data);
      ContinuedThen(old(c.texts), texts1, c.texts, data, 0, mid, if ret > 0 then ret else c.Position());
      i := i + 1;
    }
    ghost var to := if ret > 0 then ret else c.Position();
    assert data[0..to] == data[..to];
  }
}
