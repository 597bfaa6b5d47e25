/** TLS 1.0 to 1.2 handshakes as scripts: who sends which message when (section 7.3 of RFC 5246). */
module HandshakeScript {
  import opened Bytes

  /** Key exchange of a cipher suite. */
  datatype KeyExchange = Rsa | Ecdhe | Psk

  /** What the ServerHello settles: the cipher suite, resumption, and the extensions. */
  datatype Params = Params(
    kx: KeyExchange, certAuth: bool, resume: bool, ticket: bool, status: bool, npn: bool, channelId: bool)

  datatype Item =
    | HelloVerifyRequest
    | ClientHello
    | ServerHello(params: Params)
    | Certificate(nonEmpty: bool)
    | CertificateStatus
    | ServerKeyExchange
    | CertificateRequest
    | ServerHelloDone
    | ClientKeyExchange
    | CertificateVerify
    | ChangeCipherSpec
    | NextProto
    | ChannelId
    | NewSessionTicket
    | Finished

  /** What both sides bring to a handshake. channelIdOffered: Channel ID is in both hellos; hashRecorded: the
      session that is resumed has the hashes of its original handshake. */
  datatype Setup = Setup(
    kx: KeyExchange, certAuth: bool, resume: bool, ticket: bool, status: bool, npn: bool,
    channelIdOffered: bool, hashRecorded: bool, pskHint: bool, verifyPeer: bool, verifyPeerIfNoObc: bool,
    requirePeerCert: bool, clientHasCert: bool, dtls: bool, falseStart: bool)
  {
    /** The cipher suites there are: RSA and ECDHE with certificates, PSK and ECDHE with a pre-shared key. */
    predicate Supported() {
      (kx.Rsa? ==> certAuth) && (kx.Psk? ==> !certAuth)
    }

    /** Channel ID is only kept with ECDHE, and in resumption only if the hashes were recorded. */
    predicate ChannelIdKept() {
      channelIdOffered && kx.Ecdhe? && (resume ==> hashRecorded)
    }

    function Agreed(): Params {
      Params(kx, certAuth, resume, ticket, status, npn, ChannelIdKept())
    }

    predicate RequestsCert() {
      !resume && verifyPeer && !(verifyPeerIfNoObc && channelIdOffered) && certAuth
    }

    /** The server insists on a certificate and the client has none: no check passes then. */
    predicate LacksCert() {
      RequestsCert() && requirePeerCert && !clientHasCert
    }

    predicate SendsKeyExchange() {
      kx.Ecdhe? || (!certAuth && pskHint)
    }
  }

  /** A message and who sends it. */
  datatype Turn = Turn(fromClient: bool, item: Item)

  function Turns(fromClient: bool, items: seq<Item>): (r: seq<Turn>)
    ensures |r| == |items| && forall i :: 0 <= i < |r| ==> r[i] == Turn(fromClient, items[i])
  {
    seq(|items|, i requires 0 <= i < |items| => Turn(fromClient, items[i]))
  }

  function IfSo(b: bool, item: Item): seq<Item>
  {
    if b then [item] else []
  }

  /** The last flight of the client. */
  function ClientLast(p: Params): seq<Item>
  {
    [ChangeCipherSpec] + IfSo(p.npn, NextProto) + IfSo(p.channelId, ChannelId) + [Finished]
  }

  /** The last flight of the server. */
  function ServerLast(p: Params): seq<Item>
  {
    IfSo(p.ticket, NewSessionTicket) + [ChangeCipherSpec, Finished]
  }

  // ---- The script, from its points on ----

  /** Where in a handshake one may be: before a message that is sent, or may be left out. */
  datatype Point =
    | Beginning
    | AtServerHello
    | AtCertificate
    | AtStatus
    | AtServerKeyExchange
    | AtCertificateRequest
    | AtServerHelloDone
    | AtClientCertificate
    | AtClientKeyExchange
    | AtCertificateVerify
    | AtClientChangeCipherSpec
    | AtNextProto
    | AtChannelId
    | AtClientFinished
    | AtTicket
    | AtServerChangeCipherSpec
    | AtServerFinished
    | End

  /** The message at a point, if it is not left out. */
  function Here(s: Setup, p: Point): Option<Turn>
  {
    match p
    case Beginning => Some(Turn(true, ClientHello))
    case AtServerHello => Some(Turn(false, ServerHello(s.Agreed())))
    case AtCertificate => If(s.certAuth, Turn(false, Certificate(true)))
    case AtStatus => If(s.certAuth && s.status, Turn(false, CertificateStatus))
    case AtServerKeyExchange => If(s.SendsKeyExchange(), Turn(false, ServerKeyExchange))
    case AtCertificateRequest => If(s.RequestsCert(), Turn(false, CertificateRequest))
    case AtServerHelloDone => Some(Turn(false, ServerHelloDone))
    case AtClientCertificate => If(s.RequestsCert(), Turn(true, Certificate(s.clientHasCert)))
    case AtClientKeyExchange => Some(Turn(true, ClientKeyExchange))
    case AtCertificateVerify => If(s.RequestsCert() && s.clientHasCert, Turn(true, CertificateVerify))
    case AtClientChangeCipherSpec => Some(Turn(true, ChangeCipherSpec))
    case AtNextProto => If(s.npn, Turn(true, NextProto))
    case AtChannelId => If(s.ChannelIdKept(), Turn(true, ChannelId))
    case AtClientFinished => Some(Turn(true, Finished))
    case AtTicket => If(s.ticket, Turn(false, NewSessionTicket))
    case AtServerChangeCipherSpec => Some(Turn(false, ChangeCipherSpec))
    case AtServerFinished => Some(Turn(false, Finished))
    case End => None
  }

  function If(b: bool, t: Turn): Option<Turn>
  {
    if b then Some(t) else None
  }

  /** The last flight of the client comes first in a full handshake, and that of the server in a resumption. */
  function After(s: Setup, p: Point): Point
  {
    match p
    case Beginning => AtServerHello
    case AtServerHello => if s.resume then AtTicket else AtCertificate
    case AtCertificate => AtStatus
    case AtStatus => AtServerKeyExchange
    case AtServerKeyExchange => AtCertificateRequest
    case AtCertificateRequest => AtServerHelloDone
    case AtServerHelloDone => AtClientCertificate
    case AtClientCertificate => AtClientKeyExchange
    case AtClientKeyExchange => AtCertificateVerify
    case AtCertificateVerify => AtClientChangeCipherSpec
    case AtClientChangeCipherSpec => AtNextProto
    case AtNextProto => AtChannelId
    case AtChannelId => AtClientFinished
    case AtClientFinished => AfterClient(s)
    case AtTicket => AtServerChangeCipherSpec
    case AtServerChangeCipherSpec => AtServerFinished
    case AtServerFinished => AfterServer(s)
    case End => End
  }

  /** Behind the client's last flight. */
  function AfterClient(s: Setup): Point
  {
    if s.resume then End else AtTicket
  }

  /** Behind the server's last flight. */
  function AfterServer(s: Setup): Point
  {
    if s.resume then AtClientChangeCipherSpec else End
  }

  /** How many points there are to the end. */
  function Distance(s: Setup, p: Point): nat
  {
    match p
    case Beginning => 20
    case AtServerHello => 19
    case AtCertificate => 18
    case AtStatus => 17
    case AtServerKeyExchange => 16
    case AtCertificateRequest => 15
    case AtServerHelloDone => 14
    case AtClientCertificate => 13
    case AtClientKeyExchange => 12
    case AtCertificateVerify => 11
    case AtClientChangeCipherSpec => if s.resume then 4 else 7
    case AtNextProto => if s.resume then 3 else 6
    case AtChannelId => if s.resume then 2 else 5
    case AtClientFinished => if s.resume then 1 else 4
    case AtTicket => if s.resume then 7 else 3
    case AtServerChangeCipherSpec => if s.resume then 6 else 2
    case AtServerFinished => if s.resume then 5 else 1
    case End => 0
  }

  /** What the script has from a point on. */
  function From(s: Setup, p: Point): seq<Turn>
    decreases Distance(s, p)
  {
    if p.End? then []
    else
      var rest := From(s, After(s, p));
      match Here(s, p)
      case None => rest
      case Some(t) => [t] + rest
  }

  /** One message of the script, and what is behind it. */
  lemma {:induction false} Unfold(s: Setup, p: Point)
    ensures !p.End? ==> From(s, p) == (if Here(s, p).Some? then [Here(s, p).value] else []) + From(s, After(s, p))
    ensures Here(s, p).Some? ==> From(s, p) != [] && From(s, p)[0] == Here(s, p).value
    ensures !p.End? && Here(s, p).None? ==> From(s, p) == From(s, After(s, p))
    ensures p.End? ==> From(s, p) == []
  {}

  // ---- The message flow of the standard ----

  function Client(item: Item): seq<Turn>
  {
    [Turn(true, item)]
  }

  function Server(item: Item): seq<Turn>
  {
    [Turn(false, item)]
  }

  function Where(b: bool, turns: seq<Turn>): seq<Turn>
  {
    if b then turns else []
  }

  /** The server asks for a certificate: it has one itself, verifies its peer, and does not make do with a Channel
      ID. */
  predicate Asks(s: Setup)
  {
    !s.resume && s.certAuth && s.verifyPeer && !(s.verifyPeerIfNoObc && s.channelIdOffered)
  }

  /** What the server sends behind its hello in a full handshake. */
  function ServerKeys(s: Setup, rest: seq<Turn>): seq<Turn>
  {
    Where(s.certAuth, Server(Certificate(true))) + (
    Where(s.certAuth && s.status, Server(CertificateStatus)) + (
    Where(s.kx.Ecdhe? || (!s.certAuth && s.pskHint), Server(ServerKeyExchange)) + (
    Where(Asks(s), Server(CertificateRequest)) + (
    Server(ServerHelloDone) +
    rest))))
  }

  /** What the client answers. */
  function ClientKeys(s: Setup, rest: seq<Turn>): seq<Turn>
  {
    Where(Asks(s), Client(Certificate(s.clientHasCert))) + (
    Client(ClientKeyExchange) + (
    Where(Asks(s) && s.clientHasCert, Client(CertificateVerify)) +
    rest))
  }

  function ClientCloses(s: Setup, rest: seq<Turn>): seq<Turn>
  {
    Client(ChangeCipherSpec) + (
    Where(s.npn, Client(NextProto)) + (
    Where(s.channelIdOffered && s.kx.Ecdhe? && (s.resume ==> s.hashRecorded), Client(ChannelId)) + (
    Client(Finished) +
    rest)))
  }

  function ServerCloses(s: Setup, rest: seq<Turn>): seq<Turn>
  {
    Where(s.ticket, Server(NewSessionTicket)) + (
    Server(ChangeCipherSpec) + (
    Server(Finished) +
    rest))
  }

  /** The message flow of section 7.3 of RFC 5246 for a full handshake and for one that resumes a session, with the
      extensions of this library, and what every message that may be left out depends on. */
  function Flow(s: Setup): seq<Turn>
  {
    var channelId := s.channelIdOffered && s.kx.Ecdhe? && (s.resume ==> s.hashRecorded);
    Client(ClientHello) + (
    Server(ServerHello(Params(s.kx, s.certAuth, s.resume, s.ticket, s.status, s.npn, channelId))) +
    if s.resume then ServerCloses(s, ClientCloses(s, []))
    else ServerKeys(s, ClientKeys(s, ClientCloses(s, ServerCloses(s, [])))))
  }

  /** The script is that flow. */
  lemma {:induction false} ScriptIsFlow(s: Setup)
    ensures From(s, Beginning) == Flow(s)
  {
    hide From, ServerKeys, ClientKeys, ClientCloses, ServerCloses;
    Unfold(s, Beginning);
    Unfold(s, AtServerHello);
    Unfold(s, End);
    ClientClosesInScript(s);
    ServerClosesInScript(s);
    if !s.resume { KeysInScript(s); }
  }

  lemma {:induction false} ClientClosesInScript(s: Setup)
    ensures From(s, AtClientChangeCipherSpec) == ClientCloses(s, From(s, AfterClient(s)))
  {
    hide From;
    Unfold(s, AtClientChangeCipherSpec);
    Unfold(s, AtNextProto);
    Unfold(s, AtChannelId);
    Unfold(s, AtClientFinished);
  }

  lemma {:induction false} ServerClosesInScript(s: Setup)
    ensures From(s, AtTicket) == ServerCloses(s, From(s, AfterServer(s)))
  {
    hide From;
    Unfold(s, AtTicket);
    Unfold(s, AtServerChangeCipherSpec);
    Unfold(s, AtServerFinished);
  }

  lemma {:induction false} KeysInScript(s: Setup)
    requires !s.resume
    ensures From(s, AtCertificate) == ServerKeys(s, From(s, AtClientCertificate))
    ensures From(s, AtClientCertificate) == ClientKeys(s, From(s, AtClientChangeCipherSpec))
  {
    hide From;
    Unfold(s, AtCertificate);
    Unfold(s, AtStatus);
    Unfold(s, AtServerKeyExchange);
    Unfold(s, AtCertificateRequest);
    Unfold(s, AtServerHelloDone);
    AnswerInScript(s);
  }

  lemma {:induction false} AnswerInScript(s: Setup)
    requires !s.resume
    ensures From(s, AtClientCertificate) == ClientKeys(s, From(s, AtClientChangeCipherSpec))
  {
    hide From;
    Unfold(s, AtClientCertificate);
    Unfold(s, AtClientKeyExchange);
    Unfold(s, AtCertificateVerify);
  }

  /** A message about the client's certificate. */
  predicate AboutCert(t: Turn)
  {
    if t.fromClient then t.item.Certificate? || t.item.CertificateVerify? else t.item.CertificateRequest?
  }

  /** Messages about the client's certificate are exactly these, and only where the server asks for it: in a full
      handshake with certificates at a server that verifies its peer, unless a Channel ID will do. */
  lemma {:induction false} FlowAsks(s: Setup, t: Turn)
    requires AboutCert(t)
    ensures t in Flow(s) <==>
              && !s.resume && s.certAuth && s.verifyPeer && !(s.verifyPeerIfNoObc && s.channelIdOffered)
              && (t == Turn(false, CertificateRequest) || t == Turn(true, Certificate(s.clientHasCert))
                  || (t == Turn(true, CertificateVerify) && s.clientHasCert))
  {
    hide ServerKeys, ClientKeys, ClientCloses, ServerCloses;
    EndsAskNot(s, [], t);
    EndsAskNot(s, ServerCloses(s, []), t);
    EndsAskNot(s, ClientCloses(s, []), t);
    KeysAsk(s, ClientKeys(s, ClientCloses(s, ServerCloses(s, []))), t);
    AnswerAsks(s, ClientCloses(s, ServerCloses(s, [])), t);
  }

  lemma {:induction false} EndsAskNot(s: Setup, rest: seq<Turn>, t: Turn)
    requires AboutCert(t)
    ensures (t in ClientCloses(s, rest) <==> t in rest) && (t in ServerCloses(s, rest) <==> t in rest)
  {}

  lemma {:induction false} KeysAsk(s: Setup, rest: seq<Turn>, t: Turn)
    requires AboutCert(t)
    ensures t in ServerKeys(s, rest) <==> (Asks(s) && t == Turn(false, CertificateRequest)) || t in rest
  {}

  lemma {:induction false} AnswerAsks(s: Setup, rest: seq<Turn>, t: Turn)
    requires AboutCert(t)
    ensures t in ClientKeys(s, rest) <==>
              (Asks(s) && (t == Turn(true, Certificate(s.clientHasCert))
                           || (s.clientHasCert && t == Turn(true, CertificateVerify)))) || t in rest
  {}

  lemma {:induction false} NoTurns(fromClient: bool, todo: seq<Turn>)
    ensures Turns(fromClient, []) == [] && [] + ([] + todo) == todo && [] + todo == todo
  {}

  lemma {:induction false} TurnsOne(fromClient: bool, item: Item)
    ensures Turns(fromClient, [item]) == [Turn(fromClient, item)]
  {}

  lemma {:induction false} ClientLastInScript(s: Setup)
    ensures From(s, AtClientChangeCipherSpec) == Turns(true, ClientLast(s.Agreed())) + From(s, AfterClient(s))
  {
    hide From;
    Unfold(s, AtClientChangeCipherSpec);
    Unfold(s, AtNextProto);
    Unfold(s, AtChannelId);
    Unfold(s, AtClientFinished);
  }

  lemma {:induction false} ServerLastInScript(s: Setup)
    ensures From(s, AtTicket) == Turns(false, ServerLast(s.Agreed())) + From(s, AfterServer(s))
  {
    hide From;
    Unfold(s, AtTicket);
    Unfold(s, AtServerChangeCipherSpec);
    Unfold(s, AtServerFinished);
  }

  // ---- Waits ----

  /** Outcome of the checks, callbacks and operations on keys in a step: all pass, one fails, or one asks to be
      called again where it may. */
  datatype Verdict = Pass | Fail | Retry

  /** What the machine waits for (ssl_hs_wait_t). */
  datatype Wait = Ready | Flush | ReadMessage | ReadChangeCipherSpec | Paused | EarlyReturn | Error

  /** The place of the first ChangeCipherSpec, or the end. */
  function Ahead(inbox: seq<Item>): (k: nat)
    ensures k <= |inbox| && (forall i :: 0 <= i < k ==> !inbox[i].ChangeCipherSpec?)
    ensures k < |inbox| ==> inbox[k].ChangeCipherSpec?
  {
    if inbox == [] || inbox[0].ChangeCipherSpec? then 0 else 1 + Ahead(inbox[1..])
  }

  function Without(inbox: seq<Item>, k: nat): seq<Item>
    requires k < |inbox|
  {
    inbox[..k] + inbox[k + 1..]
  }

  /** What a step did to the queues: it took the first `taken` messages of the inbox and added `sent` to the
      pending flight, and both are what the script has next. */
  ghost predicate Followed(fromClient: bool, todo0: seq<Turn>, inbox0: seq<Item>, pending0: seq<Item>,
                           todo: seq<Turn>, inbox: seq<Item>, pending: seq<Item>)
  {
    && |inbox| <= |inbox0| && inbox == inbox0[|inbox0| - |inbox|..]
    && |pending0| <= |pending| && pending[..|pending0|] == pending0
    && todo0 == Turns(!fromClient, inbox0[..|inbox0| - |inbox|]) + Turns(fromClient, pending[|pending0|..]) + todo
  }

  /** The next turn is a handshake message of the given side. */
  ghost predicate MessageNext(fromClient: bool, todo: seq<Turn>)
  {
    todo != [] && todo[0].fromClient == fromClient && !todo[0].item.ChangeCipherSpec?
  }

  /** At this point the server is to send a handshake message next. */
  predicate ServerSpeaks(s: Setup, p: Point)
  {
    match p
    case AtServerHello => true
    case AtCertificate => true
    case AtStatus => true
    case AtServerKeyExchange => true
    case AtCertificateRequest => true
    case AtServerHelloDone => true
    case AtTicket => s.ticket
    case AtServerFinished => true
    case _ => false
  }

  /** At this point the client is to send a handshake message next. */
  predicate ClientSpeaks(s: Setup, p: Point)
  {
    match p
    case Beginning => true
    case AtClientCertificate => true
    case AtClientKeyExchange => true
    case AtCertificateVerify => s.RequestsCert() && s.clientHasCert
    case AtNextProto => true
    case AtChannelId => true
    case AtClientFinished => true
    case _ => false
  }

  lemma {:induction false} SpeaksNext(s: Setup, p: Point)
    ensures ServerSpeaks(s, p) ==> MessageNext(false, From(s, p))
    ensures ClientSpeaks(s, p) ==> MessageNext(true, From(s, p))
    decreases Distance(s, p)
  {
    hide From;
    Unfold(s, p);
    if !p.End? && Here(s, p).None? {
      SpeaksNext(s, After(s, p));
    }
  }

  /** A message that comes earlier in the script is not next at these points. */
  lemma {:induction false} NotBack(s: Setup)
    ensures From(s, AtServerKeyExchange) != [] && !From(s, AtServerKeyExchange)[0].item.CertificateStatus?
    ensures From(s, AtCertificateRequest) != [] && !From(s, AtCertificateRequest)[0].item.ServerKeyExchange?
  {
    hide From;
    Unfold(s, AtServerKeyExchange);
    Unfold(s, AtCertificateRequest);
    Unfold(s, AtServerHelloDone);
  }

  /** If a message has arrived, it is the next one in the script. */
  ghost predicate HeadAgrees(fromClient: bool, todo: seq<Turn>, inbox: seq<Item>)
  {
    inbox != [] ==> todo != [] && todo[0] == Turn(!fromClient, inbox[0])
  }

  lemma {:induction false} HeadOfAll(fromClient: bool, todo: seq<Turn>, inbox: seq<Item>)
    requires Turns(!fromClient, inbox) <= todo
    ensures HeadAgrees(fromClient, todo, inbox)
  {
    if inbox != [] {
      assert todo[0] == Turns(!fromClient, inbox)[0];
    }
  }

  /** Taking messages, and then taking more or sending. */
  lemma {:induction false} FollowedThen(fromClient: bool, todo0: seq<Turn>, inbox0: seq<Item>, todo1: seq<Turn>,
                                        inbox1: seq<Item>,
                                        pending0: seq<Item>, todo: seq<Turn>, inbox: seq<Item>, pending: seq<Item>)
    requires Followed(fromClient, todo0, inbox0, pending0, todo1, inbox1, pending0)
    requires Followed(fromClient, todo1, inbox1, pending0, todo, inbox, pending)
    ensures Followed(fromClient, todo0, inbox0, pending0, todo, inbox, pending)
  {
    hide Turns;
    var a, b := |inbox0| - |inbox1|, |inbox1| - |inbox|;
    var x, y, z := Turns(!fromClient, inbox0[..a]), Turns(!fromClient, inbox1[..b]),
                   Turns(fromClient, pending[|pending0|..]);
    assert inbox == inbox0[a + b..] && Turns(!fromClient, inbox0[..a + b]) == x + y by {
      TakenBoth(inbox0, a, b);
      TurnsConcat(!fromClient, inbox0[..a], inbox1[..b]);
    }
    assert todo0 == x + [] + todo1 by {
      assert pending0[|pending0|..] == [];
      NoTurns(fromClient, todo1);
    }
    Regrouped(todo0, x, todo1, y, z, todo);
  }

  lemma {:induction false} TakenBoth(inbox: seq<Item>, a: nat, b: nat)
    requires a + b <= |inbox|
    ensures inbox[..a + b] == inbox[..a] + inbox[a..][..b] && inbox[a..][b..] == inbox[a + b..]
  {}

  lemma {:induction false} Regrouped(todo0: seq<Turn>, a: seq<Turn>, todo1: seq<Turn>, b: seq<Turn>, c: seq<Turn>,
                                     todo: seq<Turn>)
    requires todo0 == a + [] + todo1 && todo1 == b + c + todo
    ensures todo0 == a + b + c + todo
  {}

  lemma {:induction false} TurnsConcat(fromClient: bool, a: seq<Item>, b: seq<Item>)
    ensures Turns(fromClient, a + b) == Turns(fromClient, a) + Turns(fromClient, b)
  {}

  /** What comes after a message that was taken is next behind it. */
  lemma {:induction false} HeadAfter(fromClient: bool, todo0: seq<Turn>, inbox0: seq<Item>, pending: seq<Item>,
                                     todo: seq<Turn>, inbox: seq<Item>)
    requires Followed(fromClient, todo0, inbox0, pending, todo, inbox, pending)
    requires Turns(!fromClient, inbox0) <= todo0
    ensures Turns(!fromClient, inbox) <= todo
  {
    var n := |inbox0| - |inbox|;
    assert pending[|pending|..] == [] && Turns(fromClient, []) == [];
    assert todo == todo0[n..];
    forall i | 0 <= i < |inbox|
      ensures todo[i] == Turn(!fromClient, inbox[i])
    {
      assert todo0[n + i] == Turns(!fromClient, inbox0)[n + i];
    }
  }

  lemma {:induction false} TookOne(fromClient: bool, inbox0: seq<Item>, pending: seq<Item>, todo: seq<Turn>)
    requires inbox0 != []
    ensures Followed(fromClient, [Turn(!fromClient, inbox0[0])] + todo, inbox0, pending, todo, inbox0[1..], pending)
  {
    assert inbox0[..1] == [inbox0[0]];
    assert pending[|pending|..] == [];
  }

  lemma {:induction false} SentSome(fromClient: bool, inbox: seq<Item>, pending0: seq<Item>, sent: seq<Item>,
                                    todo: seq<Turn>)
    ensures Followed(fromClient, Turns(fromClient, sent) + todo, inbox, pending0, todo, inbox, pending0 + sent)
  {
    assert (pending0 + sent)[|pending0|..] == sent;
    assert Turns(!fromClient, inbox[..0]) == [];
  }

  lemma {:induction false} Nothing(fromClient: bool, inbox: seq<Item>, pending: seq<Item>, todo: seq<Turn>)
    ensures Followed(fromClient, todo, inbox, pending, todo, inbox, pending)
  {
    assert pending[|pending|..] == [];
    assert Turns(!fromClient, inbox[..0]) == [] && Turns(fromClient, []) == [];
  }
}
