/** The state machine of a TLS 1.0 to 1.2 client (handshake_client.cc). */
module HandshakeClient {
  import opened Bytes
  import opened HandshakeScript

  datatype State =
    | StartConnect
    | EnterEarlyData
    | ReadHelloVerifyRequest
    | ReadServerHello
    | ReadServerCertificate
    | ReadCertificateStatus
    | VerifyServerCertificate
    | ReadServerKeyExchange
    | ReadCertificateRequest
    | ReadServerHelloDone
    | SendClientCertificate
    | SendClientKeyExchange
    | SendClientCertificateVerify
    | SendClientFinished
    | FinishFlight
    | ReadSessionTicket
    | ProcessChangeCipherSpec
    | ReadServerFinished
    | FinishClientHandshake
    | Done

  /** Where in the script a client in this state is; ccs: the ChangeCipherSpec of the server is yet to come. */
  function PointOf(s: Setup, state: State, ccs: bool): Point
  {
    match state
    case StartConnect => Beginning
    case EnterEarlyData => AtServerHello
    case ReadHelloVerifyRequest => AtServerHello
    case ReadServerHello => AtServerHello
    case ReadServerCertificate => AtCertificate
    case ReadCertificateStatus => AtStatus
    case VerifyServerCertificate => AtServerKeyExchange
    case ReadServerKeyExchange => AtServerKeyExchange
    case ReadCertificateRequest => AtCertificateRequest
    case ReadServerHelloDone => AtServerHelloDone
    case SendClientCertificate => AtClientCertificate
    case SendClientKeyExchange => AtClientKeyExchange
    case SendClientCertificateVerify => AtCertificateVerify
    case SendClientFinished => AtClientChangeCipherSpec
    case FinishFlight => AfterClient(s)
    case ReadSessionTicket => AtTicket
    case ProcessChangeCipherSpec => if ccs then AtServerChangeCipherSpec else AtServerFinished
    case ReadServerFinished => AtServerFinished
    case FinishClientHandshake => End
    case Done => End
  }

  /** What the script still has for a client in this state. */
  function Todo(s: Setup, state: State, ccs: bool): seq<Turn>
  {
    From(s, PointOf(s, state, ccs))
  }

  /** Steps from here to the end, at most. */
  function Rank(state: State, resume: bool): nat
  {
    match state
    case StartConnect => 20
    case EnterEarlyData => 19
    case ReadHelloVerifyRequest => 18
    case ReadServerHello => 17
    case ReadServerCertificate => 16
    case ReadCertificateStatus => 15
    case VerifyServerCertificate => 14
    case ReadServerKeyExchange => 13
    case ReadCertificateRequest => 12
    case ReadServerHelloDone => 11
    case SendClientCertificate => 10
    case SendClientKeyExchange => 9
    case SendClientCertificateVerify => 8
    case SendClientFinished => if resume then 3 else 7
    case FinishFlight => if resume then 2 else 6
    case ReadSessionTicket => if resume then 6 else 5
    case ProcessChangeCipherSpec => if resume then 5 else 4
    case ReadServerFinished => if resume then 4 else 3
    case FinishClientHandshake => 1
    case Done => 0
  }

  /** The state comes before the ServerHello. */
  predicate BeforeHello(state: State)
  {
    state.StartConnect? || state.EnterEarlyData? || state.ReadHelloVerifyRequest? || state.ReadServerHello?
  }

  /** States of a full handshake only, up to the client's last flight. */
  predicate FullOnly(state: State)
  {
    state.ReadServerCertificate? || state.ReadCertificateStatus? || state.VerifyServerCertificate?
    || state.ReadServerKeyExchange? || state.ReadCertificateRequest? || BehindRequest(state)
  }

  /** The CertificateRequest has been read or passed over. */
  predicate BehindRequest(state: State)
  {
    state.ReadServerHelloDone? || state.SendClientCertificate? || state.SendClientKeyExchange?
    || state.SendClientCertificateVerify?
  }

  /** The step in this state looks for a message. */
  predicate Reads(s: Setup, state: State)
  {
    match state
    case ReadHelloVerifyRequest => true
    case ReadServerHello => true
    case ReadServerCertificate => s.certAuth
    case ReadCertificateStatus => s.status
    case ReadServerKeyExchange => true
    case ReadCertificateRequest => s.certAuth
    case ReadServerHelloDone => true
    case ReadSessionTicket => s.ticket
    case ReadServerFinished => true
    case _ => false
  }

  /** The step in this state has something to check. */
  predicate Checks(s: Setup, state: State)
  {
    match state
    case EnterEarlyData => false
    case ReadHelloVerifyRequest => false
    case ReadServerCertificate => s.certAuth
    case ReadCertificateStatus => s.certAuth && s.status
    case VerifyServerCertificate => s.certAuth
    case ReadServerKeyExchange => s.SendsKeyExchange()
    case ReadCertificateRequest => s.RequestsCert()
    case SendClientCertificate => s.RequestsCert()
    case SendClientCertificateVerify => s.RequestsCert() && s.clientHasCert
    case FinishFlight => !s.resume
    case ReadSessionTicket => s.ticket
    case Done => false
    case _ => true
  }

  /** In this state a message of another type than the step looks for is unexpected. */
  predicate Refuses(s: Setup, state: State, item: Item)
  {
    match state
    case ReadServerHello => !item.ServerHello?
    case ReadServerCertificate => s.certAuth && !item.Certificate?
    case ReadServerKeyExchange => if item.ServerKeyExchange? then s.kx.Rsa? else s.kx.Ecdhe?
    case ReadCertificateRequest => s.certAuth && !item.CertificateRequest? && !item.ServerHelloDone?
    case ReadServerHelloDone => !item.ServerHelloDone?
    case ReadSessionTicket => s.ticket && !item.NewSessionTicket?
    case ReadServerFinished => !item.Finished?
    case _ => false
  }

  /** The state to go on with where the message at hand means that the one looked for was left out. */
  function PassesOver(s: Setup, state: State, item: Item): Option<State>
  {
    match state
    case ReadHelloVerifyRequest => if item.HelloVerifyRequest? then None else Some(ReadServerHello)
    case ReadCertificateStatus => if s.status && !item.CertificateStatus? then Some(VerifyServerCertificate) else None
    case ReadServerKeyExchange => if item.ServerKeyExchange? || s.kx.Ecdhe? then None else Some(ReadCertificateRequest)
    case ReadCertificateRequest => if s.certAuth && item.ServerHelloDone? then Some(ReadServerHelloDone) else None
    case _ => None
  }

  /** How often the peer's Finished has been checked. */
  function Checked(state: State, resume: bool): nat
  {
    if state.FinishClientHandshake? || state.Done? || (resume && (state.SendClientFinished? || state.FinishFlight?))
    then 1 else 0
  }

  /** What has been checked behind these states, as far as this state is behind them: the ServerHello; the server's
      certificate and its key exchange where there are any, its request and its ServerHelloDone, in a full handshake;
      the ticket where there is one; and the change of keys and the Finished of the server. */
  predicate Vetted(s: Setup, st: State, passed: set<State>)
  {
    var rank := Rank(st, s.resume);
    var asks := !s.resume && s.certAuth && s.verifyPeer && !(s.verifyPeerIfNoObc && s.channelIdOffered);
    && (rank < 17 ==> ReadServerHello in passed)
    && (asks && rank < 12 ==> ReadCertificateRequest in passed)
    && (!s.resume && rank < 11 ==> ReadServerHelloDone in passed)
    && (s.ticket && rank < (if s.resume then 6 else 5) ==> ReadSessionTicket in passed)
    && (!s.resume && s.certAuth && rank < 16 ==> ReadServerCertificate in passed)
    && (!s.resume && s.certAuth && rank < 14 ==> VerifyServerCertificate in passed)
    && (!s.resume && (s.kx.Ecdhe? || (!s.certAuth && s.pskHint)) && rank < 13 ==> ReadServerKeyExchange in passed)
    && (rank < (if s.resume then 5 else 4) ==> ProcessChangeCipherSpec in passed)
    && (rank < (if s.resume then 4 else 3) ==> ReadServerFinished in passed)
  }

  /** The states that a state leads to. */
  predicate Next(s: Setup, st: State, st1: State)
  {
    match st
    case StartConnect => st1.EnterEarlyData?
    case EnterEarlyData => st1.ReadHelloVerifyRequest? || st1.ReadServerHello?
    case ReadHelloVerifyRequest => st1.ReadServerHello?
    case ReadServerHello => if s.resume then st1.ReadSessionTicket? else st1.ReadServerCertificate?
    case ReadServerCertificate => st1.ReadCertificateStatus?
    case ReadCertificateStatus => st1.VerifyServerCertificate?
    case VerifyServerCertificate => st1.ReadServerKeyExchange?
    case ReadServerKeyExchange => st1.ReadCertificateRequest?
    case ReadCertificateRequest => st1.ReadServerHelloDone?
    case ReadServerHelloDone => st1.SendClientCertificate?
    case SendClientCertificate => st1.SendClientKeyExchange?
    case SendClientKeyExchange => st1.SendClientCertificateVerify?
    case SendClientCertificateVerify => st1.SendClientFinished?
    case SendClientFinished => st1.FinishFlight?
    case FinishFlight => if s.resume then st1.FinishClientHandshake? else st1.ReadSessionTicket?
    case ReadSessionTicket => st1.ProcessChangeCipherSpec?
    case ProcessChangeCipherSpec => st1.ReadServerFinished?
    case ReadServerFinished => if s.resume then st1.SendClientFinished? else st1.FinishClientHandshake?
    case FinishClientHandshake => st1.Done?
    case Done => false
  }

  /** What is behind a state is checked. */
  lemma {:induction false} VettedOn(s: Setup, st: State, st1: State, passed: set<State>, verdict: Verdict)
    requires Vetted(s, st, passed)
    ensures Next(s, st, st1) && !(verdict.Fail? && Checks(s, st)) && (FullOnly(st) ==> !s.resume) ==>
              Vetted(s, st1, if verdict.Fail? then passed else passed + {st})
  {}

  class Client {
    ghost const s: Setup
    const hasCert: bool
    const dtls: bool
    const falseStart: bool
    var state: State
    var wait: Wait
    /** What has arrived and is not read yet, and what was added and is not yet flushed. */
    var inbox: seq<Item>
    var pending: seq<Item>
    var params: Params
    var certRequest: bool
    /** With DTLS: a ChangeCipherSpec has arrived ahead of its time. */
    var hasCcs: bool
    /** A message that the state machine does not allow was met. */
    var unexpected: bool
    var finishedChecked: nat
    /** The states that were left by a step whose checks did not fail. */
    ghost var passed: set<State>

    ghost predicate Valid()
      reads this
    {
      Fixed() && At(state, wait) && Vetted(s, state, passed)
    }

    ghost predicate Fixed()
      reads this
    {
      s.Supported() && hasCert == s.clientHasCert && !unexpected && (hasCcs ==> dtls)
    }

    /** What has been settled is right for this state and this wait. */
    ghost predicate At(st: State, w: Wait)
      reads this`params, this`certRequest, this`finishedChecked
    {
      && Settled(st)
      && (w.ReadMessage? ==> MessageNext(false, Todo(s, st, false)))
      && (w.ReadChangeCipherSpec? ==> st.ProcessChangeCipherSpec?)
    }

    ghost predicate Settled(st: State)
      reads this`params, this`certRequest, this`finishedChecked
    {
      && (!BeforeHello(st) ==> params == s.Agreed())
      && (FullOnly(st) ==> !s.resume)
      && (if BehindRequest(st) then certRequest == s.RequestsCert()
          else FullOnly(st) || BeforeHello(st) ==> !certRequest)
      && finishedChecked == Checked(st, s.resume)
    }

    ghost function Rest(): seq<Turn>
      reads this
    {
      Todo(s, state, wait.ReadChangeCipherSpec?)
    }

    constructor (ghost setup: Setup, cert: bool, overDtls: bool, early: bool)
      requires setup.Supported() && cert == setup.clientHasCert
      ensures Valid() && s == setup && state == StartConnect && wait == Ready && inbox == [] && pending == []
      ensures finishedChecked == 0 && !hasCcs
    {
      s, hasCert, dtls, falseStart := setup, cert, overDtls, early;
      state, wait, inbox, pending := StartConnect, Ready, [], [];
      params := Params(Rsa, false, false, false, false, false, false);
      hasCcs, certRequest, unexpected, finishedChecked := false, false, false, 0;
      passed := {};
    }

    /** get_message: the message at hand, if it is one. */
    function Message(): Option<Item>
      reads this
    {
      if inbox != [] && !inbox[0].ChangeCipherSpec? then Some(inbox[0]) else None
    }

    ghost predicate Can(st: State)
      reads this
    {
      Valid() && state == st && wait == Ready
    }

    /** What the step did with the type of the message at hand, whatever it is. */
    ghost predicate Screened(st: State, inbox0: seq<Item>)
      reads this
    {
      var at := if inbox0 != [] && !inbox0[0].ChangeCipherSpec? then Some(inbox0[0]) else None;
      && (unexpected <==> at.Some? && Refuses(s, st, at.value)) && (unexpected ==> wait.Error?)
      && (at.Some? && PassesOver(s, st, at.value).Some? ==>
            wait == Ready && inbox == inbox0 && state == PassesOver(s, st, at.value).value)
    }

    /** A message of another type is unexpected or passed over. If what had arrived was next in the script, the step
        followed the script. Without an error it went forward, or it waits for a message that is not there, or it was
        asked to retry. */
    ghost predicate Stepped(st: State, inbox0: seq<Item>, pending0: seq<Item>, passed0: set<State>, verdict: Verdict)
      reads this
    {
      && Screened(st, inbox0) && Along(st, inbox0, pending0, verdict)
      && (passed == passed0 || (passed == passed0 + {st} && !verdict.Fail?))
    }

    ghost predicate Along(st: State, inbox0: seq<Item>, pending0: seq<Item>, verdict: Verdict)
      reads this
    {
      HeadAgrees(true, Todo(s, st, false), inbox0) ==>
      && Valid()
      && (wait.Error? ==> verdict.Fail?)
      && (verdict.Fail? && Checks(s, st) && (Reads(s, st) ==> inbox0 != []) ==> wait.Error?)
      && (!wait.Error? ==>
            && Followed(true, Todo(s, st, false), inbox0, pending0, Rest(), inbox, pending)
            && |pending| <= |pending0| + 4
            && (Rank(state, s.resume) < Rank(st, s.resume) ||
                (state == st && pending == pending0 && if wait.ReadMessage? then inbox0 == [] && Reads(s, st)
                                                       else verdict.Retry?)))
    }

    // ---- Outcomes that all steps share ----

    /** Nothing at hand is refused or passed over. */
    ghost predicate Accepts(st: State)
      reads this
    {
      Message().Some? ==> !Refuses(s, st, inbox[0]) && PassesOver(s, st, inbox[0]).None?
    }

    /** Looks for a message. Without one the machine waits. */
    method Await(st: State, ghost verdict: Verdict) returns (have: bool)
      requires Can(st) && Reads(s, st) && ServerSpeaks(s, PointOf(s, st, false))
      modifies this`wait
      ensures have <==> Message().Some?
      ensures if have then Can(st) else Stepped(st, inbox, pending, passed, verdict)
    {
      hide From, Followed, Turns, Rank, Checks, Settled, Vetted, Refuses, PassesOver;
      SpeaksNext(s, PointOf(s, st, false));
      Nothing(true, inbox, pending, Todo(s, st, false));
      have := Message().Some?;
      if !have {
        wait := ReadMessage;
      }
    }

    /** A message of a type that is not allowed here. */
    method Refuse(st: State, ghost verdict: Verdict)
      requires Can(st) && Message().Some? && Refuses(s, st, inbox[0])
      modifies this`wait, this`unexpected
      ensures Stepped(st, inbox, pending, passed, verdict)
    {
      hide From, Followed, Turns, Rank, Checks, Reads, Settled, Vetted;
      Wanted(s, st);
      wait, unexpected := Error, true;
    }

    /** A check or a callback has failed, or what has arrived is not of the script. */
    method Fail(st: State, ghost verdict: Verdict)
      requires Can(st) && Accepts(st)
      requires HeadAgrees(true, Todo(s, st, false), inbox) ==> verdict.Fail?
      modifies this`wait
      ensures Stepped(st, inbox, pending, passed, verdict) && wait.Error?
    {
      hide Todo, Followed, Turns, Rank, Checks, Reads, Vetted, Refuses, PassesOver, HeadAgrees;
      wait := Error;
    }

    /** A callback asks to be called again. */
    method Pause(st: State, ghost verdict: Verdict)
      requires Can(st) && Accepts(st) && verdict.Retry?
      modifies this`wait
      ensures Stepped(st, inbox, pending, passed, verdict)
    {
      hide Todo, Followed, Turns, Rank, Checks, Reads, Vetted, Refuses, PassesOver, HeadAgrees;
      Nothing(true, inbox, pending, Todo(s, st, false));
      wait := Paused;
    }

    /** The states left without a failed check, when this one is left. */
    ghost function Behind(st: State, verdict: Verdict): set<State>
      reads this`passed
    {
      if verdict.Fail? then passed else passed + {st}
    }

    /** Where the step leads, with what it reads and sends, as long as what arrived is of the script. */
    ghost predicate Leads(st: State, taken: seq<Turn>, sent: seq<Item>, st1: State, w: Wait, verdict: Verdict)
      reads this
    {
      HeadAgrees(true, Todo(s, st, false), inbox) ==>
        && At(st1, w) && Next(s, st, st1) && !w.Error? && !w.ReadMessage?
        && |sent| <= 4 && Rank(st1, s.resume) < Rank(st, s.resume)
        && Todo(s, st, false) == taken + (Turns(true, sent) + Todo(s, st1, w.ReadChangeCipherSpec?))
        && !(verdict.Fail? && Checks(s, st))
    }

    /** The step goes on without a message. */
    method Go(st: State, st1: State, w: Wait, ghost verdict: Verdict)
      requires (FullOnly(st) ==> !s.resume) && Fixed() && Vetted(s, st, passed) && wait == Ready
      requires Leads(st, [], [], st1, w, verdict)
      requires Message().Some? ==> !Refuses(s, st, inbox[0])
      requires Message().Some? && PassesOver(s, st, inbox[0]).Some? ==>
                 PassesOver(s, st, inbox[0]).value == st1 && w == Ready
      modifies this`state, this`wait, this`passed
      ensures Stepped(st, inbox, pending, old(passed), verdict) && state == st1 && wait == w
    {
      hide Todo, Followed, Turns, Rank, Checks, Reads, Vetted, Next, FullOnly, Refuses, PassesOver, At, HeadAgrees;
      VettedOn(s, st, st1, passed, verdict);
      NoTurns(true, Todo(s, st1, w.ReadChangeCipherSpec?));
      Nothing(true, inbox, pending, Todo(s, st, false));
      state, wait, passed := st1, w, Behind(st, verdict);
    }

    /** The step has used the message at hand. */
    method Take(st: State, st1: State, w: Wait, ghost verdict: Verdict)
      requires (FullOnly(st) ==> !s.resume) && Fixed() && Vetted(s, st, passed) && wait == Ready
      requires Message().Some? && Accepts(st)
      requires Leads(st, [Turn(false, inbox[0])], [], st1, w, verdict)
      modifies this`state, this`wait, this`inbox, this`passed
      ensures Stepped(st, old(inbox), pending, old(passed), verdict) && state == st1 && wait == w
    {
      hide Todo, Followed, Turns, Rank, Checks, Reads, Vetted, Next, FullOnly, Refuses, PassesOver, At, HeadAgrees;
      VettedOn(s, st, st1, passed, verdict);
      NoTurns(true, Todo(s, st1, w.ReadChangeCipherSpec?));
      TookOne(true, inbox, pending, Todo(s, st1, w.ReadChangeCipherSpec?));
      inbox := inbox[1..];
      state, wait, passed := st1, w, Behind(st, verdict);
    }

    /** The step adds messages to the flight. */
    method Send(st: State, items: seq<Item>, st1: State, w: Wait, ghost verdict: Verdict)
      requires (FullOnly(st) ==> !s.resume) && Fixed() && Vetted(s, st, passed) && wait == Ready
      requires Accepts(st) && Leads(st, [], items, st1, w, verdict)
      modifies this`state, this`wait, this`pending, this`passed
      ensures Stepped(st, inbox, old(pending), old(passed), verdict) && state == st1 && wait == w
    {
      hide Todo, Followed, Turns, Rank, Checks, Reads, Vetted, Next, FullOnly, Refuses, PassesOver, At, HeadAgrees;
      VettedOn(s, st, st1, passed, verdict);
      var todo := Todo(s, st1, w.ReadChangeCipherSpec?);
      assert [] + (Turns(true, items) + todo) == Turns(true, items) + todo;
      SentSome(true, inbox, pending, items, todo);
      pending := pending + items;
      state, wait, passed := st1, w, Behind(st, verdict);
    }

    // ---- The state functions ----

    method DoStartConnect(verdict: Verdict)
      requires Can(StartConnect)
      modifies this`state, this`passed, this`wait, this`pending
      ensures Stepped(StartConnect, old(inbox), old(pending), old(passed), verdict)
    {
      hide From, Turns, Stepped, Vetted;
      Unfold(s, Beginning);
      TurnsOne(true, ClientHello);
      if verdict.Fail? {
        Fail(StartConnect, verdict);
        return;
      }
      Send(StartConnect, [ClientHello], EnterEarlyData, Flush, verdict);
    }

    method DoEnterEarlyData(ghost verdict: Verdict)
      requires Can(EnterEarlyData)
      modifies this`state, this`passed, this`wait
      ensures Stepped(EnterEarlyData, old(inbox), old(pending), old(passed), verdict)
    {
      hide From, Turns, Stepped, Vetted;
      NoTurns(true, From(s, AtServerHello));
      var next := if dtls then ReadHelloVerifyRequest else ReadServerHello;
      Go(EnterEarlyData, next, Ready, verdict);
    }

    method DoReadHelloVerifyRequest(verdict: Verdict)
      requires Can(ReadHelloVerifyRequest)
      modifies this`state, this`passed, this`wait, this`inbox, this`pending
      ensures Stepped(ReadHelloVerifyRequest, old(inbox), old(pending), old(passed), verdict)
      ensures old(inbox) != [] && old(inbox)[0].HelloVerifyRequest? ==>
                if verdict.Fail? then wait.Error?
                else inbox == old(inbox)[1..] && pending == old(pending) + [ClientHello]
                     && state == ReadServerHello && wait == Flush
    {
      hide From, Turns, Vetted;
      Unfold(s, AtServerHello);
      NoTurns(true, From(s, AtServerHello));
      var have := Await(ReadHelloVerifyRequest, verdict);
      if !have {
        return;
      }
      if !inbox[0].HelloVerifyRequest? {
        Go(ReadHelloVerifyRequest, ReadServerHello, Ready, verdict);
        return;
      }
      if verdict.Fail? {
        Fail(ReadHelloVerifyRequest, verdict);
        return;
      }
      inbox := inbox[1..];
      pending := pending + [ClientHello];
      state, wait := ReadServerHello, Flush;
    }

    method DoReadServerHello(verdict: Verdict)
      requires Can(ReadServerHello)
      modifies this`state, this`passed, this`wait, this`inbox, this`unexpected, this`params
      ensures Stepped(ReadServerHello, old(inbox), old(pending), old(passed), verdict)
    {
      hide From, Turns, Stepped, Vetted;
      Unfold(s, AtServerHello);
      NoTurns(true, From(s, After(s, AtServerHello)));
      var have := Await(ReadServerHello, verdict);
      if !have {
        return;
      }
      if !inbox[0].ServerHello? {
        Refuse(ReadServerHello, verdict);
        return;
      }
      if verdict.Fail? {
        Fail(ReadServerHello, verdict);
        return;
      }
      params := inbox[0].params;
      Take(ReadServerHello, if params.resume then ReadSessionTicket else ReadServerCertificate, Ready, verdict);
    }

    method DoReadServerCertificate(verdict: Verdict)
      requires Can(ReadServerCertificate)
      modifies this`state, this`passed, this`wait, this`inbox, this`unexpected
      ensures Stepped(ReadServerCertificate, old(inbox), old(pending), old(passed), verdict)
    {
      hide From, Turns, Stepped, Vetted;
      Unfold(s, AtCertificate);
      NoTurns(true, From(s, AtStatus));
      if !params.certAuth {
        Go(ReadServerCertificate, ReadCertificateStatus, Ready, verdict);
        return;
      }
      var have := Await(ReadServerCertificate, verdict);
      if !have {
        return;
      }
      if !inbox[0].Certificate? {
        Refuse(ReadServerCertificate, verdict);
        return;
      }
      if verdict.Fail? || !inbox[0].nonEmpty {
        Fail(ReadServerCertificate, verdict);
        return;
      }
      Take(ReadServerCertificate, ReadCertificateStatus, Ready, verdict);
    }

    method DoReadCertificateStatus(verdict: Verdict)
      requires Can(ReadCertificateStatus)
      modifies this`state, this`passed, this`wait, this`inbox
      ensures Stepped(ReadCertificateStatus, old(inbox), old(pending), old(passed), verdict)
    {
      hide From, Turns, Stepped, Vetted;
      Unfold(s, AtStatus);
      NotBack(s);
      NoTurns(true, From(s, AtServerKeyExchange));
      if !params.status {
        Go(ReadCertificateStatus, VerifyServerCertificate, Ready, verdict);
        return;
      }
      var have := Await(ReadCertificateStatus, verdict);
      if !have {
        return;
      }
      if !inbox[0].CertificateStatus? {
        // The server may change its mind about sending it.
        Go(ReadCertificateStatus, VerifyServerCertificate, Ready, verdict);
        return;
      }
      if verdict.Fail? {
        Fail(ReadCertificateStatus, verdict);
        return;
      }
      Take(ReadCertificateStatus, VerifyServerCertificate, Ready, verdict);
    }

    method DoVerifyServerCertificate(verdict: Verdict)
      requires Can(VerifyServerCertificate)
      modifies this`state, this`passed, this`wait
      ensures Stepped(VerifyServerCertificate, old(inbox), old(pending), old(passed), verdict)
    {
      hide From, Turns, Stepped, Vetted;
      NoTurns(true, From(s, AtServerKeyExchange));
      if params.certAuth && verdict.Fail? {
        Fail(VerifyServerCertificate, verdict);
        return;
      }
      if params.certAuth && verdict.Retry? {
        Pause(VerifyServerCertificate, verdict);
        return;
      }
      Go(VerifyServerCertificate, ReadServerKeyExchange, Ready, verdict);
    }

    method DoReadServerKeyExchange(verdict: Verdict)
      requires Can(ReadServerKeyExchange)
      modifies this`state, this`passed, this`wait, this`inbox, this`unexpected
      ensures Stepped(ReadServerKeyExchange, old(inbox), old(pending), old(passed), verdict)
    {
      hide From, Turns, Stepped, Vetted;
      Unfold(s, AtServerKeyExchange);
      NotBack(s);
      NoTurns(true, From(s, AtCertificateRequest));
      var have := Await(ReadServerKeyExchange, verdict);
      if !have {
        return;
      }
      if !inbox[0].ServerKeyExchange? {
        if params.kx.Ecdhe? {
          Refuse(ReadServerKeyExchange, verdict);
          return;
        }
        Go(ReadServerKeyExchange, ReadCertificateRequest, Ready, verdict);
        return;
      }
      if params.kx.Rsa? {
        Refuse(ReadServerKeyExchange, verdict);
        return;
      }
      if verdict.Fail? {
        Fail(ReadServerKeyExchange, verdict);
        return;
      }
      Take(ReadServerKeyExchange, ReadCertificateRequest, Ready, verdict);
    }

    method DoReadCertificateRequest(verdict: Verdict)
      requires Can(ReadCertificateRequest)
      modifies this`state, this`passed, this`wait, this`inbox, this`unexpected, this`certRequest
      ensures Stepped(ReadCertificateRequest, old(inbox), old(pending), old(passed), verdict)
    {
      hide From, Turns, Stepped, Vetted;
      Unfold(s, AtCertificateRequest);
      Unfold(s, AtServerHelloDone);
      NoTurns(true, From(s, AtServerHelloDone));
      if !params.certAuth {
        Go(ReadCertificateRequest, ReadServerHelloDone, Ready, verdict);
        return;
      }
      var have := Await(ReadCertificateRequest, verdict);
      if !have {
        return;
      }
      if inbox[0].ServerHelloDone? {
        Go(ReadCertificateRequest, ReadServerHelloDone, Ready, verdict);
        return;
      }
      if !inbox[0].CertificateRequest? {
        Refuse(ReadCertificateRequest, verdict);
        return;
      }
      if verdict.Fail? {
        Fail(ReadCertificateRequest, verdict);
        return;
      }
      certRequest := true;
      Take(ReadCertificateRequest, ReadServerHelloDone, Ready, verdict);
    }

    method DoReadServerHelloDone(verdict: Verdict)
      requires Can(ReadServerHelloDone)
      modifies this`state, this`passed, this`wait, this`inbox, this`unexpected
      ensures Stepped(ReadServerHelloDone, old(inbox), old(pending), old(passed), verdict)
    {
      hide From, Turns, Stepped, Vetted;
      Unfold(s, AtServerHelloDone);
      NoTurns(true, From(s, AtClientCertificate));
      var have := Await(ReadServerHelloDone, verdict);
      if !have {
        return;
      }
      if !inbox[0].ServerHelloDone? {
        Refuse(ReadServerHelloDone, verdict);
        return;
      }
      if verdict.Fail? {
        Fail(ReadServerHelloDone, verdict);
        return;
      }
      Take(ReadServerHelloDone, SendClientCertificate, Ready, verdict);
    }

    method DoSendClientCertificate(verdict: Verdict)
      requires Can(SendClientCertificate)
      modifies this`state, this`passed, this`wait, this`pending
      ensures Stepped(SendClientCertificate, old(inbox), old(pending), old(passed), verdict)
    {
      hide From, Turns, Stepped, Vetted;
      Unfold(s, AtClientCertificate);
      NoTurns(true, From(s, AtClientKeyExchange));
      TurnsOne(true, Certificate(hasCert));
      if !certRequest {
        Go(SendClientCertificate, SendClientKeyExchange, Ready, verdict);
        return;
      }
      if verdict.Fail? {
        Fail(SendClientCertificate, verdict);
        return;
      }
      if verdict.Retry? {
        Pause(SendClientCertificate, verdict);
        return;
      }
      // Without a certificate the message is sent all the same, empty.
      Send(SendClientCertificate, [Certificate(hasCert)], SendClientKeyExchange, Ready, verdict);
    }

    method DoSendClientKeyExchange(verdict: Verdict)
      requires Can(SendClientKeyExchange)
      modifies this`state, this`passed, this`wait, this`pending
      ensures Stepped(SendClientKeyExchange, old(inbox), old(pending), old(passed), verdict)
    {
      hide From, Turns, Stepped, Vetted;
      Unfold(s, AtClientKeyExchange);
      TurnsOne(true, ClientKeyExchange);
      if verdict.Fail? {
        Fail(SendClientKeyExchange, verdict);
        return;
      }
      Send(SendClientKeyExchange, [ClientKeyExchange], SendClientCertificateVerify, Ready, verdict);
    }

    method DoSendClientCertificateVerify(verdict: Verdict)
      requires Can(SendClientCertificateVerify)
      modifies this`state, this`passed, this`wait, this`pending
      ensures Stepped(SendClientCertificateVerify, old(inbox), old(pending), old(passed), verdict)
    {
      hide From, Turns, Stepped, Vetted;
      Unfold(s, AtCertificateVerify);
      NoTurns(true, From(s, AtClientChangeCipherSpec));
      TurnsOne(true, CertificateVerify);
      if !certRequest || !hasCert {
        Go(SendClientCertificateVerify, SendClientFinished, Ready, verdict);
        return;
      }
      if verdict.Fail? {
        Fail(SendClientCertificateVerify, verdict);
        return;
      }
      if verdict.Retry? {
        Pause(SendClientCertificateVerify, verdict);
        return;
      }
      Send(SendClientCertificateVerify, [CertificateVerify], SendClientFinished, Ready, verdict);
    }

    method DoSendClientFinished(verdict: Verdict)
      requires Can(SendClientFinished)
      modifies this`state, this`passed, this`wait, this`pending
      ensures Stepped(SendClientFinished, old(inbox), old(pending), old(passed), verdict)
    {
      hide From, Turns, Stepped, Vetted;
      ClientLastInScript(s);
      if verdict.Fail? {
        Fail(SendClientFinished, verdict);
        return;
      }
      if params.channelId && verdict.Retry? {
        Pause(SendClientFinished, verdict);
        return;
      }
      var flight := LastFlight();
      Send(SendClientFinished, flight, FinishFlight, Flush, verdict);
    }

    method LastFlight() returns (flight: seq<Item>)
      ensures flight == ClientLast(params) && |flight| <= 4
    {
      flight := [ChangeCipherSpec];
      if params.npn {
        flight := flight + [NextProto];
      }
      if params.channelId {
        flight := flight + [ChannelId];
      }
      flight := flight + [Finished];
    }

    method DoFinishFlight(verdict: Verdict)
      requires Can(FinishFlight)
      modifies this`state, this`passed, this`wait
      ensures Stepped(FinishFlight, old(inbox), old(pending), old(passed), verdict)
    {
      hide From, Turns, Stepped, Vetted;
      NoTurns(true, From(s, AfterClient(s)));
      if params.resume {
        Go(FinishFlight, FinishClientHandshake, Ready, verdict);
        return;
      }
      if verdict.Fail? {
        Fail(FinishFlight, verdict);
        return;
      }
      Go(FinishFlight, ReadSessionTicket, if falseStart then EarlyReturn else Ready, verdict);
    }

    method DoReadSessionTicket(verdict: Verdict)
      requires Can(ReadSessionTicket)
      modifies this`state, this`passed, this`wait, this`inbox, this`unexpected
      ensures Stepped(ReadSessionTicket, old(inbox), old(pending), old(passed), verdict)
    {
      hide From, Turns, Stepped, Vetted;
      Unfold(s, AtTicket);
      NoTurns(true, From(s, AtServerChangeCipherSpec));
      if !params.ticket {
        Go(ReadSessionTicket, ProcessChangeCipherSpec, ReadChangeCipherSpec, verdict);
        return;
      }
      var have := Await(ReadSessionTicket, verdict);
      if !have {
        return;
      }
      if !inbox[0].NewSessionTicket? {
        Refuse(ReadSessionTicket, verdict);
        return;
      }
      if verdict.Fail? {
        Fail(ReadSessionTicket, verdict);
        return;
      }
      Take(ReadSessionTicket, ProcessChangeCipherSpec, ReadChangeCipherSpec, verdict);
    }

    method DoProcessChangeCipherSpec(verdict: Verdict)
      requires Can(ProcessChangeCipherSpec)
      modifies this`state, this`passed, this`wait
      ensures Stepped(ProcessChangeCipherSpec, old(inbox), old(pending), old(passed), verdict)
    {
      hide From, Turns, Stepped, Vetted;
      NoTurns(true, From(s, AtServerFinished));
      if verdict.Fail? {
        Fail(ProcessChangeCipherSpec, verdict);
        return;
      }
      Go(ProcessChangeCipherSpec, ReadServerFinished, Ready, verdict);
    }

    method DoReadServerFinished(verdict: Verdict)
      requires Can(ReadServerFinished)
      modifies this`state, this`passed, this`wait, this`inbox, this`unexpected, this`finishedChecked
      ensures Stepped(ReadServerFinished, old(inbox), old(pending), old(passed), verdict)
    {
      hide From, Turns, Stepped, Vetted;
      Unfold(s, AtServerFinished);
      NoTurns(true, From(s, AfterServer(s)));
      var have := Await(ReadServerFinished, verdict);
      if !have {
        return;
      }
      if !inbox[0].Finished? {
        Refuse(ReadServerFinished, verdict);
        return;
      }
      if verdict.Fail? {
        Fail(ReadServerFinished, verdict);
        return;
      }
      finishedChecked := finishedChecked + 1;
      Take(ReadServerFinished, if params.resume then SendClientFinished else FinishClientHandshake, Ready, verdict);
    }

    method DoFinishClientHandshake(verdict: Verdict)
      requires Can(FinishClientHandshake)
      modifies this`state, this`passed, this`wait
      ensures Stepped(FinishClientHandshake, old(inbox), old(pending), old(passed), verdict)
    {
      hide From, Turns, Stepped, Vetted;
      NoTurns(true, From(s, End));
      if verdict.Fail? {
        Fail(FinishClientHandshake, verdict);
        return;
      }
      Go(FinishClientHandshake, Done, Ready, verdict);
    }

    /** Nothing keeps the machine from going on. */
    ghost predicate Enabled()
      reads this
    {
      !state.Done? && !wait.Error? && (wait.Flush? ==> pending == []) &&
          (wait.ReadMessage? || wait.ReadChangeCipherSpec? || Reads(s, state) ==> inbox != [])
    }

    /** ssl_open_handshake. A ChangeCipherSpec is unexpected, but with DTLS it is flagged for later. */
    method OpenHandshake() returns (run: bool)
      requires Fixed() && wait.ReadMessage?
      modifies this`wait, this`inbox, this`unexpected, this`hasCcs
      ensures unexpected <==> !dtls && old(inbox) != [] && old(inbox)[0].ChangeCipherSpec?
      ensures if unexpected then wait.Error? && !run && !hasCcs && inbox == old(inbox)
              else
                && wait == old(wait) && (run <==> old(inbox) != [])
                && (hasCcs <==> old(hasCcs) || (run && old(inbox)[0].ChangeCipherSpec?))
                && inbox == if run && old(inbox)[0].ChangeCipherSpec? then old(inbox)[1..] else old(inbox)
    {
      run := inbox != [];
      if run && inbox[0].ChangeCipherSpec? {
        if !dtls {
          wait, unexpected := Error, true;
          return false;
        }
        hasCcs, inbox := true, inbox[1..];
      }
    }

    /** ssl_open_change_cipher_spec. A message is unexpected, but with DTLS messages ahead of the ChangeCipherSpec are
        kept, and one that was flagged before will do. */
    method OpenChangeCipherSpec() returns (run: bool)
      requires Fixed() && wait.ReadChangeCipherSpec?
      modifies this`wait, this`inbox, this`unexpected, this`hasCcs
      ensures unexpected <==> !dtls && old(inbox) != [] && !old(inbox)[0].ChangeCipherSpec?
      ensures !hasCcs
      ensures if unexpected then wait.Error? && !run && inbox == old(inbox)
              else
                && wait == old(wait) && (run <==> old(hasCcs) || ChangeCipherSpec in old(inbox))
                && inbox == if old(hasCcs) || !run then old(inbox) else Without(old(inbox), Ahead(old(inbox)))
    {
      if hasCcs {
        hasCcs := false;
        return true;
      }
      var k := Ahead(inbox);
      if !dtls && inbox != [] && k != 0 {
        wait, unexpected := Error, true;
        return false;
      }
      run := k < |inbox|;
      if run {
        inbox := Without(inbox, k);
      }
    }

    /** ssl_run_handshake: resolves what the machine waits for, if it can be resolved. As long as what arrives is the
        script, it is followed. */
    method Resolve() returns (run: bool)
      requires Valid() && !wait.Error?
      modifies this`wait, this`inbox, this`unexpected, this`hasCcs
      ensures unexpected <==> !dtls && old(inbox) != [] &&
                              if old(inbox)[0].ChangeCipherSpec? then old(wait).ReadMessage?
                              else old(wait).ReadChangeCipherSpec?
      ensures unexpected ==> wait.Error? && !run
      ensures !unexpected ==>
                && wait == (if run then Ready else old(wait))
                && (run <==> match old(wait)
                             case Flush => pending == []
                             case ReadMessage => old(inbox) != []
                             case ReadChangeCipherSpec => old(hasCcs) || ChangeCipherSpec in old(inbox)
                             case _ => true)
      ensures !old(hasCcs) && Turns(false, old(inbox)) <= old(Rest()) ==>
                && !hasCcs && !unexpected && Valid() && Turns(false, inbox) <= Rest()
                && Followed(true, old(Rest()), old(inbox), pending, Rest(), inbox, pending)
                && (!run ==> inbox == old(inbox)) && (old(Enabled()) ==> run && (Reads(s, state) ==> inbox != []))
    {
      hide Todo, Followed, Turns, Settled, Vetted, At, MessageNext, Ahead, Without;
      InScript();
      ghost var wait0, inbox0, enabled0 := wait, inbox, Enabled();
      match wait {
        case Flush =>
          run := pending == [];
        case ReadMessage =>
          run := OpenHandshake();
        case ReadChangeCipherSpec =>
          run := OpenChangeCipherSpec();
        case _ =>
          run := true;
      }
      if run {
        wait := Ready;
      }
      if !old(hasCcs) && Turns(false, inbox0) <= old(Rest()) {
        Resolved(wait0, inbox0, enabled0, run);
      }
    }

    /** What was waited for is resolved by the script. */
    lemma {:induction false} Resolved(wait0: Wait, inbox0: seq<Item>, enabled0: bool, run: bool)
      requires Fixed() && At(state, wait0) && Vetted(s, state, passed) && !hasCcs && !wait0.Error?
      requires wait == if run then Ready else wait0
      requires Turns(false, inbox0) <= Todo(s, state, wait0.ReadChangeCipherSpec?)
      requires run <==> match wait0
                        case Flush => pending == []
                        case ReadMessage => inbox0 != []
                        case ReadChangeCipherSpec => ChangeCipherSpec in inbox0
                        case _ => true
      requires inbox == if wait0.ReadChangeCipherSpec? && run then Without(inbox0, Ahead(inbox0)) else inbox0
      requires enabled0 ==>
                 && !state.Done? && (wait0.Flush? ==> pending == [])
                 && (wait0.ReadMessage? || wait0.ReadChangeCipherSpec? || Reads(s, state) ==> inbox0 != [])
      ensures Valid() && Turns(false, inbox) <= Rest()
      ensures Followed(true, Todo(s, state, wait0.ReadChangeCipherSpec?), inbox0, pending, Rest(), inbox, pending)
      ensures (!run ==> inbox == inbox0) && (enabled0 ==> run && (Reads(s, state) ==> inbox != []))
    {
      hide Todo, Followed, Turns, Settled, Vetted;
      Nothing(true, inbox, pending, Rest());
      if wait0.ReadChangeCipherSpec? {
        Changed(inbox0);
      }
    }

    /** What has arrived is of the kind that is waited for. */
    lemma {:induction false} InScript()
      requires Valid()
      ensures Turns(false, inbox) <= Rest() && inbox != [] ==>
                && (wait.ReadMessage? ==> !inbox[0].ChangeCipherSpec?)
                && (wait.ReadChangeCipherSpec? ==> inbox[0].ChangeCipherSpec?)
    {
      hide From, Turns, Settled, Vetted;
      if Turns(false, inbox) <= Rest() { HeadOfAll(true, Rest(), inbox); }
      Unfold(s, AtServerChangeCipherSpec);
    }

    /** Where the script has a ChangeCipherSpec next, taking it follows the script. */
    lemma {:induction false} Changed(inbox0: seq<Item>)
      ensures Turns(false, inbox0) <= Todo(s, ProcessChangeCipherSpec, true) && inbox0 != [] ==>
                && Ahead(inbox0) == 0 && Turns(false, Without(inbox0, 0)) <= Todo(s, ProcessChangeCipherSpec, false)
                && Followed(true, Todo(s, ProcessChangeCipherSpec, true), inbox0, pending,
                            Todo(s, ProcessChangeCipherSpec, false), Without(inbox0, 0), pending)
    {
      hide From, Followed, Turns;
      Unfold(s, AtServerChangeCipherSpec);
      var todo0, todo := Todo(s, ProcessChangeCipherSpec, true), Todo(s, ProcessChangeCipherSpec, false);
      if Turns(false, inbox0) <= todo0 && inbox0 != [] {
        HeadOfAll(true, todo0, inbox0);
        assert Without(inbox0, 0) == inbox0[1..];
        TookOne(true, inbox0, pending, todo);
        HeadAfter(true, todo0, inbox0, pending, todo, inbox0[1..]);
      }
    }

    /** Which message is unexpected in which state, and which is taken to mean that the one looked for was left out. */
    ghost predicate Met(st: State, m: seq<Item>)
      reads this
    {
      m != [] && !m[0].ChangeCipherSpec? ==>
        match st
        case ReadHelloVerifyRequest =>
          !unexpected && (m[0].HelloVerifyRequest? || (state.ReadServerHello? && inbox == m))
        case ReadServerHello => unexpected <==> !m[0].ServerHello?
        case ReadServerCertificate => unexpected <==> s.certAuth && !m[0].Certificate?
        case ReadCertificateStatus =>
          !unexpected && (s.status && !m[0].CertificateStatus? ==> state.VerifyServerCertificate? && inbox == m)
        case ReadServerKeyExchange =>
          && (unexpected <==> if m[0].ServerKeyExchange? then s.kx.Rsa? else s.kx.Ecdhe?)
          && (!m[0].ServerKeyExchange? && !s.kx.Ecdhe? ==> state.ReadCertificateRequest? && inbox == m)
        case ReadCertificateRequest =>
          && (unexpected <==> s.certAuth && !m[0].CertificateRequest? && !m[0].ServerHelloDone?)
          && (s.certAuth && m[0].ServerHelloDone? ==> state.ReadServerHelloDone? && inbox == m)
        case ReadServerHelloDone => unexpected <==> !m[0].ServerHelloDone?
        case ReadSessionTicket => unexpected <==> s.ticket && !m[0].NewSessionTicket?
        case ReadServerFinished => unexpected <==> !m[0].Finished?
        case _ => !unexpected
    }

    /** One turn of ssl_client_handshake. */
    method Do(verdict: Verdict)
      requires Valid() && wait == Ready && !state.Done?
      modifies this`state, this`passed, this`wait, this`inbox, this`pending, this`unexpected, this`params,
               this`certRequest, this`finishedChecked
      ensures Stepped(old(state), old(inbox), old(pending), old(passed), verdict)
      ensures Met(old(state), old(inbox))
    {
      hide Todo, Followed, HeadAgrees, MessageNext;
      match state {
        case StartConnect => DoStartConnect(verdict);
        case EnterEarlyData => DoEnterEarlyData(verdict);
        case ReadHelloVerifyRequest => DoReadHelloVerifyRequest(verdict);
        case ReadServerHello => DoReadServerHello(verdict);
        case ReadServerCertificate => DoReadServerCertificate(verdict);
        case ReadCertificateStatus => DoReadCertificateStatus(verdict);
        case VerifyServerCertificate => DoVerifyServerCertificate(verdict);
        case ReadServerKeyExchange => DoReadServerKeyExchange(verdict);
        case ReadCertificateRequest => DoReadCertificateRequest(verdict);
        case ReadServerHelloDone => DoReadServerHelloDone(verdict);
        case SendClientCertificate => DoSendClientCertificate(verdict);
        case SendClientKeyExchange => DoSendClientKeyExchange(verdict);
        case SendClientCertificateVerify => DoSendClientCertificateVerify(verdict);
        case SendClientFinished => DoSendClientFinished(verdict);
        case FinishFlight => DoFinishFlight(verdict);
        case ReadSessionTicket => DoReadSessionTicket(verdict);
        case ProcessChangeCipherSpec => DoProcessChangeCipherSpec(verdict);
        case ReadServerFinished => DoReadServerFinished(verdict);
        case FinishClientHandshake => DoFinishClientHandshake(verdict);
      }
    }

    /** One step of the handshake, whatever the checks come to. As long as what arrives is the script, it is
        followed, no message is unexpected, and only a check that fails is an error. */
    method Step(verdict: Verdict)
      requires Valid() && !wait.Error? && !hasCcs && Turns(false, inbox) <= Rest()
      modifies this
      ensures Valid() && !hasCcs && (wait.Error? ==> verdict.Fail?)
      ensures passed == old(passed) || (passed == old(passed) + {old(state)} && !verdict.Fail?)
      ensures verdict.Fail? && old(Enabled()) && Checks(s, old(state)) ==> wait.Error?
      ensures !wait.Error? ==>
                && Followed(true, old(Rest()), old(inbox), old(pending), Rest(), inbox, pending)
                && |pending| <= |old(pending)| + 4 && Rank(state, s.resume) <= Rank(old(state), s.resume)
                && (Rank(state, s.resume) == Rank(old(state), s.resume) ==> pending == old(pending))
                && (old(Enabled()) && verdict.Pass? ==> Rank(state, s.resume) < Rank(old(state), s.resume))
    {
      hide Todo, Followed, Turns, Valid, Rank, HeadAgrees;
      Nothing(true, inbox, pending, Rest());
      if state.Done? {
        return;
      }
      ghost var todo0, inbox0, pending0 := Rest(), inbox, pending;
      var run := Resolve();
      if !run {
        return;
      }
      ghost var todo1, inbox1 := Rest(), inbox;
      HeadOfAll(true, todo1, inbox1);
      Do(verdict);
      if !wait.Error? {
        FollowedThen(true, todo0, inbox0, todo1, inbox1, pending0, Rest(), inbox, pending);
      }
    }
  }

  /** What is next in the script is not refused. */
  lemma {:induction false} Wanted(s: Setup, state: State)
    requires s.Supported()
    ensures HeadFits(s, state)
  {
    hide From;
    Unfold(s, PointOf(s, state, false));
    NotBack(s);
    Unfold(s, AtCertificateRequest);
    Unfold(s, AtServerHelloDone);
  }

  ghost predicate HeadFits(s: Setup, state: State)
  {
    var todo := Todo(s, state, false);
    todo != [] ==> !Refuses(s, state, todo[0].item)
  }
}
