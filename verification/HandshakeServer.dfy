/** The state machine of a TLS 1.0 to 1.2 server (handshake_server.cc). */
module HandshakeServer {
  import opened Bytes
  import opened HandshakeScript

  datatype State =
    | StartAccept
    | ReadClientHello
    | SelectCertificate
    | SelectParameters
    | SendServerHello
    | SendServerCertificate
    | SendServerKeyExchange
    | SendServerHelloDone
    | ReadClientCertificate
    | VerifyClientCertificate
    | ReadClientKeyExchange
    | ReadClientCertificateVerify
    | ReadingChangeCipherSpec
    | ProcessChangeCipherSpec
    | ReadNextProto
    | ReadChannelId
    | ReadClientFinished
    | SendServerFinished
    | FinishServerHandshake
    | Done

  /** Where in the script a server in this state is; ccs: the ChangeCipherSpec of the client is yet to come. */
  function PointOf(s: Setup, state: State, ccs: bool): Point
  {
    match state
    case StartAccept => Beginning
    case ReadClientHello => Beginning
    case SelectCertificate => Beginning
    case SelectParameters => Beginning
    case SendServerHello => AtServerHello
    case SendServerCertificate => AtCertificate
    case SendServerKeyExchange => AtServerKeyExchange
    case SendServerHelloDone => AtCertificateRequest
    case ReadClientCertificate => AtClientCertificate
    case VerifyClientCertificate => AtClientKeyExchange
    case ReadClientKeyExchange => AtClientKeyExchange
    case ReadClientCertificateVerify => AtCertificateVerify
    case ReadingChangeCipherSpec => AtClientChangeCipherSpec
    case ProcessChangeCipherSpec => if ccs then AtClientChangeCipherSpec else AtNextProto
    case ReadNextProto => AtNextProto
    case ReadChannelId => AtChannelId
    case ReadClientFinished => AtClientFinished
    case SendServerFinished => AtTicket
    case FinishServerHandshake => End
    case Done => End
  }

  /** What the script still has for a server in this state. */
  function Todo(s: Setup, state: State, ccs: bool): seq<Turn>
  {
    From(s, PointOf(s, state, ccs))
  }

  /** Steps from here to the end, at most. */
  function Rank(state: State, resume: bool): nat
  {
    match state
    case StartAccept => 20
    case ReadClientHello => 19
    case SelectCertificate => 18
    case SelectParameters => 17
    case SendServerHello => 16
    case SendServerCertificate => 15
    case SendServerKeyExchange => 14
    case SendServerHelloDone => 13
    case ReadClientCertificate => 12
    case VerifyClientCertificate => 11
    case ReadClientKeyExchange => 10
    case ReadClientCertificateVerify => 9
    case ReadingChangeCipherSpec => 8
    case ProcessChangeCipherSpec => 7
    case ReadNextProto => 6
    case ReadChannelId => 5
    case ReadClientFinished => 4
    case SendServerFinished => if resume then 15 else 3
    case FinishServerHandshake => 1
    case Done => 0
  }

  /** The parameters are not settled yet. */
  predicate Early(state: State)
  {
    state.StartAccept? || state.ReadClientHello? || state.SelectCertificate? || state.SelectParameters?
  }

  /** States of a full handshake only. */
  predicate FullOnly(state: State)
  {
    state.SendServerCertificate? || state.SendServerKeyExchange? || state.SendServerHelloDone?
    || state.ReadClientCertificate? || BehindCertificate(state)
  }

  /** The client's Certificate has been read, if there is one. */
  predicate BehindCertificate(state: State)
  {
    state.VerifyClientCertificate? || state.ReadClientKeyExchange? || state.ReadClientCertificateVerify?
  }

  /** The step in this state looks for a message. */
  predicate Reads(s: Setup, state: State)
  {
    match state
    case ReadClientHello => true
    case SelectCertificate => true
    case SelectParameters => true
    case ReadClientCertificate => s.RequestsCert()
    case ReadClientKeyExchange => true
    case ReadClientCertificateVerify => s.RequestsCert() && s.clientHasCert
    case ReadNextProto => s.npn
    case ReadChannelId => s.ChannelIdKept()
    case ReadClientFinished => true
    case _ => false
  }

  /** The step in this state has something to check. */
  predicate Checks(s: Setup, state: State)
  {
    match state
    case StartAccept => false
    case SendServerKeyExchange => s.SendsKeyExchange()
    case ReadClientCertificate => s.RequestsCert()
    case VerifyClientCertificate => s.RequestsCert() && s.clientHasCert
    case ReadClientCertificateVerify => s.RequestsCert() && s.clientHasCert
    case ReadingChangeCipherSpec => false
    case ReadNextProto => s.npn
    case ReadChannelId => s.ChannelIdKept()
    case Done => false
    case _ => true
  }

  /** In this state a message of another type than the step looks for is unexpected. */
  predicate Refuses(s: Setup, state: State, item: Item)
  {
    match state
    case ReadClientHello => !item.ClientHello?
    case ReadClientCertificate => s.RequestsCert() && !item.Certificate?
    case ReadClientKeyExchange => !item.ClientKeyExchange?
    case ReadClientCertificateVerify => s.RequestsCert() && s.clientHasCert && !item.CertificateVerify?
    case ReadNextProto => s.npn && !item.NextProto?
    case ReadChannelId => s.ChannelIdKept() && !item.ChannelId?
    case ReadClientFinished => !item.Finished?
    case _ => false
  }

  /** How often the peer's Finished has been checked. */
  function Checked(state: State, resume: bool): nat
  {
    if state.FinishServerHandshake? || state.Done? || (!resume && state.SendServerFinished?) then 1 else 0
  }

  /** What has been checked behind these states, as far as this state is behind them: the ClientHello; the key exchange
      of the client in a full handshake, its certificate and the proof that it has the key where it was asked for one
      and has one; the change of keys; the extra messages where they were negotiated; and the Finished of the client. */
  predicate Vetted(s: Setup, st: State, passed: set<State>)
  {
    var rank := Rank(st, s.resume);
    var asks := !s.resume && s.certAuth && s.verifyPeer && !(s.verifyPeerIfNoObc && s.channelIdOffered);
    var cert := asks && s.clientHasCert;
    && (rank < 19 ==> ReadClientHello in passed)
    && (rank < 18 ==> SelectCertificate in passed)
    && (rank < 17 ==> SelectParameters in passed)
    && (s.npn && rank < 6 ==> ReadNextProto in passed)
    && (s.channelIdOffered && s.kx.Ecdhe? && (s.resume ==> s.hashRecorded) && rank < 5 ==> ReadChannelId in passed)
    && (asks && rank < 12 ==> ReadClientCertificate in passed)
    && (cert && rank < 11 ==> VerifyClientCertificate in passed)
    && (!s.resume && rank < 10 ==> ReadClientKeyExchange in passed)
    && (cert && rank < 9 ==> ReadClientCertificateVerify in passed)
    && (rank < 7 ==> ProcessChangeCipherSpec in passed)
    && (rank < 4 ==> ReadClientFinished in passed)
  }

  /** The states that a state leads to. */
  predicate Next(s: Setup, st: State, st1: State)
  {
    match st
    case StartAccept => st1.ReadClientHello?
    case ReadClientHello => st1.SelectCertificate?
    case SelectCertificate => st1.SelectParameters?
    case SelectParameters => st1.SendServerHello?
    case SendServerHello => if s.resume then st1.SendServerFinished? else st1.SendServerCertificate?
    case SendServerCertificate => st1.SendServerKeyExchange?
    case SendServerKeyExchange => st1.SendServerHelloDone?
    case SendServerHelloDone => st1.ReadClientCertificate?
    case ReadClientCertificate => st1.VerifyClientCertificate?
    case VerifyClientCertificate => st1.ReadClientKeyExchange?
    case ReadClientKeyExchange => st1.ReadClientCertificateVerify?
    case ReadClientCertificateVerify => st1.ReadingChangeCipherSpec?
    case ReadingChangeCipherSpec => st1.ProcessChangeCipherSpec?
    case ProcessChangeCipherSpec => st1.ReadNextProto?
    case ReadNextProto => st1.ReadChannelId?
    case ReadChannelId => st1.ReadClientFinished?
    case ReadClientFinished => if s.resume then st1.FinishServerHandshake? else st1.SendServerFinished?
    case SendServerFinished => if s.resume then st1.ReadingChangeCipherSpec? else st1.FinishServerHandshake?
    case FinishServerHandshake => st1.Done?
    case Done => false
  }

  /** What is behind a state is checked. */
  lemma {:induction false} VettedOn(s: Setup, st: State, st1: State, passed: set<State>, verdict: Verdict)
    requires Vetted(s, st, passed)
    ensures Next(s, st, st1) && !(verdict.Fail? && Checks(s, st)) && (FullOnly(st) ==> !s.resume) ==>
              Vetted(s, st1, if verdict.Fail? then passed else passed + {st})
  {}

  class Server {
    /** What the server brings and what it settles on from the ClientHello; it does not look at clientHasCert. */
    const s: Setup
    var state: State
    var wait: Wait
    /** What has arrived and is not read yet, and what was added and is not yet flushed. */
    var inbox: seq<Item>
    var pending: seq<Item>
    var channelIdValid: bool
    var certRequest: bool
    var serverParams: bool
    /** The client's certificate is there. */
    var peerKey: bool
    /** With DTLS: a ChangeCipherSpec has arrived ahead of its time. */
    var hasCcs: bool
    /** A message that the state machine does not allow was met. */
    var unexpected: bool
    var finishedChecked: nat
    /** The states that were left by a step whose checks did not fail. */
    ghost var passed: set<State>

    ghost predicate Valid()
      reads this
    {
      Fixed() && At(state, wait) && Vetted(s, state, passed)
    }

    ghost predicate Fixed()
      reads this
    {
      s.Supported() && !unexpected && (hasCcs ==> s.dtls)
    }

    /** What has been settled is right for this state and this wait. */
    ghost predicate At(st: State, w: Wait)
      reads this`channelIdValid, this`certRequest, this`serverParams, this`peerKey, this`finishedChecked
    {
      && Settled(st)
      && (w.ReadMessage? ==> MessageNext(true, Todo(s, st, false)))
      && (w.ReadChangeCipherSpec? ==> st.ProcessChangeCipherSpec?)
    }

    ghost predicate Settled(st: State)
      reads this`channelIdValid, this`certRequest, this`serverParams, this`peerKey, this`finishedChecked
    {
      && channelIdValid == (if Early(st) || st.SendServerHello? then s.channelIdOffered else s.ChannelIdKept())
      && certRequest == (!Early(st) && s.RequestsCert())
      && (st.SendServerKeyExchange? ==> serverParams == s.SendsKeyExchange())
      && (FullOnly(st) ==> !s.resume)
      && (BehindCertificate(st) || Later(st) ==> !s.LacksCert())
      && peerKey == ((BehindCertificate(st) || Later(st)) && s.RequestsCert() && s.clientHasCert)
      && finishedChecked == Checked(st, s.resume)
    }

    /** Behind the client's key exchange, in a full handshake; in a resumption no certificate is requested. */
    ghost predicate Later(st: State)
    {
      !Early(st) && !FullOnly(st) && !st.SendServerHello?
    }

    ghost function Rest(): seq<Turn>
      reads this
    {
      Todo(s, state, wait.ReadChangeCipherSpec?)
    }

    constructor (setup: Setup)
      requires setup.Supported()
      ensures Valid() && s == setup && state == StartAccept && wait == Ready && inbox == [] && pending == []
      ensures finishedChecked == 0 && !hasCcs
    {
      s := setup;
      state, wait, inbox, pending := StartAccept, Ready, [], [];
      channelIdValid, certRequest, serverParams, peerKey := setup.channelIdOffered, false, false, false;
      hasCcs, unexpected, finishedChecked := false, false, 0;
      passed := {};
    }

    /** get_message: the message at hand, if it is one. */
    function Message(): Option<Item>
      reads this
    {
      if inbox != [] && !inbox[0].ChangeCipherSpec? then Some(inbox[0]) else None
    }

    ghost predicate Can(st: State)
      reads this
    {
      Valid() && state == st && wait == Ready
    }

    /** A message of another type than the step looks for, whatever it is, was unexpected. */
    ghost predicate Screened(st: State, inbox0: seq<Item>)
      reads this
    {
      && (unexpected <==> inbox0 != [] && !inbox0[0].ChangeCipherSpec? && Refuses(s, st, inbox0[0]))
      && (unexpected ==> wait.Error?)
    }

    /** A message of another type is unexpected. If what had arrived was next in the script, the step followed the
        script. Without an error it went forward, or it waits for a message that is not there, or it was asked to
        retry. */
    ghost predicate Stepped(st: State, inbox0: seq<Item>, pending0: seq<Item>, passed0: set<State>, verdict: Verdict)
      reads this
    {
      && Screened(st, inbox0) && Along(st, inbox0, pending0, verdict)
      && (passed == passed0 || (passed == passed0 + {st} && !verdict.Fail?))
    }

    ghost predicate Along(st: State, inbox0: seq<Item>, pending0: seq<Item>, verdict: Verdict)
      reads this
    {
      HeadAgrees(false, Todo(s, st, false), inbox0) ==>
      && Valid()
      && (wait.Error? ==> verdict.Fail? || s.LacksCert())
      && (verdict.Fail? && Checks(s, st) && (Reads(s, st) ==> inbox0 != []) ==> wait.Error?)
      && (s.LacksCert() && st.ReadClientCertificate? && inbox0 != [] ==> wait.Error?)
      && (!wait.Error? ==>
            && Followed(false, Todo(s, st, false), inbox0, pending0, Rest(), inbox, pending)
            && |pending| <= |pending0| + 4
            && (Rank(state, s.resume) < Rank(st, s.resume) ||
                (state == st && pending == pending0 && if wait.ReadMessage? then inbox0 == [] && Reads(s, st)
                                                       else verdict.Retry?)))
    }

    // ---- Outcomes that all steps share ----

    /** Nothing at hand is refused or passed over. */
    ghost predicate Accepts(st: State)
      reads this
    {
      Message().Some? ==> !Refuses(s, st, inbox[0])
    }

    /** Looks for a message. Without one the machine waits. */
    method Await(st: State, ghost verdict: Verdict) returns (have: bool)
      requires Can(st) && Reads(s, st) && ClientSpeaks(s, PointOf(s, st, false))
      modifies this`wait
      ensures have <==> Message().Some?
      ensures if have then Can(st) else Stepped(st, inbox, pending, passed, verdict)
    {
      hide From, Followed, Turns, Rank, Checks, Settled, Vetted, Refuses;
      SpeaksNext(s, PointOf(s, st, false));
      Nothing(false, inbox, pending, Todo(s, st, false));
      have := Message().Some?;
      if !have {
        wait := ReadMessage;
      }
    }

    /** A message of a type that is not allowed here. */
    method Refuse(st: State, ghost verdict: Verdict)
      requires Can(st) && Message().Some? && Refuses(s, st, inbox[0])
      modifies this`wait, this`unexpected
      ensures Stepped(st, inbox, pending, passed, verdict)
    {
      hide From, Followed, Turns, Rank, Checks, Reads, Settled, Vetted;
      Wanted(s, st);
      wait, unexpected := Error, true;
    }

    /** A check or a callback has failed, or what has arrived is not of the script. */
    method Fail(st: State, ghost verdict: Verdict)
      requires Can(st) && Accepts(st)
      requires HeadAgrees(false, Todo(s, st, false), inbox) ==> verdict.Fail? || s.LacksCert()
      modifies this`wait
      ensures Stepped(st, inbox, pending, passed, verdict) && wait.Error?
    {
      hide Todo, Followed, Turns, Rank, Checks, Reads, Vetted, Refuses, HeadAgrees;
      wait := Error;
    }

    /** A callback asks to be called again. */
    method Pause(st: State, ghost verdict: Verdict)
      requires Can(st) && Accepts(st) && verdict.Retry? && !(st.ReadClientCertificate? && s.LacksCert())
      modifies this`wait
      ensures Stepped(st, inbox, pending, passed, verdict)
    {
      hide Todo, Followed, Turns, Rank, Checks, Reads, Vetted, Refuses, HeadAgrees;
      Nothing(false, inbox, pending, Todo(s, st, false));
      wait := Paused;
    }

    /** The states left without a failed check, when this one is left. */
    ghost function Behind(st: State, verdict: Verdict): set<State>
      reads this`passed
    {
      if verdict.Fail? then passed else passed + {st}
    }

    /** Where the step leads, with what it reads and sends, as long as what arrived is of the script. */
    ghost predicate Leads(st: State, taken: seq<Turn>, sent: seq<Item>, st1: State, w: Wait, verdict: Verdict)
      reads this
    {
      HeadAgrees(false, Todo(s, st, false), inbox) ==>
        && At(st1, w) && Next(s, st, st1) && !w.Error? && !w.ReadMessage?
        && |sent| <= 4 && Rank(st1, s.resume) < Rank(st, s.resume)
        && Todo(s, st, false) == taken + (Turns(false, sent) + Todo(s, st1, w.ReadChangeCipherSpec?))
        && !(verdict.Fail? && Checks(s, st)) && !(s.LacksCert() && st.ReadClientCertificate?)
    }

    /** The step goes on without a message. */
    method Go(st: State, st1: State, w: Wait, ghost verdict: Verdict)
      requires (FullOnly(st) ==> !s.resume) && Fixed() && Vetted(s, st, passed) && wait == Ready
      requires Leads(st, [], [], st1, w, verdict)
      requires Message().Some? ==> !Refuses(s, st, inbox[0])
      modifies this`state, this`wait, this`passed
      ensures Stepped(st, inbox, pending, old(passed), verdict) && state == st1 && wait == w
    {
      hide Todo, Followed, Turns, Rank, Checks, Reads, Vetted, Next, FullOnly, Refuses, At, HeadAgrees;
      VettedOn(s, st, st1, passed, verdict);
      NoTurns(false, Todo(s, st1, w.ReadChangeCipherSpec?));
      Nothing(false, inbox, pending, Todo(s, st, false));
      state, wait, passed := st1, w, Behind(st, verdict);
    }

    /** The step has used the message at hand. */
    method Take(st: State, st1: State, w: Wait, ghost verdict: Verdict)
      requires (FullOnly(st) ==> !s.resume) && Fixed() && Vetted(s, st, passed) && wait == Ready
      requires Message().Some? && Accepts(st)
      requires Leads(st, [Turn(true, inbox[0])], [], st1, w, verdict)
      modifies this`state, this`wait, this`inbox, this`passed
      ensures Stepped(st, old(inbox), pending, old(passed), verdict) && state == st1 && wait == w
    {
      hide Todo, Followed, Turns, Rank, Checks, Reads, Vetted, Next, FullOnly, Refuses, At, HeadAgrees;
      VettedOn(s, st, st1, passed, verdict);
      NoTurns(false, Todo(s, st1, w.ReadChangeCipherSpec?));
      TookOne(false, inbox, pending, Todo(s, st1, w.ReadChangeCipherSpec?));
      inbox := inbox[1..];
      state, wait, passed := st1, w, Behind(st, verdict);
    }

    /** The step adds messages to the flight. */
    method Send(st: State, items: seq<Item>, st1: State, w: Wait, ghost verdict: Verdict)
      requires (FullOnly(st) ==> !s.resume) && Fixed() && Vetted(s, st, passed) && wait == Ready
      requires Accepts(st) && Leads(st, [], items, st1, w, verdict)
      modifies this`state, this`wait, this`pending, this`passed
      ensures Stepped(st, inbox, old(pending), old(passed), verdict) && state == st1 && wait == w
    {
      hide Todo, Followed, Turns, Rank, Checks, Reads, Vetted, Next, FullOnly, Refuses, At, HeadAgrees;
      VettedOn(s, st, st1, passed, verdict);
      var todo := Todo(s, st1, w.ReadChangeCipherSpec?);
      assert [] + (Turns(false, items) + todo) == Turns(false, items) + todo;
      SentSome(false, inbox, pending, items, todo);
      pending := pending + items;
      state, wait, passed := st1, w, Behind(st, verdict);
    }

    // ---- The state functions ----

    method DoStartAccept(ghost verdict: Verdict)
      requires Can(StartAccept)
      modifies this`state, this`passed, this`wait
      ensures Stepped(StartAccept, old(inbox), old(pending), old(passed), verdict)
    {
      hide From, Turns, Stepped, Vetted;
      NoTurns(false, From(s, Beginning));
      Go(StartAccept, ReadClientHello, Ready, verdict);
    }

    method DoReadClientHello(verdict: Verdict)
      requires Can(ReadClientHello)
      modifies this`state, this`passed, this`wait, this`unexpected
      ensures Stepped(ReadClientHello, old(inbox), old(pending), old(passed), verdict)
    {
      hide From, Turns, Stepped, Vetted;
      NoTurns(false, From(s, Beginning));
      var have := Await(ReadClientHello, verdict);
      if !have {
        return;
      }
      if !inbox[0].ClientHello? {
        Refuse(ReadClientHello, verdict);
        return;
      }
      if verdict.Fail? {
        Fail(ReadClientHello, verdict);
        return;
      }
      if verdict.Retry? {
        Pause(ReadClientHello, verdict);
        return;
      }
      // The message stays at hand.
      Go(ReadClientHello, SelectCertificate, Ready, verdict);
    }

    method DoSelectCertificate(verdict: Verdict)
      requires Can(SelectCertificate)
      modifies this`state, this`passed, this`wait
      ensures Stepped(SelectCertificate, old(inbox), old(pending), old(passed), verdict)
    {
      hide From, Turns, Stepped, Vetted;
      NoTurns(false, From(s, Beginning));
      var have := Await(SelectCertificate, verdict);
      if !have {
        return;
      }
      if verdict.Fail? {
        Fail(SelectCertificate, verdict);
        return;
      }
      if verdict.Retry? {
        Pause(SelectCertificate, verdict);
        return;
      }
      Go(SelectCertificate, SelectParameters, Ready, verdict);
    }

    method DoSelectParameters(verdict: Verdict)
      requires Can(SelectParameters)
      modifies this`state, this`passed, this`wait, this`inbox, this`certRequest
      ensures Stepped(SelectParameters, old(inbox), old(pending), old(passed), verdict)
    {
      hide From, Turns, Stepped, Vetted;
      Unfold(s, Beginning);
      NoTurns(false, From(s, AtServerHello));
      var have := Await(SelectParameters, verdict);
      if !have {
        return;
      }
      if verdict.Fail? {
        Fail(SelectParameters, verdict);
        return;
      }
      if verdict.Retry? {
        Pause(SelectParameters, verdict);
        return;
      }
      if !s.resume {
        certRequest := s.verifyPeer;
        if s.verifyPeerIfNoObc && channelIdValid {
          certRequest := false;
        }
        if !s.certAuth {
          certRequest := false;
        }
      }
      Take(SelectParameters, SendServerHello, Ready, verdict);
    }

    method DoSendServerHello(verdict: Verdict)
      requires Can(SendServerHello)
      modifies this`state, this`passed, this`wait, this`pending, this`channelIdValid
      ensures Stepped(SendServerHello, old(inbox), old(pending), old(passed), verdict)
    {
      hide From, Turns, Stepped, Vetted;
      Unfold(s, AtServerHello);
      if verdict.Fail? {
        Fail(SendServerHello, verdict);
        return;
      }
      if channelIdValid && !s.kx.Ecdhe? {
        channelIdValid := false;
      }
      if s.resume && !s.hashRecorded {
        channelIdValid := false;
      }
      var hello := ServerHello(Params(s.kx, s.certAuth, s.resume, s.ticket, s.status, s.npn, channelIdValid));
      assert hello.params == s.Agreed();
      TurnsOne(false, hello);
      Send(SendServerHello, [hello], if s.resume then SendServerFinished else SendServerCertificate, Ready, verdict);
    }

    method DoSendServerCertificate(verdict: Verdict)
      requires Can(SendServerCertificate)
      modifies this`state, this`passed, this`wait, this`pending, this`serverParams
      ensures Stepped(SendServerCertificate, old(inbox), old(pending), old(passed), verdict)
    {
      hide From, Turns, Stepped, Vetted;
      if verdict.Fail? {
        Fail(SendServerCertificate, verdict);
        return;
      }
      var messages := Certificates();
      CertificatesSent(s, messages);
      serverParams := s.kx.Ecdhe? || (!s.certAuth && s.pskHint);
      Send(SendServerCertificate, messages, SendServerKeyExchange, Ready, verdict);
    }

    method Certificates() returns (messages: seq<Item>)
      ensures messages == if s.certAuth then [Certificate(true)] + IfSo(s.status, CertificateStatus) else []
      ensures |messages| <= 2
    {
      messages := [];
      if s.certAuth {
        messages := [Certificate(true)];
        if s.status {
          messages := messages + [CertificateStatus];
        }
      }
    }

    method DoSendServerKeyExchange(verdict: Verdict)
      requires Can(SendServerKeyExchange)
      modifies this`state, this`passed, this`wait, this`pending, this`serverParams
      ensures Stepped(SendServerKeyExchange, old(inbox), old(pending), old(passed), verdict)
    {
      hide From, Turns, Stepped, Vetted;
      Unfold(s, AtServerKeyExchange);
      NoTurns(false, From(s, AtCertificateRequest));
      TurnsOne(false, ServerKeyExchange);
      if !serverParams {
        Go(SendServerKeyExchange, SendServerHelloDone, Ready, verdict);
        return;
      }
      if verdict.Fail? {
        Fail(SendServerKeyExchange, verdict);
        return;
      }
      if verdict.Retry? {
        Pause(SendServerKeyExchange, verdict);
        return;
      }
      serverParams := false;
      Send(SendServerKeyExchange, [ServerKeyExchange], SendServerHelloDone, Ready, verdict);
    }

    method DoSendServerHelloDone(verdict: Verdict)
      requires Can(SendServerHelloDone)
      modifies this`state, this`passed, this`wait, this`pending
      ensures Stepped(SendServerHelloDone, old(inbox), old(pending), old(passed), verdict)
    {
      hide From, Turns, Stepped, Vetted;
      if verdict.Fail? {
        Fail(SendServerHelloDone, verdict);
        return;
      }
      var messages := [];
      if certRequest {
        messages := [CertificateRequest];
      }
      messages := messages + [ServerHelloDone];
      DoneSent(s, messages);
      Send(SendServerHelloDone, messages, ReadClientCertificate, Flush, verdict);
    }

    method DoReadClientCertificate(verdict: Verdict)
      requires Can(ReadClientCertificate)
      modifies this`state, this`passed, this`wait, this`inbox, this`unexpected, this`peerKey
      ensures Stepped(ReadClientCertificate, old(inbox), old(pending), old(passed), verdict)
      ensures s.RequestsCert() && old(inbox) != [] && old(inbox)[0].Certificate? ==>
                (wait.Error? <==> verdict.Fail? || (!old(inbox)[0].nonEmpty && s.requirePeerCert))
    {
      hide From, Turns, Stepped, Vetted;
      Unfold(s, AtClientCertificate);
      NoTurns(false, From(s, AtClientKeyExchange));
      if !certRequest {
        Go(ReadClientCertificate, VerifyClientCertificate, Ready, verdict);
        return;
      }
      var have := Await(ReadClientCertificate, verdict);
      if !have {
        return;
      }
      if !inbox[0].Certificate? {
        Refuse(ReadClientCertificate, verdict);
        return;
      }
      if verdict.Fail? || (!inbox[0].nonEmpty && s.requirePeerCert) {
        Fail(ReadClientCertificate, verdict);
        return;
      }
      peerKey := inbox[0].nonEmpty;
      Take(ReadClientCertificate, VerifyClientCertificate, Ready, verdict);
    }

    method DoVerifyClientCertificate(verdict: Verdict)
      requires Can(VerifyClientCertificate)
      modifies this`state, this`passed, this`wait
      ensures Stepped(VerifyClientCertificate, old(inbox), old(pending), old(passed), verdict)
    {
      hide From, Turns, Stepped, Vetted;
      NoTurns(false, From(s, AtClientKeyExchange));
      if peerKey && verdict.Fail? {
        Fail(VerifyClientCertificate, verdict);
        return;
      }
      if peerKey && verdict.Retry? {
        Pause(VerifyClientCertificate, verdict);
        return;
      }
      Go(VerifyClientCertificate, ReadClientKeyExchange, Ready, verdict);
    }

    method DoReadClientKeyExchange(verdict: Verdict)
      requires Can(ReadClientKeyExchange)
      modifies this`state, this`passed, this`wait, this`inbox, this`unexpected
      ensures Stepped(ReadClientKeyExchange, old(inbox), old(pending), old(passed), verdict)
    {
      hide From, Turns, Stepped, Vetted;
      Unfold(s, AtClientKeyExchange);
      NoTurns(false, From(s, AtCertificateVerify));
      var have := Await(ReadClientKeyExchange, verdict);
      if !have {
        return;
      }
      if !inbox[0].ClientKeyExchange? {
        Refuse(ReadClientKeyExchange, verdict);
        return;
      }
      if verdict.Fail? {
        Fail(ReadClientKeyExchange, verdict);
        return;
      }
      if verdict.Retry? {
        Pause(ReadClientKeyExchange, verdict);
        return;
      }
      Take(ReadClientKeyExchange, ReadClientCertificateVerify, Ready, verdict);
    }

    method DoReadClientCertificateVerify(verdict: Verdict)
      requires Can(ReadClientCertificateVerify)
      modifies this`state, this`passed, this`wait, this`inbox, this`unexpected
      ensures Stepped(ReadClientCertificateVerify, old(inbox), old(pending), old(passed), verdict)
    {
      hide From, Turns, Stepped, Vetted;
      Unfold(s, AtCertificateVerify);
      NoTurns(false, From(s, AtClientChangeCipherSpec));
      if !peerKey {
        Go(ReadClientCertificateVerify, ReadingChangeCipherSpec, Ready, verdict);
        return;
      }
      var have := Await(ReadClientCertificateVerify, verdict);
      if !have {
        return;
      }
      if !inbox[0].CertificateVerify? {
        Refuse(ReadClientCertificateVerify, verdict);
        return;
      }
      if verdict.Fail? {
        Fail(ReadClientCertificateVerify, verdict);
        return;
      }
      Take(ReadClientCertificateVerify, ReadingChangeCipherSpec, Ready, verdict);
    }

    method DoReadChangeCipherSpec(ghost verdict: Verdict)
      requires Can(ReadingChangeCipherSpec)
      modifies this`state, this`passed, this`wait
      ensures Stepped(ReadingChangeCipherSpec, old(inbox), old(pending), old(passed), verdict)
    {
      hide From, Turns, Stepped, Vetted;
      NoTurns(false, From(s, AtClientChangeCipherSpec));
      Go(ReadingChangeCipherSpec, ProcessChangeCipherSpec, ReadChangeCipherSpec, verdict);
    }

    method DoProcessChangeCipherSpec(verdict: Verdict)
      requires Can(ProcessChangeCipherSpec)
      modifies this`state, this`passed, this`wait
      ensures Stepped(ProcessChangeCipherSpec, old(inbox), old(pending), old(passed), verdict)
    {
      hide From, Turns, Stepped, Vetted;
      NoTurns(false, From(s, AtNextProto));
      if verdict.Fail? {
        Fail(ProcessChangeCipherSpec, verdict);
        return;
      }
      Go(ProcessChangeCipherSpec, ReadNextProto, Ready, verdict);
    }

    method DoReadNextProto(verdict: Verdict)
      requires Can(ReadNextProto)
      modifies this`state, this`passed, this`wait, this`inbox, this`unexpected
      ensures Stepped(ReadNextProto, old(inbox), old(pending), old(passed), verdict)
    {
      hide From, Turns, Stepped, Vetted;
      Unfold(s, AtNextProto);
      NoTurns(false, From(s, AtChannelId));
      if !s.npn {
        Go(ReadNextProto, ReadChannelId, Ready, verdict);
        return;
      }
      var have := Await(ReadNextProto, verdict);
      if !have {
        return;
      }
      if !inbox[0].NextProto? {
        Refuse(ReadNextProto, verdict);
        return;
      }
      if verdict.Fail? {
        Fail(ReadNextProto, verdict);
        return;
      }
      Take(ReadNextProto, ReadChannelId, Ready, verdict);
    }

    method DoReadChannelId(verdict: Verdict)
      requires Can(ReadChannelId)
      modifies this`state, this`passed, this`wait, this`inbox, this`unexpected
      ensures Stepped(ReadChannelId, old(inbox), old(pending), old(passed), verdict)
    {
      hide From, Turns, Stepped, Vetted;
      Unfold(s, AtChannelId);
      NoTurns(false, From(s, AtClientFinished));
      if !channelIdValid {
        Go(ReadChannelId, ReadClientFinished, Ready, verdict);
        return;
      }
      var have := Await(ReadChannelId, verdict);
      if !have {
        return;
      }
      if !inbox[0].ChannelId? {
        Refuse(ReadChannelId, verdict);
        return;
      }
      if verdict.Fail? {
        Fail(ReadChannelId, verdict);
        return;
      }
      Take(ReadChannelId, ReadClientFinished, Ready, verdict);
    }

    method DoReadClientFinished(verdict: Verdict)
      requires Can(ReadClientFinished)
      modifies this`state, this`passed, this`wait, this`inbox, this`unexpected, this`finishedChecked
      ensures Stepped(ReadClientFinished, old(inbox), old(pending), old(passed), verdict)
    {
      hide From, Turns, Stepped, Vetted;
      Unfold(s, AtClientFinished);
      NoTurns(false, From(s, AfterClient(s)));
      var have := Await(ReadClientFinished, verdict);
      if !have {
        return;
      }
      if !inbox[0].Finished? {
        Refuse(ReadClientFinished, verdict);
        return;
      }
      if verdict.Fail? {
        Fail(ReadClientFinished, verdict);
        return;
      }
      finishedChecked := finishedChecked + 1;
      Take(ReadClientFinished, if s.resume then FinishServerHandshake else SendServerFinished, Ready, verdict);
    }

    method DoSendServerFinished(verdict: Verdict)
      requires Can(SendServerFinished)
      modifies this`state, this`passed, this`wait, this`pending
      ensures Stepped(SendServerFinished, old(inbox), old(pending), old(passed), verdict)
    {
      hide From, Turns, Stepped, Vetted;
      ServerLastInScript(s);
      if verdict.Fail? {
        Fail(SendServerFinished, verdict);
        return;
      }
      var flight := LastFlight();
      Send(SendServerFinished, flight, if s.resume then ReadingChangeCipherSpec else FinishServerHandshake, Flush,
           verdict);
    }

    method LastFlight() returns (flight: seq<Item>)
      ensures flight == ServerLast(s.Agreed()) && |flight| <= 3
    {
      flight := [];
      if s.ticket {
        flight := [NewSessionTicket];
      }
      flight := flight + [ChangeCipherSpec];
      flight := flight + [Finished];
    }

    method DoFinishServerHandshake(verdict: Verdict)
      requires Can(FinishServerHandshake)
      modifies this`state, this`passed, this`wait
      ensures Stepped(FinishServerHandshake, old(inbox), old(pending), old(passed), verdict)
    {
      hide From, Turns, Stepped, Vetted;
      NoTurns(false, From(s, End));
      if verdict.Fail? {
        Fail(FinishServerHandshake, verdict);
        return;
      }
      Go(FinishServerHandshake, Done, Ready, verdict);
    }

    /** Nothing keeps the machine from going on. */
    ghost predicate Enabled()
      reads this
    {
      !state.Done? && !wait.Error? && (wait.Flush? ==> pending == [])
      && (wait.ReadMessage? || wait.ReadChangeCipherSpec? || Reads(s, state) ==> inbox != [])
    }

    /** ssl_open_handshake. A ChangeCipherSpec is unexpected, but with DTLS it is flagged for later. */
    method OpenHandshake() returns (run: bool)
      requires Fixed() && wait.ReadMessage?
      modifies this`wait, this`inbox, this`unexpected, this`hasCcs
      ensures unexpected <==> !s.dtls && old(inbox) != [] && old(inbox)[0].ChangeCipherSpec?
      ensures if unexpected then wait.Error? && !run && !hasCcs && inbox == old(inbox)
              else
                && wait == old(wait) && (run <==> old(inbox) != [])
                && (hasCcs <==> old(hasCcs) || (run && old(inbox)[0].ChangeCipherSpec?))
                && inbox == if run && old(inbox)[0].ChangeCipherSpec? then old(inbox)[1..] else old(inbox)
    {
      run := inbox != [];
      if run && inbox[0].ChangeCipherSpec? {
        if !s.dtls {
          wait, unexpected := Error, true;
          return false;
        }
        hasCcs, inbox := true, inbox[1..];
      }
    }

    /** ssl_open_change_cipher_spec. A message is unexpected, but with DTLS messages ahead of the ChangeCipherSpec are
        kept, and one that was flagged before will do. */
    method OpenChangeCipherSpec() returns (run: bool)
      requires Fixed() && wait.ReadChangeCipherSpec?
      modifies this`wait, this`inbox, this`unexpected, this`hasCcs
      ensures unexpected <==> !s.dtls && old(inbox) != [] && !old(inbox)[0].ChangeCipherSpec?
      ensures !hasCcs
      ensures if unexpected then wait.Error? && !run && inbox == old(inbox)
              else
                && wait == old(wait) && (run <==> old(hasCcs) || ChangeCipherSpec in old(inbox))
                && inbox == if old(hasCcs) || !run then old(inbox) else Without(old(inbox), Ahead(old(inbox)))
    {
      if hasCcs {
        hasCcs := false;
        return true;
      }
      var k := Ahead(inbox);
      if !s.dtls && inbox != [] && k != 0 {
        wait, unexpected := Error, true;
        return false;
      }
      run := k < |inbox|;
      if run {
        inbox := Without(inbox, k);
      }
    }

    /** ssl_run_handshake: resolves what the machine waits for, if it can be resolved. As long as what arrives is the
        script, it is followed. */
    method Resolve() returns (run: bool)
      requires Valid() && !wait.Error?
      modifies this`wait, this`inbox, this`unexpected, this`hasCcs
      ensures unexpected <==> !s.dtls && old(inbox) != [] &&
                              if old(inbox)[0].ChangeCipherSpec? then old(wait).ReadMessage?
                              else old(wait).ReadChangeCipherSpec?
      ensures unexpected ==> wait.Error? && !run
      ensures !unexpected ==>
                && wait == (if run then Ready else old(wait))
                && (run <==> match old(wait)
                             case Flush => pending == []
                             case ReadMessage => old(inbox) != []
                             case ReadChangeCipherSpec => old(hasCcs) || ChangeCipherSpec in old(inbox)
                             case _ => true)
      ensures !old(hasCcs) && Turns(true, old(inbox)) <= old(Rest()) ==>
                && !hasCcs && !unexpected && Valid() && Turns(true, inbox) <= Rest()
                && Followed(false, old(Rest()), old(inbox), pending, Rest(), inbox, pending)
                && (!run ==> inbox == old(inbox)) && (old(Enabled()) ==> run && (Reads(s, state) ==> inbox != []))
    {
      hide Todo, Followed, Turns, Settled, Vetted, At, MessageNext, Ahead, Without;
      InScript();
      ghost var wait0, inbox0, enabled0 := wait, inbox, Enabled();
      match wait {
        case Flush =>
          run := pending == [];
        case ReadMessage =>
          run := OpenHandshake();
        case ReadChangeCipherSpec =>
          run := OpenChangeCipherSpec();
        case _ =>
          run := true;
      }
      if run {
        wait := Ready;
      }
      if !old(hasCcs) && Turns(true, inbox0) <= old(Rest()) {
        Resolved(wait0, inbox0, enabled0, run);
      }
    }

    /** What was waited for is resolved by the script. */
    lemma {:induction false} Resolved(wait0: Wait, inbox0: seq<Item>, enabled0: bool, run: bool)
      requires Fixed() && At(state, wait0) && Vetted(s, state, passed) && !hasCcs && !wait0.Error?
      requires wait == if run then Ready else wait0
      requires Turns(true, inbox0) <= Todo(s, state, wait0.ReadChangeCipherSpec?)
      requires run <==> match wait0
                        case Flush => pending == []
                        case ReadMessage => inbox0 != []
                        case ReadChangeCipherSpec => ChangeCipherSpec in inbox0
                        case _ => true
      requires inbox == if wait0.ReadChangeCipherSpec? && run then Without(inbox0, Ahead(inbox0)) else inbox0
      requires enabled0 ==>
                 && !state.Done? && (wait0.Flush? ==> pending == [])
                 && (wait0.ReadMessage? || wait0.ReadChangeCipherSpec? || Reads(s, state) ==> inbox0 != [])
      ensures Valid() && Turns(true, inbox) <= Rest()
      ensures Followed(false, Todo(s, state, wait0.ReadChangeCipherSpec?), inbox0, pending, Rest(), inbox, pending)
      ensures (!run ==> inbox == inbox0) && (enabled0 ==> run && (Reads(s, state) ==> inbox != []))
    {
      hide Todo, Followed, Turns, Settled, Vetted;
      Nothing(false, inbox, pending, Rest());
      if wait0.ReadChangeCipherSpec? {
        Changed(inbox0);
      }
    }

    /** What has arrived is of the kind that is waited for. */
    lemma {:induction false} InScript()
      requires Valid()
      ensures Turns(true, inbox) <= Rest() && inbox != [] ==>
                && (wait.ReadMessage? ==> !inbox[0].ChangeCipherSpec?)
                && (wait.ReadChangeCipherSpec? ==> inbox[0].ChangeCipherSpec?)
    {
      hide From, Turns, Settled, Vetted;
      if Turns(true, inbox) <= Rest() { HeadOfAll(false, Rest(), inbox); }
      Unfold(s, AtClientChangeCipherSpec);
    }

    /** Where the script has a ChangeCipherSpec next, taking it follows the script. */
    lemma {:induction false} Changed(inbox0: seq<Item>)
      ensures Turns(true, inbox0) <= Todo(s, ProcessChangeCipherSpec, true) && inbox0 != [] ==>
                && Ahead(inbox0) == 0 && Turns(true, Without(inbox0, 0)) <= Todo(s, ProcessChangeCipherSpec, false)
                && Followed(false, Todo(s, ProcessChangeCipherSpec, true), inbox0, pending,
                            Todo(s, ProcessChangeCipherSpec, false), Without(inbox0, 0), pending)
    {
      hide From, Followed, Turns;
      Unfold(s, AtClientChangeCipherSpec);
      var todo0, todo := Todo(s, ProcessChangeCipherSpec, true), Todo(s, ProcessChangeCipherSpec, false);
      if Turns(true, inbox0) <= todo0 && inbox0 != [] {
        HeadOfAll(false, todo0, inbox0);
        assert Without(inbox0, 0) == inbox0[1..];
        TookOne(false, inbox0, pending, todo);
        HeadAfter(false, todo0, inbox0, pending, todo, inbox0[1..]);
      }
    }

    /** Which message is unexpected in which state. */
    ghost predicate Met(st: State, m: seq<Item>)
      reads this
    {
      var asks := !s.resume && s.certAuth && s.verifyPeer && !(s.verifyPeerIfNoObc && s.channelIdOffered);
      m != [] && !m[0].ChangeCipherSpec? ==>
        match st
        case ReadClientHello => unexpected <==> !m[0].ClientHello?
        case ReadClientCertificate => unexpected <==> asks && !m[0].Certificate?
        case ReadClientKeyExchange => unexpected <==> !m[0].ClientKeyExchange?
        case ReadClientCertificateVerify => unexpected <==> asks && s.clientHasCert && !m[0].CertificateVerify?
        case ReadNextProto => unexpected <==> s.npn && !m[0].NextProto?
        case ReadChannelId =>
          unexpected <==>
            s.channelIdOffered && s.kx.Ecdhe? && (s.resume ==> s.hashRecorded) && !m[0].ChannelId?
        case ReadClientFinished => unexpected <==> !m[0].Finished?
        case _ => !unexpected
    }

    /** One turn of ssl_server_handshake. */
    method Do(verdict: Verdict)
      requires Valid() && wait == Ready && !state.Done?
      modifies this`state, this`passed, this`wait, this`inbox, this`pending, this`unexpected,
               this`channelIdValid, this`certRequest, this`serverParams, this`peerKey, this`finishedChecked
      ensures Stepped(old(state), old(inbox), old(pending), old(passed), verdict)
      ensures Met(old(state), old(inbox))
    {
      hide Todo, Followed, HeadAgrees, MessageNext;
      match state {
        case StartAccept => DoStartAccept(verdict);
        case ReadClientHello => DoReadClientHello(verdict);
        case SelectCertificate => DoSelectCertificate(verdict);
        case SelectParameters => DoSelectParameters(verdict);
        case SendServerHello => DoSendServerHello(verdict);
        case SendServerCertificate => DoSendServerCertificate(verdict);
        case SendServerKeyExchange => DoSendServerKeyExchange(verdict);
        case SendServerHelloDone => DoSendServerHelloDone(verdict);
        case ReadClientCertificate => DoReadClientCertificate(verdict);
        case VerifyClientCertificate => DoVerifyClientCertificate(verdict);
        case ReadClientKeyExchange => DoReadClientKeyExchange(verdict);
        case ReadClientCertificateVerify => DoReadClientCertificateVerify(verdict);
        case ReadingChangeCipherSpec => DoReadChangeCipherSpec(verdict);
        case ProcessChangeCipherSpec => DoProcessChangeCipherSpec(verdict);
        case ReadNextProto => DoReadNextProto(verdict);
        case ReadChannelId => DoReadChannelId(verdict);
        case ReadClientFinished => DoReadClientFinished(verdict);
        case SendServerFinished => DoSendServerFinished(verdict);
        case FinishServerHandshake => DoFinishServerHandshake(verdict);
      }
    }

    /** One step of the handshake, whatever the checks come to. As long as what arrives is the script, it is
        followed, no message is unexpected, and only a check that fails is an error. */
    method Step(verdict: Verdict)
      requires Valid() && !wait.Error? && !hasCcs && Turns(true, inbox) <= Rest()
      modifies this
      ensures Valid() && !hasCcs && (wait.Error? ==> verdict.Fail? || s.LacksCert())
      ensures passed == old(passed) || (passed == old(passed) + {old(state)} && !verdict.Fail?)
      ensures verdict.Fail? && old(Enabled()) && Checks(s, old(state)) ==> wait.Error?
      ensures !wait.Error? ==>
                && Followed(false, old(Rest()), old(inbox), old(pending), Rest(), inbox, pending)
                && |pending| <= |old(pending)| + 4 && Rank(state, s.resume) <= Rank(old(state), s.resume)
                && (Rank(state, s.resume) == Rank(old(state), s.resume) ==> pending == old(pending))
                && (old(Enabled()) && verdict.Pass? ==> Rank(state, s.resume) < Rank(old(state), s.resume))
    {
      hide Todo, Followed, Turns, Valid, Rank, HeadAgrees;
      Nothing(false, inbox, pending, Rest());
      if state.Done? {
        return;
      }
      ghost var todo0, inbox0, pending0 := Rest(), inbox, pending;
      var run := Resolve();
      if !run {
        return;
      }
      ghost var todo1, inbox1 := Rest(), inbox;
      HeadOfAll(false, todo1, inbox1);
      Do(verdict);
      if !wait.Error? {
        FollowedThen(false, todo0, inbox0, todo1, inbox1, pending0, Rest(), inbox, pending);
      }
    }
  }

  lemma {:induction false} CertificatesSent(s: Setup, sent: seq<Item>)
    requires sent == if s.certAuth then [Certificate(true)] + IfSo(s.status, CertificateStatus) else []
    ensures From(s, AtCertificate) == Turns(false, sent) + From(s, AtServerKeyExchange)
  {
    hide From;
    Unfold(s, AtCertificate);
    Unfold(s, AtStatus);
  }

  /** What is next in the script is not refused. */
  lemma {:induction false} Wanted(s: Setup, state: State)
    ensures HeadFits(s, state)
  {
    hide From;
    Unfold(s, PointOf(s, state, false));
  }

  ghost predicate HeadFits(s: Setup, state: State)
  {
    var todo := Todo(s, state, false);
    todo != [] ==> !Refuses(s, state, todo[0].item)
  }

  lemma {:induction false} DoneSent(s: Setup, sent: seq<Item>)
    requires sent == IfSo(s.RequestsCert(), CertificateRequest) + [ServerHelloDone]
    ensures From(s, AtCertificateRequest) == Turns(false, sent) + From(s, AtClientCertificate)
  {
    hide From;
    Unfold(s, AtCertificateRequest);
    Unfold(s, AtServerHelloDone);
  }
}
