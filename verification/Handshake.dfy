/** A TLS 1.0 to 1.2 client and server over a reliable FIFO in each direction. */
module Handshake {
  import opened HandshakeScript
  import C = HandshakeClient
  import S = HandshakeServer

  /** Who checked the other's Finished. */
  datatype Role = ClientChecked | ServerChecked

  /** One step of a side, with what its checks come to, or the next n messages of a pending flight arriving. */
  datatype Event =
    | ClientStep(verdict: Verdict)
    | ServerStep(verdict: Verdict)
    | ClientFlush(n: nat)
    | ServerFlush(n: nat)

  /** Either only messages of the client are under way, and they are what the server has next until it is where the
      client is; or the other way round. */
  ghost predicate UnderWay(todoC: seq<Turn>, inC: seq<Item>, outC: seq<Item>, todoS: seq<Turn>, inS: seq<Item>,
                           outS: seq<Item>)
  {
    || (inC == [] && outS == [] && todoS == Turns(true, inS + outC) + todoC)
    || (inS == [] && outC == [] && todoC == Turns(false, inC + outS) + todoS)
  }

  lemma {:induction false} Arriving(todoC: seq<Turn>, inC: seq<Item>, outC: seq<Item>, todoS: seq<Turn>,
                                    inS: seq<Item>, outS: seq<Item>)
    requires UnderWay(todoC, inC, outC, todoS, inS, outS)
    ensures Turns(false, inC) <= todoC && Turns(true, inS) <= todoS
  {
    assert Turns(true, inS) == Turns(true, inS + outC)[..|inS|];
    assert Turns(false, inC) == Turns(false, inC + outS)[..|inC|];
  }

  /** A step of the client that follows the script keeps it so. */
  lemma {:induction false} ClientFollowed(todo0: seq<Turn>, in0: seq<Item>, out0: seq<Item>, todo: seq<Turn>,
                                          in1: seq<Item>, out: seq<Item>,
                                          todoS: seq<Turn>, inS: seq<Item>, outS: seq<Item>)
    requires UnderWay(todo0, in0, out0, todoS, inS, outS) && Followed(true, todo0, in0, out0, todo, in1, out)
    ensures UnderWay(todo, in1, out, todoS, inS, outS)
  {
    var taken, sent := in0[..|in0| - |in1|], out[|out0|..];
    assert out == out0 + sent && in0 == taken + in1;
    if in0 == [] && outS == [] && todoS == Turns(true, inS + out0) + todo0 {
      assert taken == [] && Turns(false, taken) == [];
      assert inS + out == (inS + out0) + sent;
      assert Turns(true, inS + out) == Turns(true, inS + out0) + Turns(true, sent);
      assert Turns(true, inS + out) + todo == todoS;
    } else {
      TakenThenSent(false, taken, in1, outS, sent, todo, todoS);
    }
  }

  lemma {:induction false} OneSideFirst(peer: bool, a: seq<Item>, x: seq<Turn>, b: seq<Item>, y: seq<Turn>)
    requires Turns(!peer, a) + x == Turns(peer, b) + y
    ensures a == [] || b == []
  {
    var l, r := Turns(!peer, a) + x, Turns(peer, b) + y;
    assert a != [] ==> l[0].fromClient == !peer;
    assert b != [] ==> r[0].fromClient == peer;
  }

  /** While messages of the peer are under way, they are taken and nothing is sent. */
  lemma {:induction false} TakenThenSent(peer: bool, taken: seq<Item>, left: seq<Item>, out: seq<Item>, sent: seq<Item>,
                                         todo: seq<Turn>, todoPeer: seq<Turn>)
    requires Turns(peer, taken) + Turns(!peer, sent) + todo == Turns(peer, taken + left + out) + todoPeer
    ensures Turns(!peer, sent) + todo == Turns(peer, left + out) + todoPeer
    ensures sent != [] ==> left == [] && out == [] && todoPeer == Turns(!peer, sent) + todo
    ensures sent == [] ==> todo == Turns(peer, left + out) + todoPeer
  {
    var n := |taken|;
    var all := Turns(peer, taken) + Turns(!peer, sent) + todo;
    assert taken + left + out == taken + (left + out);
    assert Turns(peer, taken + (left + out)) == Turns(peer, taken) + Turns(peer, left + out);
    assert all == Turns(peer, taken) + (Turns(!peer, sent) + todo);
    assert all == Turns(peer, taken) + (Turns(peer, left + out) + todoPeer);
    assert all[n..] == Turns(!peer, sent) + todo;
    assert all[n..] == Turns(peer, left + out) + todoPeer;
    OneSideFirst(peer, sent, todo, left + out, todoPeer);
    if sent != [] {
      assert Turns(peer, []) + todoPeer == todoPeer;
    } else {
      assert Turns(!peer, sent) == [] && [] + todo == todo;
    }
  }

  lemma {:induction false} ServerFollowed(todo0: seq<Turn>, in0: seq<Item>, out0: seq<Item>, todo: seq<Turn>,
                                          in1: seq<Item>, out: seq<Item>,
                                          todoC: seq<Turn>, inC: seq<Item>, outC: seq<Item>)
    requires UnderWay(todoC, inC, outC, todo0, in0, out0) && Followed(false, todo0, in0, out0, todo, in1, out)
    ensures UnderWay(todoC, inC, outC, todo, in1, out)
  {
    var taken, sent := in0[..|in0| - |in1|], out[|out0|..];
    assert out == out0 + sent && in0 == taken + in1;
    if in0 == [] && outC == [] && todoC == Turns(false, inC + out0) + todo0 {
      assert taken == [] && Turns(true, taken) == [];
      assert inC + out == (inC + out0) + sent;
      assert Turns(false, inC + out) == Turns(false, inC + out0) + Turns(false, sent);
      assert Turns(false, inC + out) + todo == todoC;
    } else {
      TakenThenSent(true, taken, in1, outC, sent, todo, todoC);
    }
  }

  // ---- What has been said ----

  /** What has been said, and what the side that is ahead has left, are the script. */
  ghost predicate Told(said: seq<Turn>, a: seq<Turn>, b: seq<Turn>, script: seq<Turn>)
  {
    (|a| <= |b| ==> said + a == script) && (|b| <= |a| ==> said + b == script)
  }

  /** A side that is ahead says more. */
  lemma {:induction false} AheadSays(said: seq<Turn>, script: seq<Turn>, todo0: seq<Turn>, sent: seq<Turn>,
                                     todo: seq<Turn>, between: seq<Turn>, other: seq<Turn>)
    requires Told(said, todo0, other, script) && other == between + todo0 && todo0 == sent + todo
    ensures Told(said + sent, todo, other, script)
  {
    assert said + sent + todo == said + todo0;
    if |other| <= |todo| { assert other == todo && said + sent == said; }
  }

  /** A side that is behind says nothing, or all that the other has still to read. */
  lemma {:induction false} BehindSays(said: seq<Turn>, script: seq<Turn>, todo0: seq<Turn>, sent: seq<Turn>,
                                      todo: seq<Turn>, between0: seq<Turn>, between: seq<Turn>, other: seq<Turn>)
    requires Told(said, todo0, other, script) && todo0 == between0 + other
    requires if sent == [] then todo == between + other else other == sent + todo
    ensures Told(said + sent, todo, other, script)
  {
    if sent == [] {
      assert said + sent == said;
      if |todo| <= |other| { assert todo == other; }
    } else {
      assert said + sent + todo == said + other;
    }
  }

  lemma {:induction false} ClientTold(said: seq<Turn>, script: seq<Turn>, todo0: seq<Turn>, in0: seq<Item>,
                                      out0: seq<Item>, todo: seq<Turn>, in1: seq<Item>, out: seq<Item>,
                                      todoS: seq<Turn>, inS: seq<Item>, outS: seq<Item>)
    requires UnderWay(todo0, in0, out0, todoS, inS, outS) && Followed(true, todo0, in0, out0, todo, in1, out)
    requires Told(said, todo0, todoS, script)
    ensures |out0| <= |out| && Told(said + Turns(true, out[|out0|..]), todo, todoS, script)
  {
    hide Told;
    var taken, sent := in0[..|in0| - |in1|], out[|out0|..];
    assert in0 == taken + in1;
    if in0 == [] && outS == [] && todoS == Turns(true, inS + out0) + todo0 {
      assert taken == [] && Turns(false, taken) == [] && [] + Turns(true, sent) == Turns(true, sent);
      AheadSays(said, script, todo0, Turns(true, sent), todo, Turns(true, inS + out0), todoS);
    } else {
      TakenThenSent(false, taken, in1, outS, sent, todo, todoS);
      BehindSays(said, script, todo0, Turns(true, sent), todo, Turns(false, in0 + outS), Turns(false, in1 + outS),
                 todoS);
    }
  }

  lemma {:induction false} ServerTold(said: seq<Turn>, script: seq<Turn>, todo0: seq<Turn>, in0: seq<Item>,
                                      out0: seq<Item>, todo: seq<Turn>, in1: seq<Item>, out: seq<Item>,
                                      todoC: seq<Turn>, inC: seq<Item>, outC: seq<Item>)
    requires UnderWay(todoC, inC, outC, todo0, in0, out0) && Followed(false, todo0, in0, out0, todo, in1, out)
    requires Told(said, todoC, todo0, script)
    ensures |out0| <= |out| && Told(said + Turns(false, out[|out0|..]), todoC, todo, script)
  {
    hide Told;
    var taken, sent := in0[..|in0| - |in1|], out[|out0|..];
    assert in0 == taken + in1;
    ToldBoth(said, todoC, todo0, script);
    ToldBoth(said + Turns(false, sent), todo, todoC, script);
    if in0 == [] && outC == [] && todoC == Turns(false, inC + out0) + todo0 {
      assert taken == [] && Turns(true, taken) == [] && [] + Turns(false, sent) == Turns(false, sent);
      AheadSays(said, script, todo0, Turns(false, sent), todo, Turns(false, inC + out0), todoC);
    } else {
      TakenThenSent(true, taken, in1, outC, sent, todo, todoC);
      BehindSays(said, script, todo0, Turns(false, sent), todo, Turns(true, in0 + outC), Turns(true, in1 + outC),
                 todoC);
    }
  }

  lemma {:induction false} ToldPrefix(said: seq<Turn>, a: seq<Turn>, b: seq<Turn>, script: seq<Turn>)
    requires Told(said, a, b, script)
    ensures said <= script
  {}

  lemma {:induction false} ToldBoth(said: seq<Turn>, a: seq<Turn>, b: seq<Turn>, script: seq<Turn>)
    ensures Told(said, a, b, script) == Told(said, b, a, script)
  {}

  // ---- The end of the script ----

  function FinalTurn(s: Setup): Turn
  {
    Turn(s.resume, Finished)
  }

  ghost predicate EndsFinal(s: Setup, todo: seq<Turn>)
  {
    todo != [] ==> todo[|todo| - 1] == FinalTurn(s)
  }

  /** Something is left before the end, and it ends with the Finished of the side that is last: in a full handshake
      the server, in a resumption the client. */
  lemma {:induction false} AllEndFinal(s: Setup, p: Point)
    ensures EndsFinal(s, From(s, p)) && (From(s, p) == [] <==> p.End?)
    decreases Distance(s, p)
  {
    hide From;
    Unfold(s, p);
    if !p.End? {
      AllEndFinal(s, After(s, p));
    }
  }

  /** Nothing is left exactly at the end; in a resumption also while the client flushes its last flight. */
  lemma {:induction false} ClientNothingLeft(s: Setup, state: C.State, ccs: bool)
    requires C.Todo(s, state, ccs) == []
    ensures state.Done? || state.FinishClientHandshake? || (s.resume && state.FinishFlight?)
  {
    hide From;
    AllEndFinal(s, C.PointOf(s, state, ccs));
  }

  lemma {:induction false} ServerNothingLeft(s: Setup, state: S.State, ccs: bool)
    requires S.Todo(s, state, ccs) == []
    ensures state.Done? || state.FinishServerHandshake?
  {
    hide From;
    AllEndFinal(s, S.PointOf(s, state, ccs));
  }

  // ---- Both sides ----

  class Session {
    const client: C.Client
    const server: S.Server
    /** The order in which the Finished messages were checked. */
    var order: seq<Role>
    /** The messages of both sides, in the order in which they were added to the flights. */
    var said: seq<Turn>

    ghost predicate Valid()
      reads this, client, server
    {
      && client.Valid() && server.Valid() && client.s == server.s && !client.hasCcs && !server.hasCcs
      && said <= From(client.s, Beginning)
      && (Alive() ==>
            && Told(said, client.Rest(), server.Rest(), From(client.s, Beginning))
            && UnderWay(client.Rest(), client.inbox, client.pending, server.Rest(), server.inbox, server.pending)
            && order == Order(client.s, client.finishedChecked, server.finishedChecked))
    }

    /** No side has met an error. */
    ghost predicate Alive()
      reads client, server
    {
      !client.wait.Error? && !server.wait.Error?
    }

    ghost predicate BothDone()
      reads client, server
    {
      client.state.Done? && server.state.Done?
    }

    constructor (s: Setup)
      requires s.Supported()
      ensures Valid() && Alive() && fresh(client) && fresh(server) && client.s == s && server.s == s && order == []
      ensures said == []
      ensures client.state.StartConnect? && server.state.StartAccept? && client.pending == [] && server.pending == []
    {
      client := new C.Client(s, s.clientHasCert, s.dtls, s.falseStart);
      server := new S.Server(s);
      order, said := [], [];
      new;
      assert [] + client.Rest() == client.Rest();
      assert Turns(true, []) + client.Rest() == client.Rest();
    }

    /** n messages of the client's flight arrive. */
    method ClientFlush(n: nat)
      requires Valid() && Alive()
      modifies client`pending, server`inbox
      ensures Valid() && Alive()
      ensures var k := if n <= |old(client.pending)| then n else |old(client.pending)|;
        client.pending == old(client.pending)[k..] && server.inbox == old(server.inbox) + old(client.pending)[..k]
    {
      hide UnderWay, C.Todo, S.Todo;
      var k := if n <= |client.pending| then n else |client.pending|;
      Shifted(client.Rest(), client.inbox, client.pending, server.Rest(), server.inbox, server.pending, k);
      server.inbox := server.inbox + client.pending[..k];
      client.pending := client.pending[k..];
    }

    /** n messages of the server's flight arrive. */
    method ServerFlush(n: nat)
      requires Valid() && Alive()
      modifies server`pending, client`inbox
      ensures Valid() && Alive()
      ensures var k := if n <= |old(server.pending)| then n else |old(server.pending)|;
        server.pending == old(server.pending)[k..] && client.inbox == old(client.inbox) + old(server.pending)[..k]
    {
      hide UnderWay, C.Todo, S.Todo;
      var k := if n <= |server.pending| then n else |server.pending|;
      Shifted(client.Rest(), client.inbox, client.pending, server.Rest(), server.inbox, server.pending, k);
      client.inbox := client.inbox + server.pending[..k];
      server.pending := server.pending[k..];
    }

    /** The side that checks last has the other's check behind it. */
    lemma {:induction false} CheckedInOrder()
      requires client.Valid() && server.Valid() && client.s == server.s
      requires UnderWay(client.Rest(), client.inbox, client.pending, server.Rest(), server.inbox, server.pending)
      ensures !client.s.resume && client.finishedChecked > 0 ==> server.finishedChecked > 0
      ensures client.s.resume && server.finishedChecked > 0 ==> client.finishedChecked > 0
    {
      hide From;
      var s, rc, rs := client.s, client.Rest(), server.Rest();
      AllEndFinal(s, C.PointOf(s, client.state, client.wait.ReadChangeCipherSpec?));
      AllEndFinal(s, S.PointOf(s, server.state, server.wait.ReadChangeCipherSpec?));
      if !s.resume && client.finishedChecked > 0 {
        ClientEnd(s, client.state);
        LastIsTheirs(rc, client.inbox, client.pending, rs, server.inbox, server.pending);
        ServerNothingLeft(s, server.state, server.wait.ReadChangeCipherSpec?);
      } else if s.resume && server.finishedChecked > 0 {
        ServerEnd(s, server.state);
        LastIsTheirs(rc, client.inbox, client.pending, rs, server.inbox, server.pending);
        ClientNothingLeft(s, client.state, client.wait.ReadChangeCipherSpec?);
      }
    }

    /** The client makes a step: no message is unexpected, and only a check that fails is an error. */
    method ClientStep(verdict: Verdict)
      requires Valid() && Alive()
      modifies this, client
      ensures Valid() && (Alive() || verdict.Fail?)
      ensures client.passed == old(client.passed) ||
              (client.passed == old(client.passed) + {old(client.state)} && !verdict.Fail?)
      ensures verdict.Fail? && old(client.Enabled()) && C.Checks(client.s, old(client.state)) ==> !Alive()
      ensures Alive() ==>
                && C.Rank(client.state, client.s.resume) <= C.Rank(old(client.state), client.s.resume)
                && |client.pending| <= |old(client.pending)| + 4
                && (C.Rank(client.state, client.s.resume) == C.Rank(old(client.state), client.s.resume) ==>
                      client.pending == old(client.pending))
                && (old(client.Enabled()) && verdict.Pass? ==>
                      C.Rank(client.state, client.s.resume) < C.Rank(old(client.state), client.s.resume))
    {
      hide UnderWay, C.Todo, S.Todo, Followed, C.Rank, C.Checked, S.Checked, Told, From, Turns, C.Client.Enabled;
      ghost var todo0, in0, out0, was := client.Rest(), client.inbox, client.pending, client.state;
      Arriving(todo0, in0, out0, server.Rest(), server.inbox, server.pending);
      CheckedInOrder();
      var before, sofar := client.finishedChecked, |client.pending|;
      client.Step(verdict);
      if client.finishedChecked > before {
        order := order + [ClientChecked];
      }
      if !client.wait.Error? {
        ClientTold(said, From(client.s, Beginning), todo0, in0, out0, client.Rest(), client.inbox, client.pending,
                   server.Rest(), server.inbox, server.pending);
        said := said + Turns(true, client.pending[sofar..]);
        ToldPrefix(said, client.Rest(), server.Rest(), From(client.s, Beginning));
        ClientFollowed(todo0, in0, out0, client.Rest(), client.inbox, client.pending, server.Rest(), server.inbox,
                       server.pending);
        CheckedInOrder();
        ClientCheckedOnce(client.s, was, client.state);
        ServerCheckedOnce(server.s, server.state, server.state);
        OrderGrows(client.s, before, server.finishedChecked, client.finishedChecked, server.finishedChecked);
      }
    }

    /** The server makes a step: no message is unexpected, and only a check that fails, or a client certificate
        that the server insists on and does not get, is an error. */
    method ServerStep(verdict: Verdict)
      requires Valid() && Alive()
      modifies this, server
      ensures Valid() && (Alive() || verdict.Fail? || server.s.LacksCert())
      ensures server.passed == old(server.passed) ||
              (server.passed == old(server.passed) + {old(server.state)} && !verdict.Fail?)
      ensures verdict.Fail? && old(server.Enabled()) && S.Checks(server.s, old(server.state)) ==> !Alive()
      ensures Alive() ==>
                && S.Rank(server.state, server.s.resume) <= S.Rank(old(server.state), server.s.resume)
                && |server.pending| <= |old(server.pending)| + 4
                && (S.Rank(server.state, server.s.resume) == S.Rank(old(server.state), server.s.resume) ==>
                      server.pending == old(server.pending))
                && (old(server.Enabled()) && verdict.Pass? ==>
                      S.Rank(server.state, server.s.resume) < S.Rank(old(server.state), server.s.resume))
    {
      hide UnderWay, C.Todo, S.Todo, Followed, S.Rank, C.Checked, S.Checked, Told, From, Turns, S.Server.Enabled;
      ghost var todo0, in0, out0, was := server.Rest(), server.inbox, server.pending, server.state;
      Arriving(client.Rest(), client.inbox, client.pending, todo0, in0, out0);
      CheckedInOrder();
      var before, sofar := server.finishedChecked, |server.pending|;
      server.Step(verdict);
      if server.finishedChecked > before {
        order := order + [ServerChecked];
      }
      if !server.wait.Error? {
        ServerTold(said, From(client.s, Beginning), todo0, in0, out0, server.Rest(), server.inbox, server.pending,
                   client.Rest(), client.inbox, client.pending);
        said := said + Turns(false, server.pending[sofar..]);
        ToldPrefix(said, client.Rest(), server.Rest(), From(client.s, Beginning));
        ServerFollowed(todo0, in0, out0, server.Rest(), server.inbox, server.pending, client.Rest(), client.inbox,
                       client.pending);
        CheckedInOrder();
        ServerCheckedOnce(server.s, was, server.state);
        ClientCheckedOnce(client.s, client.state, client.state);
        OrderGrows(client.s, client.finishedChecked, before, client.finishedChecked, server.finishedChecked);
      }
    }

    /** No reachable state is a deadlock: unless both sides are done, a flight can arrive or a side can go on. */
    lemma {:induction false} NoDeadlock()
      requires Valid() && Alive() && !BothDone()
      ensures client.pending != [] || server.pending != [] || client.Enabled() || server.Enabled()
    {
      hide C.Todo, S.Todo, C.Client.Valid, S.Server.Valid, C.Client.Enabled, S.Server.Enabled;
      ClientStuck(client);
      ServerStuck(server);
      Arriving(client.Rest(), client.inbox, client.pending, server.Rest(), server.inbox, server.pending);
      NotBothWait(client.Rest(), client.inbox, client.pending, server.Rest(), server.inbox, server.pending);
    }

    /** What both sides have still to do, at most. */
    ghost function Left(): nat
      reads this, client, server
    {
      10 * (C.Rank(client.state, client.s.resume) + S.Rank(server.state, server.s.resume)) + |client.pending| +
          |server.pending|
    }

    /** Everything that can be done is done, once: both flights arrive, and both sides make a step. */
    method Round()
      requires Valid() && Alive() && !BothDone() && !server.s.LacksCert()
      modifies this, client, server
      ensures Valid() && Alive() && Left() < old(Left())
    {
      hide C.Todo, S.Todo, C.Rank, S.Rank, UnderWay, Order, C.Client.Valid, S.Server.Valid;
      NoDeadlock();
      ghost var idle := client.pending == [] && server.pending == [];
      ClientFlush(|client.pending|);
      ServerFlush(|server.pending|);
      ghost var enabled := client.Enabled();
      ClientStep(Pass);
      ServerStep(Pass);
    }
  }

  lemma {:induction false} ClientCheckedOnce(s: Setup, before: C.State, after: C.State)
    requires C.Rank(after, s.resume) <= C.Rank(before, s.resume)
    ensures C.Checked(before, s.resume) <= C.Checked(after, s.resume) <= 1
  {
    assert C.Checked(before, s.resume) == 1 <==> C.Rank(before, s.resume) <= if s.resume then 3 else 1;
    assert C.Checked(after, s.resume) == 1 <==> C.Rank(after, s.resume) <= if s.resume then 3 else 1;
  }

  lemma {:induction false} ServerCheckedOnce(s: Setup, before: S.State, after: S.State)
    requires S.Rank(after, s.resume) <= S.Rank(before, s.resume)
    ensures S.Checked(before, s.resume) <= S.Checked(after, s.resume) <= 1
  {
    assert S.Checked(before, s.resume) == 1 <==> S.Rank(before, s.resume) <= if s.resume then 1 else 3;
    assert S.Checked(after, s.resume) == 1 <==> S.Rank(after, s.resume) <= if s.resume then 1 else 3;
  }

  /** A check that is made is the next in the order. */
  lemma {:induction false} OrderGrows(s: Setup, c0: nat, s0: nat, c1: nat, s1: nat)
    requires c0 <= c1 <= 1 && s0 <= s1 <= 1 && (c0 == c1 || s0 == s1)
    requires if s.resume then (s0 > 0 ==> c0 > 0) && (s1 > 0 ==> c1 > 0) else (c0 > 0 ==> s0 > 0) && (c1 > 0 ==> s1 > 0)
    ensures Order(s, c1, s1) == Order(s, c0, s0) + (if c1 > c0 then [ClientChecked] else []) +
            (if s1 > s0 then [ServerChecked] else [])
  {}

  lemma {:induction false} ClientEnd(s: Setup, state: C.State)
    requires !s.resume && C.Checked(state, false) > 0
    ensures C.Todo(s, state, false) == [] && C.Todo(s, state, true) == []
  {
    hide From;
    Unfold(s, End);
  }

  lemma {:induction false} ServerEnd(s: Setup, state: S.State)
    requires s.resume && S.Checked(state, true) > 0
    ensures S.Todo(s, state, false) == [] && S.Todo(s, state, true) == []
  {
    hide From;
    Unfold(s, End);
  }

  /** If one side has nothing left, what is left for the other is what the one sent, which cannot be the other's
      own Finished. */
  lemma {:induction false} LastIsTheirs(todoC: seq<Turn>, inC: seq<Item>, outC: seq<Item>, todoS: seq<Turn>,
                                        inS: seq<Item>, outS: seq<Item>)
    requires UnderWay(todoC, inC, outC, todoS, inS, outS)
    ensures todoC == [] && todoS != [] ==> todoS[|todoS| - 1].fromClient
    ensures todoS == [] && todoC != [] ==> !todoC[|todoC| - 1].fromClient
  {}

  /** In a full handshake the server checks first, in a resumption the client. */
  function Order(s: Setup, byClient: nat, byServer: nat): seq<Role>
  {
    if s.resume then (if byClient > 0 then [ClientChecked] else []) + (if byServer > 0 then [ServerChecked] else [])
    else (if byServer > 0 then [ServerChecked] else []) + (if byClient > 0 then [ClientChecked] else [])
  }

  lemma {:induction false} Shifted(todoC: seq<Turn>, inC: seq<Item>, outC: seq<Item>, todoS: seq<Turn>, inS: seq<Item>,
                                   outS: seq<Item>, k: nat)
    requires UnderWay(todoC, inC, outC, todoS, inS, outS)
    ensures k <= |outC| ==> UnderWay(todoC, inC, outC[k..], todoS, inS + outC[..k], outS)
    ensures k <= |outS| ==> UnderWay(todoC, inC + outS[..k], outC, todoS, inS, outS[k..])
  {
    if k <= |outC| {
      assert inS + outC[..k] + outC[k..] == inS + outC;
      if outC == [] { assert outC[..k] == [] && inS + [] == inS; }
    }
    if k <= |outS| {
      assert inC + outS[..k] + outS[k..] == inC + outS;
      if outS == [] { assert outS[..k] == [] && inC + [] == inC; }
    }
  }

  /** A side that cannot go on although its flight is out is done, or waits for the other side. */
  ghost predicate Waits(done: bool, todo: seq<Turn>, inbox: seq<Item>, peer: bool)
  {
    if done then todo == [] else inbox == [] && todo != [] && todo[0].fromClient == peer
  }

  lemma {:induction false} NotBothWait(todoC: seq<Turn>, inC: seq<Item>, outC: seq<Item>, todoS: seq<Turn>,
                                       inS: seq<Item>, outS: seq<Item>)
    requires UnderWay(todoC, inC, outC, todoS, inS, outS)
    ensures outC == [] && outS == [] ==>
      forall doneC, doneS :: Waits(doneC, todoC, inC, false) && Waits(doneS, todoS, inS, true) ==> doneC && doneS
  {
    assert inC + [] == inC && inS + [] == inS;
  }

  lemma {:induction false} ClientStuck(c: C.Client)
    requires c.Valid() && !c.wait.Error?
    ensures c.pending == [] && !c.Enabled() ==> Waits(c.state.Done?, c.Rest(), c.inbox, false)
  {
    hide From;
    Unfold(c.s, AtServerChangeCipherSpec);
    SpeaksNext(c.s, C.PointOf(c.s, c.state, false));
    AllEndFinal(c.s, End);
  }

  lemma {:induction false} ServerStuck(v: S.Server)
    requires v.Valid() && !v.wait.Error?
    ensures v.pending == [] && !v.Enabled() ==> Waits(v.state.Done?, v.Rest(), v.inbox, true)
  {
    hide From;
    Unfold(v.s, AtClientChangeCipherSpec);
    SpeaksNext(v.s, S.PointOf(v.s, v.state, false));
    AllEndFinal(v.s, End);
  }

  // ---- Whole runs ----

  predicate FailsCheck(e: Event)
  {
    (e.ClientStep? || e.ServerStep?) && e.verdict.Fail?
  }

  function FinalOrder(s: Setup): seq<Role>
  {
    if s.resume then [ClientChecked, ServerChecked] else [ServerChecked, ClientChecked]
  }

  lemma {:induction false} DoneOrder(session: Session)
    requires session.Valid() && session.Alive() && session.BothDone()
    ensures session.order == FinalOrder(session.client.s) && !session.client.s.LacksCert()
  {
    hide C.Todo, S.Todo, UnderWay;
  }

  /** Whatever the schedule of steps and arrivals, and whatever the checks come to: no side meets an unexpected
      message; only a check that fails ends the run with an error; and when both are done each has checked the
      other's Finished once, the client's being first in a full handshake and the server's in a resumption. That does
      not happen where the server insists on a certificate and the client has none. */
  method Run(s: Setup, schedule: seq<Event>)
    returns (alive: bool, unexpected: bool, done: bool, order: seq<Role>, said: seq<Turn>,
             ghost byClient: set<C.State>, ghost byServer: set<S.State>)
    requires s.Supported()
    ensures !unexpected
    ensures || alive || (Asks(s) && s.requirePeerCert && !s.clientHasCert)
            || exists i :: 0 <= i < |schedule| && FailsCheck(schedule[i])
    ensures alive && done ==> order == FinalOrder(s) && !(Asks(s) && s.requirePeerCert && !s.clientHasCert)
    ensures said <= Flow(s) && (alive && done ==> said == Flow(s))
    ensures Turn(false, CertificateRequest) in said ==>
              !s.resume && s.certAuth && s.verifyPeer && !(s.verifyPeerIfNoObc && s.channelIdOffered)
    ensures forall t :: AboutCert(t) && t in said && t.fromClient ==>
                          !s.resume && s.certAuth && s.verifyPeer && !(s.verifyPeerIfNoObc && s.channelIdOffered)
    ensures alive && done ==>
              (Turn(false, CertificateRequest) in said <==>
                 !s.resume && s.certAuth && s.verifyPeer && !(s.verifyPeerIfNoObc && s.channelIdOffered))
    ensures alive && done ==> ClientVetted(s, byClient) && ServerVetted(s, byServer)
  {
    hide Session.Valid, Order;
    var session := new Session(s);
    var n := 0;
    alive := true;
    while alive && n < |schedule|
      invariant n <= |schedule| && session.Valid() && fresh(session) && fresh(session.client) && fresh(session.server)
      invariant session.client.s == s && session.server.s == s
      invariant alive ==> session.Alive()
      invariant alive || s.LacksCert() || exists i :: 0 <= i < |schedule| && FailsCheck(schedule[i])
    {
      match schedule[n] {
        case ClientStep(verdict) => session.ClientStep(verdict);
        case ServerStep(verdict) => session.ServerStep(verdict);
        case ClientFlush(k) => session.ClientFlush(k);
        case ServerFlush(k) => session.ServerFlush(k);
      }
      assert session.Alive() || s.LacksCert() || FailsCheck(schedule[n]);
      alive := !session.client.wait.Error? && !session.server.wait.Error?;
      n := n + 1;
    }
    NothingUnexpected(session);
    unexpected := session.client.unexpected || session.server.unexpected;
    done := session.client.state.Done? && session.server.state.Done?;
    order, said := session.order, session.said;
    byClient, byServer := session.client.passed, session.server.passed;
    SaidInFlow(session);
    SaidOfCerts(s, said);
    if alive && done {
      AllVetted(session);
      DoneOrder(session);
    }
  }

  /** Every state in which the client checks a message that the server has to send was left by a step whose checks did
      not fail. */
  predicate ClientVetted(s: Setup, passed: set<C.State>)
  {
    && {C.ReadServerHello, C.ProcessChangeCipherSpec, C.ReadServerFinished} <= passed
    && (!s.resume ==> C.ReadServerHelloDone in passed) && (s.ticket ==> C.ReadSessionTicket in passed)
    && (!s.resume && s.certAuth ==> {C.ReadServerCertificate, C.VerifyServerCertificate} <= passed)
    && (!s.resume && (s.kx.Ecdhe? || (!s.certAuth && s.pskHint)) ==> C.ReadServerKeyExchange in passed)
    && (!s.resume && s.certAuth && s.verifyPeer && !(s.verifyPeerIfNoObc && s.channelIdOffered) ==>
          C.ReadCertificateRequest in passed)
  }

  /** And every one in which the server checks a message that the client has to send. */
  predicate ServerVetted(s: Setup, passed: set<S.State>)
  {
    && {S.ReadClientHello, S.SelectCertificate, S.SelectParameters} <= passed
    && {S.ProcessChangeCipherSpec, S.ReadClientFinished} <= passed
    && (!s.resume ==> S.ReadClientKeyExchange in passed) && (s.npn ==> S.ReadNextProto in passed)
    && (s.channelIdOffered && s.kx.Ecdhe? && (s.resume ==> s.hashRecorded) ==> S.ReadChannelId in passed)
    && (!s.resume && s.certAuth && s.verifyPeer && !(s.verifyPeerIfNoObc && s.channelIdOffered) ==>
          && S.ReadClientCertificate in passed
          && (s.clientHasCert ==> {S.VerifyClientCertificate, S.ReadClientCertificateVerify} <= passed))
  }

  lemma {:induction false} AllVetted(session: Session)
    requires session.Valid() && session.Alive() && session.BothDone()
    ensures ClientVetted(session.client.s, session.client.passed)
    ensures ServerVetted(session.client.s, session.server.passed)
  {
    hide UnderWay, From, Told;
  }

  lemma {:induction false} SaidOfCerts(s: Setup, said: seq<Turn>)
    requires said <= Flow(s)
    ensures forall t :: AboutCert(t) && t in said ==>
                          !s.resume && s.certAuth && s.verifyPeer && !(s.verifyPeerIfNoObc && s.channelIdOffered)
    ensures said == Flow(s) ==>
              (Turn(false, CertificateRequest) in said <==>
                 !s.resume && s.certAuth && s.verifyPeer && !(s.verifyPeerIfNoObc && s.channelIdOffered))
  {
    hide Flow;
    FlowAsks(s, Turn(false, CertificateRequest));
    forall t | AboutCert(t) && t in said
      ensures t in Flow(s)
    {
      FlowAsks(s, t);
    }
    forall t | AboutCert(t) && t in Flow(s)
      ensures !s.resume && s.certAuth && s.verifyPeer && !(s.verifyPeerIfNoObc && s.channelIdOffered)
    {
      FlowAsks(s, t);
    }
  }

  /** What has been said is the beginning of the message flow, and all of it at the end. */
  lemma {:induction false} SaidInFlow(session: Session)
    requires session.Valid()
    ensures session.said <= Flow(session.client.s)
    ensures session.Alive() && session.BothDone() ==> session.said == Flow(session.client.s)
  {
    hide UnderWay, From, Flow;
    ScriptIsFlow(session.client.s);
    AllEndFinal(session.client.s, End);
  }

  lemma {:induction false} NothingUnexpected(session: Session)
    requires session.Valid()
    ensures !session.client.unexpected && !session.server.unexpected
  {
    hide C.Todo, S.Todo, UnderWay;
  }

  /** From wherever a run has got without an error, rounds of steps whose checks pass take both sides to the end. */
  method Complete(session: Session)
    requires session.Valid() && session.Alive()
    requires !(Asks(session.server.s) && session.server.s.requirePeerCert && !session.server.s.clientHasCert)
    modifies session, session.client, session.server
    ensures session.Valid() && session.BothDone() && session.order == FinalOrder(session.client.s)
  {
    hide Session.Valid;
    while !session.client.state.Done? || !session.server.state.Done?
      invariant session.Valid() && session.Alive()
      decreases session.Left()
    {
      session.Round();
    }
    DoneOrder(session);
  }

  /** What both sides have to do, at most, at the beginning. */
  const ALL_THERE_IS: nat := 400

  /** An event that gets the handshake on: a step of a side that nothing keeps from going on, with checks that pass, or
      something of a flight arriving. */
  ghost predicate Useful(session: Session, e: Event)
    reads session, session.client, session.server
  {
    match e
    case ClientStep(verdict) => verdict.Pass? && session.client.Enabled()
    case ServerStep(verdict) => verdict.Pass? && session.server.Enabled()
    case ClientFlush(n) => n > 0 && session.client.pending != []
    case ServerFlush(n) => n > 0 && session.server.pending != []
  }

  /** Until both are done there is always something useful to do. */
  lemma {:induction false} SomethingUseful(session: Session) returns (e: Event)
    requires session.Valid() && session.Alive() && !session.BothDone()
    ensures Useful(session, e)
  {
    hide Session.Valid, C.Client.Enabled, S.Server.Enabled;
    session.NoDeadlock();
    e := if session.client.Enabled() then ClientStep(Pass) else if session.server.Enabled() then ServerStep(Pass)
         else if session.client.pending != [] then ClientFlush(1) else ServerFlush(1);
  }

  /** One event: no event adds to what is left to do, and one that is useful takes from it. */
  method Happen(session: Session, e: Event)
    requires session.Valid() && session.Alive()
    modifies session, session.client, session.server
    ensures session.Valid() && (session.Alive() || FailsCheck(e) || session.client.s.LacksCert())
    ensures session.Alive() ==> session.Left() <= old(session.Left())
    ensures session.Alive() && old(Useful(session, e)) ==> session.Left() < old(session.Left())
  {
    hide C.Todo, S.Todo, C.Rank, S.Rank, UnderWay, Order, C.Client.Valid, S.Server.Valid, Setup.LacksCert;
    match e {
      case ClientStep(verdict) => session.ClientStep(verdict);
      case ServerStep(verdict) => session.ServerStep(verdict);
      case ClientFlush(n) => session.ClientFlush(n);
      case ServerFlush(n) => session.ServerFlush(n);
    }
  }

  /** Every schedule whose checks pass, or ask to be called again, ends with both sides done if enough of its events
      are useful; and until then some event would be. */
  method Eventually(s: Setup, schedule: seq<Event>) returns (alive: bool, done: bool, ghost useful: nat)
    requires s.Supported() && !(Asks(s) && s.requirePeerCert && !s.clientHasCert)
    ensures alive || exists i :: 0 <= i < |schedule| && FailsCheck(schedule[i])
    ensures alive ==> useful <= ALL_THERE_IS && (useful == ALL_THERE_IS ==> done)
  {
    hide Session.Valid, Session.Left, Useful;
    var session := new Session(s);
    AtFirst(session);
    useful, alive := 0, true;
    var n := 0;
    while alive && n < |schedule|
      invariant n <= |schedule| && session.Valid() && fresh(session) && fresh(session.client) && fresh(session.server)
      invariant session.client.s == s && session.server.s == s
      invariant alive <==> session.Alive()
      invariant alive || exists i :: 0 <= i < |schedule| && FailsCheck(schedule[i])
      invariant alive ==> useful + session.Left() <= ALL_THERE_IS
    {
      useful := useful + if Useful(session, schedule[n]) then 1 else 0;
      Happen(session, schedule[n]);
      assert session.Alive() || FailsCheck(schedule[n]);
      alive := !session.client.wait.Error? && !session.server.wait.Error?;
      n := n + 1;
    }
    done := session.client.state.Done? && session.server.state.Done?;
    NothingLeft(session);
  }

  lemma {:induction false} AtFirst(session: Session)
    requires session.client.state.StartConnect? && session.server.state.StartAccept?
    requires session.client.pending == [] && session.server.pending == []
    ensures session.Left() <= ALL_THERE_IS
  {}

  lemma {:induction false} NothingLeft(session: Session)
    ensures session.Left() == 0 ==> session.client.state.Done? && session.server.state.Done?
  {}
}
