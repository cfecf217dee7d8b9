/** Two controller objects and the packets between them. Every step of the
    transition system is a call on the objects, so what is proved about its runs
    holds of them. */
module LinkClass {
  import opened Packets
  import opened Endpoints
  import opened Network
  import opened Safety
  import opened Theorems
  import opened TcpControllerClass

  /** What a node of the transition system remembers beside its controller. */
  datatype Past = Past(iss: nat, log: seq<Packet>, written: seq<byte>, read: seq<byte>)

  ghost function NodeOf(con: TcpController, past: Past): Node
    requires con.Valid()
    reads con, con.sendWindow, con.recvWindow, con.recvWindow.nodes
  {
    Node(con.Value(), con.pktSendBuffer, past.iss, past.log, past.written, past.read)
  }

  /** Two controllers that share no window and no list node. */
  ghost predicate Apart(a: TcpController, b: TcpController)
    reads a, a.recvWindow, a.recvWindow.nodes, b, b.recvWindow, b.recvWindow.nodes
  {
    && a.Valid() && b.Valid() && a != b
    && a.sendWindow != b.sendWindow && a.recvWindow != b.recvWindow
    && forall n :: n in a.recvWindow.nodes ==> n !in b.recvWindow.nodes
  }

  /** Hand the oldest packet sent by `from` to `to`. */
  method Hand(to: TcpController, from: TcpController, ghost past: Past) returns (stopped: bool, ghost past': Past)
    requires Apart(to, from) && from.pktSendBuffer != []
    modifies to, to.sendWindow, to.recvWindow, to.recvWindow.nodes, from`pktSendBuffer
    ensures match HandleReceivedPacket(old(to.Value()), old(from.pktSendBuffer[0]))
            case Abort => stopped
            case Done(ep, out) =>
              && !stopped && Apart(to, from)
              && NodeOf(to, past') == NodeAfter(old(NodeOf(to, past)), ep, out)
              && from.Value() == old(from.Value()) && from.pktSendBuffer == old(from.pktSendBuffer[1..])
    ensures forall n :: n in to.recvWindow.nodes ==> n in old(to.recvWindow.nodes) || fresh(n)
  {
    var p := from.pktSendBuffer[0];
    from.pktSendBuffer := from.pktSendBuffer[1..];
    ghost var before, kept := to.Value(), from.recvWindow.nodes;
    assert forall i :: 0 <= i < |kept| ==> kept[i] in kept && kept[i] !in to.recvWindow.nodes;
    label called:
    stopped := to.HandleReceivedPacket(p);
    assert from.recvWindow.nodes == kept && forall i :: 0 <= i < |kept| ==> unchanged@called(kept[i]);
    past' := past;
    if !stopped {
      past' := past.(log := past.log + Registered(before, to.Value()));
    }
  }

  /** The steps a side takes by itself, and what they do. */
  predicate IsOwn(step: Step, x: Side) {
    match step
    case Connect => x.Client?
    case Listen(y) => x == y
    case Finish(y) => x == y
    case Timeout(y) => x == y
    case Probe(y) => x == y
    case PushUp(y) => x == y
    case _ => false
  }

  function OwnOutcome(e: Endpoint, step: Step): Outcome {
    match step
    case Connect => TryConnect(e)
    case Listen(_) => SendBufferListener(e)
    case Finish(_) => SendFIN(e)
    case Timeout(_) => TimeoutReTransmitter(e)
    case Probe(_) => ProbeWindowSize(e)
    case PushUp(_) => Done(PushOverflow(e), [])
    case _ => Done(e, [])
  }

  /** Let a controller take such a step. */
  method Own(con: TcpController, step: Step, ghost past: Past) returns (stopped: bool, ghost past': Past)
    requires con.Valid()
    modifies con, con.sendWindow
    ensures con.Valid() && con.recvWindow.nodes == old(con.recvWindow.nodes)
    ensures match OwnOutcome(old(con.Value()), step)
            case Abort => stopped
            case Done(ep, out) => !stopped && NodeOf(con, past') == NodeAfter(old(NodeOf(con, past)), ep, out)
  {
    ghost var before, sent := con.Value(), con.pktSendBuffer;
    stopped := false;
    match step {
      case Connect =>
        var ok;
        stopped, ok := con.TryConnect();
      case Listen(_) => stopped := con.SendBufferListener();
      case Finish(_) => stopped := con.SendFIN();
      case Timeout(_) => con.TimeoutReTransmitter();
      case Probe(_) => con.ProbeWindowSize();
      case PushUp(_) =>
        con.PushOverflowedPacketsToSocketBuffer();
        assert con.pktSendBuffer == sent + [];
      case _ => assert con.pktSendBuffer == sent + [];
    }
    past' := past.(log := past.log + Registered(before, con.Value()));
  }

  /** The step aborts, which in a run is a read past the end. */
  ghost predicate Stops(sys: System, step: Step) {
    Enabled(sys, step) && Apply(sys, step).aborted && (Reachable(sys) ==> ReadsPastEnd(sys, step))
  }

  /** The step leads to `z`, and runs that reach `sys` go on to it. */
  ghost predicate GoesTo(sys: System, step: Step, z: System) {
    Enabled(sys, step) && z == Apply(sys, step) && !z.aborted && (Reachable(sys) ==> Reachable(z))
  }

  class Link {
    const config: Config
    const client: TcpController
    var server: TcpController
    var live: bool
    ghost var clientPast: Past
    ghost var serverPast: Past

    /** The objects are apart; until it is created the server is as at the start. */
    ghost predicate Valid()
      reads this, client, client.sendWindow, client.recvWindow, client.recvWindow.nodes
      reads server, server.sendWindow, server.recvWindow, server.recvWindow.nodes
    {
      Apart(client, server) && (!live ==> NodeOf(server, serverPast) == Init(config).s)
    }

    ghost function Value(): System
      requires Valid()
      reads this, client, client.sendWindow, client.recvWindow, client.recvWindow.nodes
      reads server, server.sendWindow, server.recvWindow, server.recvWindow.nodes
    {
      System(NodeOf(client, clientPast), NodeOf(server, serverPast), live, false)
    }

    /** The objects have done what the step says: they failed a check exactly if it
        aborts; otherwise they hold its result. In a state that a run can reach
        they fail only at a read past the end, and stay in such states. */
    ghost predicate Stepped(sys: System, step: Step, stopped: bool)
      reads this, client, client.sendWindow, client.recvWindow, client.recvWindow.nodes
      reads server, server.sendWindow, server.recvWindow, server.recvWindow.nodes
    {
      if stopped then Stops(sys, step) else Valid() && GoesTo(sys, step, Value())
    }

    constructor (g: Config)
      ensures Valid() && Value() == Init(g) && config == g
    {
      config := g;
      client := new TcpController(g.iss, g.clientWindow, SERVER_SEQ_NUM, g.clientSendCap, g.clientRecvCap);
      server := new TcpController(SERVER_SEQ_NUM, g.serverWindow, g.iss, g.serverSendCap, g.serverRecvCap);
      live := false;
      clientPast, serverPast := Past(g.iss, [], [], []), Past(SERVER_SEQ_NUM, [], [], []);
    }

    method DeliverToClient() returns (stopped: bool)
      requires Valid() && server.pktSendBuffer != []
      modifies this`clientPast, client, client.sendWindow, client.recvWindow, client.recvWindow.nodes
      modifies server`pktSendBuffer
      ensures Stepped(old(Value()), Deliver(Client), stopped)
    {
      ghost var sys := Value();
      stopped, clientPast := Hand(client, server, clientPast);
      if stopped {
        DeliveryStops(sys, Client);
      } else {
        DeliveryIs(sys, Client, Value());
      }
    }

    method DeliverToServer() returns (stopped: bool)
      requires Valid() && live && client.pktSendBuffer != []
      modifies this`serverPast, server, server.sendWindow, server.recvWindow, server.recvWindow.nodes
      modifies client`pktSendBuffer
      ensures Stepped(old(Value()), Deliver(Server), stopped)
    {
      ghost var sys := Value();
      stopped, serverPast := Hand(server, client, serverPast);
      if stopped {
        DeliveryStops(sys, Server);
      } else {
        DeliveryIs(sys, Server, Value());
      }
    }

    /** A step of the client by itself: connecting, a listener round, closing, a
        timer, or moving overflowed packets up. */
    method ClientSteps(step: Step) returns (stopped: bool)
      requires Valid() && IsOwn(step, Client) && Enabled(Value(), step)
      modifies this`clientPast, client, client.sendWindow
      ensures Stepped(old(Value()), step, stopped)
    {
      ghost var sys := Value();
      stopped, clientPast := Own(client, step, clientPast);
      if stopped {
        OwnStops(sys, Client, step);
      } else {
        OwnIs(sys, Client, step, Value());
      }
    }

    method ServerSteps(step: Step) returns (stopped: bool)
      requires Valid() && IsOwn(step, Server) && Enabled(Value(), step)
      modifies this`serverPast, server, server.sendWindow
      ensures Stepped(old(Value()), step, stopped)
    {
      ghost var sys := Value();
      stopped, serverPast := Own(server, step, serverPast);
      if stopped {
        OwnStops(sys, Server, step);
      } else {
        OwnIs(sys, Server, step, Value());
      }
    }

    /** The host creates the server for the first SYN, with its number as receive
        base, and hands it two copies. */
    method CreateServer()
      requires Valid() && Enabled(Value(), Create)
      modifies this, client`pktSendBuffer
      ensures Stepped(old(Value()), Create, false)
    {
      ghost var sys := Value();
      var syn := client.pktSendBuffer[0];
      server := new TcpController(SERVER_SEQ_NUM, config.serverWindow, syn.seqNum, config.serverSendCap, config.serverRecvCap);
      client.pktSendBuffer := [syn] + client.pktSendBuffer;
      live := true;
      assert Same(Value(), Apply(sys, Create));
      SteppedReaches(sys, Create);
    }

    /** The channel that leaves the client, or the server, loses a packet. */
    method LoseFromClient(i: nat)
      requires Valid() && i < |client.pktSendBuffer|
      modifies client`pktSendBuffer
      ensures Stepped(old(Value()), Drop(Client, i), false)
    {
      ghost var sys := Value();
      client.pktSendBuffer := client.pktSendBuffer[..i] + client.pktSendBuffer[i + 1..];
      assert Same(Value(), Apply(sys, Drop(Client, i)));
      SteppedReaches(sys, Drop(Client, i));
    }

    method LoseFromServer(i: nat)
      requires Valid() && i < |server.pktSendBuffer|
      modifies server`pktSendBuffer
      ensures Stepped(old(Value()), Drop(Server, i), false)
    {
      ghost var sys := Value();
      server.pktSendBuffer := server.pktSendBuffer[..i] + server.pktSendBuffer[i + 1..];
      assert Same(Value(), Apply(sys, Drop(Server, i)));
      SteppedReaches(sys, Drop(Server, i));
    }

    /** The application reads: what the call returns is what the history gains. */
    method ClientReads(size: nat) returns (stopped: bool, ret: int, data: seq<byte>)
      requires Valid() && Enabled(Value(), Read(Client, size))
      modifies this`clientPast, client
      ensures Stepped(old(Value()), Read(Client, size), stopped)
      ensures !stopped ==> clientPast.read == old(clientPast.read) + data
      ensures !stopped && ret >= 0 ==> ret == |data| && (ret == size || client.recvBuffer == [])
      ensures !stopped && ret < 0 ==> ret == -1 && data == [] && client.shutdown
    {
      ghost var sys := Value();
      stopped, ret, data := client.ReadData(size);
      clientPast := clientPast.(read := clientPast.read + if stopped then [] else data);
      SteppedReaches(sys, Read(Client, size));
    }

    method ServerReads(size: nat) returns (stopped: bool, ret: int, data: seq<byte>)
      requires Valid() && Enabled(Value(), Read(Server, size))
      modifies this`serverPast, server
      ensures Stepped(old(Value()), Read(Server, size), stopped)
      ensures !stopped ==> serverPast.read == old(serverPast.read) + data
      ensures !stopped && ret >= 0 ==> ret == |data| && (ret == size || server.recvBuffer == [])
      ensures !stopped && ret < 0 ==> ret == -1 && data == [] && server.shutdown
    {
      ghost var sys := Value();
      stopped, ret, data := server.ReadData(size);
      serverPast := serverPast.(read := serverPast.read + if stopped then [] else data);
      SteppedReaches(sys, Read(Server, size));
    }

    /** The application writes: the history gains as many bytes as the call says. */
    method ClientWrites(data: seq<byte>) returns (ret: int)
      requires Valid() && Enabled(Value(), Write(Client, data))
      modifies this`clientPast, client
      ensures Stepped(old(Value()), Write(Client, data), false)
      ensures ret <= |data| && clientPast.written == old(clientPast.written) + data[..if ret < 0 then 0 else ret]
      ensures ret == -1 <==> client.shutdown || client.state in {FIN_WAIT_1, FIN_WAIT_2, TIME_WAIT, CLOSING, LAST_ACK}
      ensures ret == -1 || ret == |data| || |client.sendBuffer| >= client.sendCapacity
    {
      ghost var sys := Value();
      ret := client.WriteData(data);
      clientPast := clientPast.(written := clientPast.written + data[..if ret < 0 then 0 else ret]);
      assert Same(Value(), Apply(sys, Write(Client, data)));
      SteppedReaches(sys, Write(Client, data));
    }

    method ServerWrites(data: seq<byte>) returns (ret: int)
      requires Valid() && Enabled(Value(), Write(Server, data))
      modifies this`serverPast, server
      ensures Stepped(old(Value()), Write(Server, data), false)
      ensures ret <= |data| && serverPast.written == old(serverPast.written) + data[..if ret < 0 then 0 else ret]
      ensures ret == -1 <==> server.shutdown || server.state in {FIN_WAIT_1, FIN_WAIT_2, TIME_WAIT, CLOSING, LAST_ACK}
      ensures ret == -1 || ret == |data| || |server.sendBuffer| >= server.sendCapacity
    {
      ghost var sys := Value();
      ret := server.WriteData(data);
      serverPast := serverPast.(written := serverPast.written + data[..if ret < 0 then 0 else ret]);
      assert Same(Value(), Apply(sys, Write(Server, data)));
      SteppedReaches(sys, Write(Server, data));
    }
  }

  /** What follows from the step having been taken. */
  lemma SteppedReaches(sys: System, step: Step)
    requires Enabled(sys, step)
    ensures Reachable(sys) ==> (Apply(sys, step).aborted <==> ReadsPastEnd(sys, step)) && Reachable(Apply(sys, step))
  {
    if Reachable(sys) {
      AbortsExactly(sys, step);
      ReachableStep(sys, step);
    }
  }

  /** A delivery takes the head of the sender's channel, and then the receiver's
      handler does what it does. */
  lemma DeliveryIs(sys: System, x: Side, z: System)
    requires Enabled(sys, Deliver(x)) && z.live == sys.live && !z.aborted
    requires var a, b := Self(sys, x), Self(sys, Peer(x));
             match HandleReceivedPacket(a.ep, b.out[0])
             case Abort => false
             case Done(ep, out) => Self(z, Peer(x)) == b.(out := b.out[1..]) && Self(z, x) == NodeAfter(a, ep, out)
    ensures GoesTo(sys, Deliver(x), z)
  {
    assert Without(Self(sys, Peer(x)).out, 0) == Self(sys, Peer(x)).out[1..];
    SteppedReaches(sys, Deliver(x));
  }

  /** A handler that fails a check: that happens in no run. */
  lemma DeliveryStops(sys: System, x: Side)
    requires Enabled(sys, Deliver(x)) && HandleReceivedPacket(Self(sys, x).ep, Self(sys, Peer(x)).out[0]).Abort?
    ensures Stops(sys, Deliver(x)) && !Reachable(sys)
  {
    SteppedReaches(sys, Deliver(x));
  }

  lemma OwnIs(sys: System, x: Side, step: Step, z: System)
    requires Enabled(sys, step) && IsOwn(step, x) && z.live == sys.live && !z.aborted && Self(z, Peer(x)) == Self(sys, Peer(x))
    requires match OwnOutcome(Self(sys, x).ep, step)
             case Abort => false
             case Done(ep, out) => Self(z, x) == NodeAfter(Self(sys, x), ep, out)
    ensures GoesTo(sys, step, z)
  {
    SteppedReaches(sys, step);
  }

  lemma OwnStops(sys: System, x: Side, step: Step)
    requires Enabled(sys, step) && IsOwn(step, x) && OwnOutcome(Self(sys, x).ep, step).Abort?
    ensures Stops(sys, step) && !Reachable(sys)
  {
    SteppedReaches(sys, step);
  }
}
