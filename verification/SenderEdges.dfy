/** The right edge of the sender's window over whole runs. */
module SenderEdges {
  import opened Packets
  import opened Endpoints
  import opened Network
  import opened Invariants
  import opened SenderLemmas
  import opened DeliverSteps
  import opened Safety
  import opened Theorems
  import opened FinStates
  import SW = SendWindows

  function Right(e: Endpoint): nat {
    e.snd.base + e.snd.capacity
  }

  /** Of what a side does by itself, only `SendFIN` sets the window's edge. */
  lemma OwnStepEdge(e: Endpoint)
    ensures SendBufferListener(e).Done? ==> SameEdge(e.snd, SendBufferListener(e).ep.snd)
    ensures TryConnect(e).Done? ==> SameEdge(e.snd, TryConnect(e).ep.snd)
    ensures SameEdge(e.snd, TimeoutReTransmitter(e).ep.snd)
    ensures SameEdge(e.snd, ProbeWindowSize(e).ep.snd)
    ensures SameEdge(e.snd, PushOverflow(e).snd)
  {
    PushFin(e);
    if e.snd.capacity != 0 && SW.FreeSpace(e.snd) != 0 && SendBufferListener(e).Done? {
      EmitFin(e, Min(SW.FreeSpace(e.snd), |e.sendBuf|));
    }
  }

  /** Of the packets that arrive at a connected side, only an acknowledgement does. */
  lemma ArrivalEdge(e: Endpoint, p: Packet)
    requires e.state != SYN_SENT && HandleReceivedPacket(e, p).Done? && !(p.ack && !p.sync && !p.fin)
    ensures SameEdge(e.snd, HandleReceivedPacket(e, p).ep.snd)
  {
    if p.fin && !p.sync {
      ReceiveAndAckFin(e.(state := StateOnFIN(e.state)), p);
    } else if !p.sync && !p.ack && p.size > 0 {
      ReceiveAndAckFin(e, p);
    }
  }

  lemma ActEdge(sys: System, y: Side, o: Outcome, x: Side)
    requires o.Done? ==> SameEdge(Self(sys, y).ep.snd, o.ep.snd)
    ensures SameEdge(Self(sys, x).ep.snd, Self(Act(sys, y, o), x).ep.snd)
  {
  }

  lemma DeliverEdge(sys: System, y: Side, o: Outcome, x: Side)
    requires Self(sys, Peer(y)).out != [] && o == HandleReceivedPacket(Self(sys, y).ep, Self(sys, Peer(y)).out[0])
    requires y == x ==> Self(sys, x).ep.state != SYN_SENT && !TakesAck(sys, Deliver(y), x)
    ensures SameEdge(Self(sys, x).ep.snd, Self(DoDeliver(sys, y, o), x).ep.snd)
  {
    if y == x && o.Done? { ArrivalEdge(Self(sys, y).ep, Self(sys, Peer(y)).out[0]); }
  }

  /** The step hands an acknowledgement to side `x`. */
  predicate TakesAck(sys: System, step: Step, x: Side) {
    step == Deliver(x) && Self(sys, Peer(x)).out != [] &&
    var p := Self(sys, Peer(x)).out[0]; p.ack && !p.sync && !p.fin
  }

  /** Every other step leaves the edge of a connected side where it is. */
  lemma OtherStepsKeepEdge(sys: System, step: Step, x: Side)
    requires Enabled(sys, step) && step != Finish(x) && !TakesAck(sys, step, x) && Self(sys, x).ep.state != SYN_SENT
    ensures SameEdge(Self(sys, x).ep.snd, Self(Apply(sys, step), x).ep.snd)
  {
    match step
    case Connect =>
      OwnStepEdge(sys.c.ep);
      ActEdge(sys, Client, TryConnect(sys.c.ep), x);
    case Create =>
    case Deliver(y) =>
      DeliverEdge(sys, y, HandleReceivedPacket(Self(sys, y).ep, Self(sys, Peer(y)).out[0]), x);
    case Drop(y, i) =>
    case Listen(y) =>
      OwnStepEdge(Self(sys, y).ep);
      ActEdge(sys, y, SendBufferListener(Self(sys, y).ep), x);
    case Finish(y) =>
    case Timeout(y) =>
      OwnStepEdge(Self(sys, y).ep);
      ActEdge(sys, y, TimeoutReTransmitter(Self(sys, y).ep), x);
    case Probe(y) =>
      OwnStepEdge(Self(sys, y).ep);
      ActEdge(sys, y, ProbeWindowSize(Self(sys, y).ep), x);
    case PushUp(y) =>
      OwnStepEdge(Self(sys, y).ep);
      ActEdge(sys, y, Done(PushOverflow(Self(sys, y).ep), []), x);
    case Read(y, size) =>
    case Write(y, data) =>
  }

  /** An acknowledgement puts the window's edge where its own is. */
  lemma AckSetsEdge(a: Node, b: Node, m: nat)
    requires SendSide(a) && Direction(a, b, m) && b.out != [] && PureAck(b.out[0])
    ensures var o := HandleACK(a.ep, b.out[0]);
            o.Done? && Right(o.ep) == AckEdgeOf(b.out[0]) && SenderEdge(a) <= AckEdgeOf(b.out[0])
  {
    var k := AckHead(a, b, m);
    AckEdge(a.iss, a.log, a.ep.snd, k);
  }

  lemma TakenAckSetsEdge(sys: System, x: Side, o: Outcome)
    requires Reachable(sys) && TakesAck(sys, Deliver(x), x)
    requires o == HandleReceivedPacket(Self(sys, x).ep, Self(sys, Peer(x)).out[0])
    ensures Right(Self(DoDeliver(sys, x, o), x).ep) == AckEdgeOf(Self(sys, Peer(x)).out[0])
    ensures SenderEdge(Self(sys, x)) <= AckEdgeOf(Self(sys, Peer(x)).out[0])
  {
    var mc, ms := ReachableView(sys, x);
    AckSetsEdge(Self(sys, x), Self(sys, Peer(x)), Fwd(x, mc, ms));
  }

  lemma AckedIsConnected(sys: System, x: Side)
    requires Reachable(sys) && Acked(Self(sys, x)) > 0
    ensures Self(sys, x).ep.state != SYN_SENT
  {
    var mc, ms := ReachableView(sys, x);
  }

  /** From the acknowledgement of its SYN to its FIN, a sender's right edge never
      moves left: not over any step of any run but the one that registers the FIN. */
  lemma SenderEdgeNeverMovesLeft(sys: System, step: Step, x: Side)
    requires Reachable(sys) && Enabled(sys, step) && step != Finish(x)
    requires Acked(Self(sys, x)) > 0 && !HasFin(Self(sys, x).log)
    ensures Right(Self(sys, x).ep) <= Right(Self(Apply(sys, step), x).ep)
  {
    AckedIsConnected(sys, x);
    if TakesAck(sys, step, x) {
      TakenAckSetsEdge(sys, x, HandleReceivedPacket(Self(sys, x).ep, Self(sys, Peer(x)).out[0]));
    } else {
      OtherStepsKeepEdge(sys, step, x);
    }
  }
}
