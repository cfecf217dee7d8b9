/** A side that closes after its peer: what its state says about the peer's FIN, and
    when the last acknowledgement comes too early. */
module LastAcks {
  import opened Packets
  import opened Endpoints
  import opened Network
  import opened Invariants
  import opened Safety
  import opened Theorems
  import opened FinStates
  import SW = SendWindows
  import RW = RecvWindows

  // ---------------------------------------------------------------------------
  // What the state says

  /** A state behind a FIN means that the FIN has arrived, and a side that waits for
      the last acknowledgement has its own FIN unacknowledged. */
  ghost predicate Genuine(e: Endpoint) {
    && (FinState(e) ==> FinArrived(e))
    && (e.state == LAST_ACK ==> e.snd.pkts != [])
  }

  lemma OwnGenuine(e: Endpoint)
    requires Genuine(e)
    ensures SendFIN(e).Done? ==> Genuine(SendFIN(e).ep)
    ensures TryConnect(e).Done? ==> Genuine(TryConnect(e).ep)
    ensures Genuine(TimeoutReTransmitter(e).ep)
    ensures Genuine(ProbeWindowSize(e).ep)
    ensures Genuine(PushOverflow(e))
  {
    OwnStepFin(e);
    PushFin(e);
  }

  lemma ListenGenuine(e: Endpoint)
    requires Genuine(e)
    ensures SendBufferListener(e).Done? ==> Genuine(SendBufferListener(e).ep)
  {
    if e.snd.capacity != 0 && SW.FreeSpace(e.snd) != 0 && SendBufferListener(e).Done? {
      EmitFin(e, Min(SW.FreeSpace(e.snd), |e.sendBuf|));
    }
  }

  /** What arrives keeps it, given where a FIN or a SYN can arrive. */
  lemma ArrivalGenuine(e: Endpoint, p: Packet)
    requires Genuine(e) && HandleReceivedPacket(e, p).Done?
    requires p.fin ==> !p.sync && (e.pipe == OPEN ==> p.seqNum >= e.rcv.base)
    requires p.sync && !p.ack ==> e.rcv.list == []
    ensures Genuine(HandleReceivedPacket(e, p).ep)
  {
    if p.fin {
      ReceiveAndAckFin(e.(state := StateOnFIN(e.state)), p);
    } else if !p.sync && !p.ack && p.size > 0 {
      ReceiveAndAckFin(e, p);
    } else if p.sync && !p.ack {
      SynGenuine(e, p);
    }
  }

  lemma SynGenuine(e: Endpoint, p: Packet)
    requires Genuine(e) && HandleSYN(e, p).Done? && e.rcv.list == []
    ensures Genuine(HandleSYN(e, p).ep)
  {
  }

  // ---------------------------------------------------------------------------
  // Over runs

  lemma ActGenuine(sys: System, y: Side, o: Outcome, x: Side)
    requires Genuine(Self(sys, x).ep) && (y == x && o.Done? ==> Genuine(o.ep))
    ensures Genuine(Self(Act(sys, y, o), x).ep)
  {
  }

  lemma DeliverGenuine(sys: System, y: Side, o: Outcome, x: Side)
    requires Reachable(sys) && !sys.aborted && Exists(sys, y) && Self(sys, Peer(y)).out != []
    requires o == HandleReceivedPacket(Self(sys, y).ep, Self(sys, Peer(y)).out[0]) && Genuine(Self(sys, x).ep)
    ensures Genuine(Self(DoDeliver(sys, y, o), x).ep)
  {
    if y == x && o.Done? {
      HeadFacts(sys, y);
      ArrivalGenuine(Self(sys, y).ep, Self(sys, Peer(y)).out[0]);
    }
  }

  lemma HeadFacts(sys: System, y: Side)
    requires Reachable(sys) && !sys.aborted && Self(sys, Peer(y)).out != []
    ensures var e, p := Self(sys, y).ep, Self(sys, Peer(y)).out[0];
            && (p.fin ==> !p.sync && (e.pipe == OPEN ==> p.seqNum >= e.rcv.base))
            && (p.sync && !p.ack ==> e.rcv.list == [])
  {
    ReachableInv(sys);
    var mc, ms :| InvAt(sys, mc, ms);
    InvFrom(sys, y, mc, ms);
    var a, b := Self(sys, y), Self(sys, Peer(y));
    HeadKind(y, a, b, sys.live, mc, ms);
    if b.out[0].fin { FinFacts(y, a, b, sys.live, mc, ms); }
    SealedView(y, a, b, sys.live, mc, ms);
  }

  lemma NotCreatedYet(sys: System)
    requires Reachable(sys) && !sys.live
    ensures !FinState(sys.s.ep) && sys.s.ep.state != LAST_ACK
  {
    var mc, ms := ReachableView(sys, Server);
  }

  lemma StepGenuine(sys: System, step: Step, x: Side)
    requires Reachable(sys) && Enabled(sys, step) && Genuine(Self(sys, x).ep)
    ensures Genuine(Self(Apply(sys, step), x).ep)
  {
    match step
    case Connect =>
      if x.Client? { OwnGenuine(sys.c.ep); }
      ActGenuine(sys, Client, TryConnect(sys.c.ep), x);
    case Create => NotCreatedYet(sys);
    case Deliver(y) =>
      DeliverGenuine(sys, y, HandleReceivedPacket(Self(sys, y).ep, Self(sys, Peer(y)).out[0]), x);
    case Drop(y, i) =>
    case Listen(y) =>
      if y == x { ListenGenuine(Self(sys, y).ep); }
      ActGenuine(sys, y, SendBufferListener(Self(sys, y).ep), x);
    case Finish(y) =>
      if y == x { OwnGenuine(Self(sys, y).ep); }
      ActGenuine(sys, y, SendFIN(Self(sys, y).ep), x);
    case Timeout(y) =>
      if y == x { OwnGenuine(Self(sys, y).ep); }
      ActGenuine(sys, y, TimeoutReTransmitter(Self(sys, y).ep), x);
    case Probe(y) =>
      if y == x { OwnGenuine(Self(sys, y).ep); }
      ActGenuine(sys, y, ProbeWindowSize(Self(sys, y).ep), x);
    case PushUp(y) =>
      if y == x { OwnGenuine(Self(sys, y).ep); }
      ActGenuine(sys, y, Done(PushOverflow(Self(sys, y).ep), []), x);
    case Read(y, size) => ReadGenuine(sys, y, size, x);
    case Write(y, data) =>
  }

  lemma ReadGenuine(sys: System, y: Side, size: nat, x: Side)
    requires Genuine(Self(sys, x).ep)
    ensures Genuine(Self(DoRead(sys, y, ReadData(Self(sys, y).ep, size)), x).ep)
  {
  }

  lemma {:induction false} RunGenuine(sys: System, steps: seq<Step>, x: Side)
    requires Reachable(sys) && IsRun(sys, steps) && Genuine(Self(sys, x).ep)
    ensures Genuine(Self(After(sys, steps), x).ep)
    decreases |steps|
  {
    if steps != [] {
      StepGenuine(sys, steps[0], x);
      ReachableStep(sys, steps[0]);
      RunGenuine(Apply(sys, steps[0]), steps[1..], x);
    }
  }

  /** In every reachable state, on both sides, a state behind a FIN means that the
      peer's FIN has arrived, and LAST_ACK that the own FIN is unacknowledged. */
  lemma StatesAreGenuine(sys: System, x: Side)
    requires Reachable(sys)
    ensures Genuine(Self(sys, x).ep)
  {
    var g: Config, steps: seq<Step> :| ReachedBy(g, steps, sys);
    assert ReachedBy(g, [], Init(g));
    RunGenuine(Init(g), steps, x);
  }

  /** The cause of what follows. A FIN moves the state whether or not it comes in
      order, but ends the stream only if it does. */
  lemma FinMovesStateAnyway(e: Endpoint, p: Packet)
    requires p.fin && !p.sync && e.pipe == OPEN && p.seqNum >= e.rcv.base && HandleReceivedPacket(e, p).Done?
    ensures var e' := HandleReceivedPacket(e, p).ep;
            e'.state == StateOnFIN(e.state) && FinArrived(e') && (e'.pipe != OPEN <==> p.seqNum == e.rcv.base)
  {
    var e1 := e.(state := StateOnFIN(e.state));
    ReceiveAndAckFin(e1, p);
    var r := RW.ReceivePacket(e.rcv, p);
    PushFin(e1.(rcv := r.win));
    StreamFin(PushOverflow(e1.(rcv := r.win)), r.chain);
    if p.seqNum == e.rcv.base { FirstOfChain(e.rcv, p); }
  }

  lemma FirstOfChain(w: RW.RecvWin, p: Packet)
    requires RW.ReceivePacket(w, p).Received? && p.seqNum == w.base && p.fin
    ensures HoldsFin(RW.ReceivePacket(w, p).chain)
  {
    var r := RW.ReceivePacket(w, p);
    assert RW.Position(w.list, p.seqNum) == 0;
    assert r.chain[0] == p;
  }
}
