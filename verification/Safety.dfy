/** The invariant holds in every state of every run. */
module Safety {
  import opened Packets
  import opened Endpoints
  import opened Network
  import opened Invariants
  import opened SendSteps
  import opened DeliverSteps
  import opened Preservation
  import opened Delivery
  import RW = RecvWindows

  // ---------------------------------------------------------------------------
  // Dispatch

  function Handler(k: Kind, e: Endpoint, p: Packet): Outcome {
    match k
    case Syn => HandleSYN(e, p)
    case SynAck => HandleACKSYN(e, p)
    case Fin => HandleFIN(e, p)
    case Ack => HandleACK(e, p)
    case Data => ReceiveAndAck(e, p)
    case Prober => Done(e, [AckOf(e, e.rcv.base)])
  }

  lemma DispatchIs(e: Endpoint, p: Packet)
    ensures HandleReceivedPacket(e, p) == Handler(KindOf(p), e, p)
  {
  }

  /** What can be at the head of the channel towards `a`. */
  lemma HeadKind(x: Side, a: Node, b: Node, live: bool, mc: nat, ms: nat)
    requires Sealed(x, a, b, live, mc, ms) && b.out != []
    ensures var p := b.out[0];
            && (x.Client? ==> KindOf(p) != Syn) && (x.Server? ==> KindOf(p) != SynAck)
            && (KindOf(p).Fin? ==> p.size > 0)
            && (KindOf(p).Ack? ==> PureAck(p))
            && (KindOf(p).Prober? ==> IsProbe(p))
    ensures x.Client? ==> live
  {
    SealedView(x, a, b, live, mc, ms);
    var p := b.out[0];
    assert Shape(b.log, Acked(b), p);
    if x.Client? { assert SynAckOk(p, a.iss + 1, Room(b)); } else { assert SynOk(p, b.iss); }
  }

  /** Edges of the state diagram in section 3.3.2 of RFC 9293, with the passive
      open starting from CLOSED. */
  predicate ForwardEdge(s: TcpState, s': TcpState) {
    match s
    case CLOSED => s' == SYN_SENT || s' == SYN_RCVD
    case SYN_SENT => s' == ESTABLISHED
    case SYN_RCVD => s' == ESTABLISHED
    case ESTABLISHED => s' == FIN_WAIT_1 || s' == CLOSE_WAIT
    case FIN_WAIT_1 => s' == FIN_WAIT_2 || s' == CLOSING
    case FIN_WAIT_2 => s' == TIME_WAIT
    case CLOSING => s' == TIME_WAIT
    case CLOSE_WAIT => s' == LAST_ACK
    case LAST_ACK => s' == CLOSED
    case TIME_WAIT => false
  }

  predicate ForwardOrSame(s: TcpState, s': TcpState) {
    s' == s || ForwardEdge(s, s')
  }

  /** A delivery on side `x`, whatever the packet. */
  lemma DeliverView(x: Side, a: Node, b: Node, live: bool, mc: nat, ms: nat, o: Outcome)
    returns (a': Node, mc': nat, ms': nat)
    requires Sealed(x, a, b, live, mc, ms) && b.out != [] && Present(x, live)
    requires Same(o, Handler(KindOf(b.out[0]), a.ep, b.out[0]))
    ensures o.Done? && Same(NodeAfter(a, o.ep, o.out), a')
    ensures Sealed(x, a', Popped(b), live, mc', ms')
    ensures mc <= mc' && ms <= ms' && o.ep.recvCap == a.ep.recvCap
    ensures ForwardOrSame(a.ep.state, o.ep.state)
  {
    var p := b.out[0];
    HeadKind(x, a, b, live, mc, ms);
    mc', ms' := mc, ms;
    match KindOf(p)
    case Syn =>
      ms' := 1;
      if a.log == [] {
        FirstSynView(a, b, mc, ms, o);
        a' := Grown(a, o.ep, o.out);
      } else {
        RepeatedSynView(a, b, mc, ms, o);
        a' := a.(ep := o.ep, out := a.out + o.out);
      }
    case SynAck =>
      mc' := 1;
      if a.ep.state == SYN_SENT {
        FirstSynAckView(a, b, live, mc, ms, o);
      } else {
        RepeatedSynAckView(a, b, live, mc, ms, o);
      }
      a' := a.(ep := o.ep, out := a.out + o.out);
    case Fin =>
      var m' := DataView(x, a, b, live, mc, ms, StateOnFIN(a.ep.state), o);
      if x.Client? { mc' := m'; } else { ms' := m'; }
      a' := a.(ep := o.ep, out := a.out + o.out);
    case Data =>
      assert Same(a.ep, a.ep.(state := a.ep.state));
      var m' := DataView(x, a, b, live, mc, ms, a.ep.state, o);
      if x.Client? { mc' := m'; } else { ms' := m'; }
      a' := a.(ep := o.ep, out := a.out + o.out);
    case Ack =>
      AckView(x, a, b, live, mc, ms, o);
      a' := a.(ep := o.ep, out := a.out + o.out);
    case Prober =>
      ProbeTakenView(x, a, b, live, mc, ms, o);
      a' := a.(ep := o.ep, out := a.out + o.out);
  }

  lemma KeepDeliver(sys: System, x: Side, mc: nat, ms: nat, o: Outcome) returns (mc': nat, ms': nat)
    requires InvAt(sys, mc, ms) && Exists(sys, x) && Self(sys, Peer(x)).out != []
    requires Same(o, Handler(KindOf(Self(sys, Peer(x)).out[0]), Self(sys, x).ep, Self(sys, Peer(x)).out[0]))
    ensures InvAt(DoDeliver(sys, x, o), mc', ms')
    ensures mc <= mc' && ms <= ms' && o.ep.recvCap == Self(sys, x).ep.recvCap
    ensures ForwardOrSame(Self(sys, x).ep.state, o.ep.state)
  {
    var a, b := Self(sys, x), Self(sys, Peer(x));
    InvFrom(sys, x, mc, ms);
    var a';
    a', mc', ms' := DeliverView(x, a, b, sys.live, mc, ms, o);
    KeepTakes(sys, x, o, a', Popped(b), mc', ms');
  }

  lemma KeepConnect(sys: System, mc: nat, ms: nat, o: Outcome)
    requires InvAt(sys, mc, ms) && sys.c.ep.state == CLOSED && !sys.c.ep.shutdown
    requires Same(o, TryConnect(sys.c.ep))
    ensures o.Done? && o.ep.recvCap == sys.c.ep.recvCap && ForwardOrSame(sys.c.ep.state, o.ep.state)
    ensures InvAt(Act(sys, Client, o), mc, ms)
  {
    var c, s := Self(sys, Client), Self(sys, Peer(Client));
    ConnectView(c, s, sys.live, mc, ms, o);
    KeepActs(sys, Client, o, Grown(c, o.ep, o.out), mc, ms);
  }

  // ---------------------------------------------------------------------------
  // Steps and runs

  /** `a'` is `a` at a later time: histories only grow, and the TCP state moves
      along the state diagram or stays. */
  ghost predicate Later(a: Node, a': Node) {
    && a'.iss == a.iss && a'.ep.recvCap == a.ep.recvCap
    && a.log <= a'.log && a.written <= a'.written && a.read <= a'.read
    && ForwardOrSame(a.ep.state, a'.ep.state)
  }

  ghost predicate BothLater(sys: System, sys': System) {
    Later(sys.c, sys'.c) && Later(sys.s, sys'.s) && (sys.live ==> sys'.live)
  }

  ghost predicate EndpointLater(e: Endpoint, o: Outcome) {
    o.Done? ==> o.ep.recvCap == e.recvCap && ForwardOrSame(e.state, o.ep.state)
  }

  lemma ActLater(sys: System, x: Side, o: Outcome)
    requires EndpointLater(Self(sys, x).ep, o)
    ensures BothLater(sys, Act(sys, x, o))
  {
  }

  lemma DeliverLater(sys: System, x: Side, o: Outcome)
    requires Self(sys, Peer(x)).out != [] && EndpointLater(Self(sys, x).ep, o)
    ensures BothLater(sys, DoDeliver(sys, x, o))
  {
  }

  lemma DeliverAdvances(sys: System, x: Side, mc: nat, ms: nat, o: Outcome) returns (mc': nat, ms': nat)
    requires InvAt(sys, mc, ms) && Exists(sys, x) && Self(sys, Peer(x)).out != []
    requires Same(o, HandleReceivedPacket(Self(sys, x).ep, Self(sys, Peer(x)).out[0]))
    ensures InvAt(DoDeliver(sys, x, o), mc', ms') && mc <= mc' && ms <= ms'
    ensures BothLater(sys, DoDeliver(sys, x, o))
  {
    DispatchIs(Self(sys, x).ep, Self(sys, Peer(x)).out[0]);
    mc', ms' := KeepDeliver(sys, x, mc, ms, o);
    DeliverLater(sys, x, o);
  }

  lemma ListenAdvances(sys: System, x: Side, mc: nat, ms: nat, o: Outcome)
    requires InvAt(sys, mc, ms) && !InConnectingState(Self(sys, x).ep.state) && Self(sys, x).ep.sendBuf != []
    requires o == SendBufferListener(Self(sys, x).ep)
    ensures InvAt(Act(sys, x, o), mc, ms) && BothLater(sys, Act(sys, x, o))
  {
    KeepListen(sys, x, mc, ms, o);
    ActLater(sys, x, o);
  }

  lemma FinishAdvances(sys: System, x: Side, mc: nat, ms: nat, o: Outcome)
    requires InvAt(sys, mc, ms) && Self(sys, x).ep.sendBuf == []
    requires Self(sys, x).ep.state == ESTABLISHED || Self(sys, x).ep.state == CLOSE_WAIT
    requires o == SendFIN(Self(sys, x).ep)
    ensures InvAt(Act(sys, x, o), mc, ms) && BothLater(sys, Act(sys, x, o))
  {
    KeepFinish(sys, x, mc, ms, o);
    ActLater(sys, x, o);
  }

  lemma TimeoutAdvances(sys: System, x: Side, mc: nat, ms: nat, o: Outcome)
    requires InvAt(sys, mc, ms) && Self(sys, x).ep.timer && o == TimeoutReTransmitter(Self(sys, x).ep)
    ensures InvAt(Act(sys, x, o), mc, ms) && BothLater(sys, Act(sys, x, o))
  {
    KeepTimeout(sys, x, mc, ms, o);
    ActLater(sys, x, o);
  }

  lemma ProbeAdvances(sys: System, x: Side, mc: nat, ms: nat, o: Outcome)
    requires InvAt(sys, mc, ms) && Self(sys, x).ep.prober && o == ProbeWindowSize(Self(sys, x).ep)
    ensures InvAt(Act(sys, x, o), mc, ms) && BothLater(sys, Act(sys, x, o))
  {
    KeepProbe(sys, x, mc, ms);
    ActLater(sys, x, o);
  }

  lemma PushUpAdvances(sys: System, x: Side, mc: nat, ms: nat, o: Outcome)
    requires InvAt(sys, mc, ms) && o == Done(PushOverflow(Self(sys, x).ep), [])
    ensures InvAt(Act(sys, x, o), mc, ms) && BothLater(sys, Act(sys, x, o))
  {
    KeepPushUp(sys, x, mc, ms);
    ActLater(sys, x, o);
  }

  lemma ReadAdvances(sys: System, x: Side, mc: nat, ms: nat, size: nat)
    requires InvAt(sys, mc, ms) && Self(sys, x).ep.pipe != EOF_CONSUMED
    ensures var r := ReadData(Self(sys, x).ep, size);
            InvAt(DoRead(sys, x, r), mc, ms) && BothLater(sys, DoRead(sys, x, r))
  {
    ReadEffect(Self(sys, x).ep, size);
    KeepRead(sys, x, ReadData(Self(sys, x).ep, size), mc, ms);
  }

  lemma WriteAdvances(sys: System, x: Side, mc: nat, ms: nat, data: seq<byte>, w: WriteOutcome)
    requires InvAt(sys, mc, ms) && SeqUse(Self(sys, x)) + |data| < U32
    requires w == WriteData(Self(sys, x).ep, data)
    ensures InvAt(DoWrite(sys, x, data, w), mc, ms) && BothLater(sys, DoWrite(sys, x, data, w))
  {
    WriteEffect(Self(sys, x).ep, data);
    KeepWrite(sys, x, data, mc, ms, w);
  }

  /** Every step that can happen, short of a read past the end, keeps the invariant
      (and so does not abort), never takes back what was accepted, and only extends
      the histories. */
  lemma StepAdvances(sys: System, step: Step, mc: nat, ms: nat) returns (mc': nat, ms': nat)
    requires InvAt(sys, mc, ms) && Enabled(sys, step) && !ReadsPastEnd(sys, step)
    ensures InvAt(Apply(sys, step), mc', ms') && mc <= mc' && ms <= ms'
    ensures BothLater(sys, Apply(sys, step))
  {
    mc', ms' := mc, ms;
    match step
    case Connect =>
      KeepConnect(sys, mc, ms, TryConnect(sys.c.ep));
      ActLater(sys, Client, TryConnect(sys.c.ep));
    case Create => KeepCreate(sys, mc, ms);
    case Deliver(x) =>
      mc', ms' := DeliverAdvances(sys, x, mc, ms, HandleReceivedPacket(Self(sys, x).ep, Self(sys, Peer(x)).out[0]));
    case Drop(x, i) => KeepDrop(sys, x, i, mc, ms);
    case Listen(x) => ListenAdvances(sys, x, mc, ms, SendBufferListener(Self(sys, x).ep));
    case Finish(x) => FinishAdvances(sys, x, mc, ms, SendFIN(Self(sys, x).ep));
    case Timeout(x) => TimeoutAdvances(sys, x, mc, ms, TimeoutReTransmitter(Self(sys, x).ep));
    case Probe(x) => ProbeAdvances(sys, x, mc, ms, ProbeWindowSize(Self(sys, x).ep));
    case PushUp(x) => PushUpAdvances(sys, x, mc, ms, Done(PushOverflow(Self(sys, x).ep), []));
    case Read(x, size) => ReadAdvances(sys, x, mc, ms, size);
    case Write(x, data) => WriteAdvances(sys, x, mc, ms, data, WriteData(Self(sys, x).ep, data));
  }

  /** A read past the end stops the process and changes nothing else. */
  lemma LateReadStops(sys: System, step: Step)
    requires Enabled(sys, step) && ReadsPastEnd(sys, step)
    ensures Same(Apply(sys, step), sys.(aborted := true))
  {
  }

  /** What the invariant says apart from the process still running. */
  function Alive(sys: System): System {
    sys.(aborted := false)
  }

  lemma StepKeepsInv(sys: System, step: Step)
    requires Inv(sys) && Enabled(sys, step)
    ensures Inv(Alive(Apply(sys, step)))
    ensures Apply(sys, step).aborted <==> ReadsPastEnd(sys, step)
  {
    var mc, ms :| InvAt(sys, mc, ms);
    if ReadsPastEnd(sys, step) {
      LateReadStops(sys, step);
      assert Same(Alive(Apply(sys, step)), sys);
    } else {
      var mc', ms' := StepAdvances(sys, step, mc, ms);
      assert Same(Alive(Apply(sys, step)), Apply(sys, step));
    }
  }

  /** A configuration the code can be given: 32-bit windows, and room for the
      sequence numbers of SYN and FIN. */
  predicate ConfigOk(g: Config) {
    g.iss + 2 < U32 && g.clientWindow < U32 && g.serverWindow < U32
  }

  lemma NewNodeSendSide(e: Endpoint, iss: nat)
    requires iss + 2 < U32 && e.state == CLOSED && !e.shutdown && !e.timer && !e.prober && e.sendBuf == []
    requires e.snd.pkts == [] && e.snd.base == iss && e.snd.size == 0 && e.snd.capacity < U32
    ensures SendSide(NewNode(e, iss))
  {
  }

  lemma NewDirection(a: Node, b: Node)
    requires SendSide(a) && a.log == [] && a.out == [] && a.ep.snd.pkts == []
    requires b.out == [] && b.read == [] && b.ep.rcv == RW.RecvWin(a.iss, [])
    requires b.ep.recvBuf == [] && b.ep.overflow == [] && b.ep.pipe == OPEN
    ensures Direction(a, b, 0)
  {
    NothingStreamed(a.log, b);
    NothingSent(a, b);
  }

  lemma NothingStreamed(log: seq<Packet>, b: Node)
    requires log == [] && b.read == [] && b.ep.recvBuf == [] && b.ep.overflow == [] && b.ep.pipe == OPEN
    ensures RecvSide(log, 0, b.ep.recvBuf, b.ep.recvCap, b.ep.overflow, b.ep.pipe, b.read)
  {
    assert log[..0] == [];
  }

  lemma NothingSent(a: Node, b: Node)
    requires a.log == [] && a.out == [] && a.ep.snd.pkts == [] && b.out == []
    ensures InFlight(a.log, Acked(a), b.ep.rcv, a.out) && AcksOk(a.iss, a.log, Acked(a), 0, Room(b), b.out)
    ensures FlowOk(a.iss, a.log, Acked(a), a.ep.snd.base, a.ep.snd.capacity, Room(b)) && NoneBehind(SenderEdge(a), b.out)
  {
  }

  lemma InitInv(g: Config)
    requires ConfigOk(g)
    ensures Inv(Init(g))
  {
    var sys := Init(g);
    NewNodeSendSide(sys.c.ep, g.iss);
    NewNodeSendSide(sys.s.ep, SERVER_SEQ_NUM);
    NewDirection(sys.c, sys.s);
    NewDirection(sys.s, sys.c);
    SealedView(Client, sys.c, sys.s, false, 0, 0);
    assert Handshake(sys.c, sys.s, false, 0, 0);
    assert InvAt(sys, 0, 0);
  }

  lemma {:induction false} RunKeepsInv(sys: System, steps: seq<Step>)
    requires Inv(Alive(sys)) && IsRun(sys, steps)
    ensures Inv(Alive(After(sys, steps)))
    decreases |steps|
  {
    if steps != [] {
      assert Same(Alive(sys), sys);
      StepKeepsInv(sys, steps[0]);
      RunKeepsInv(Apply(sys, steps[0]), steps[1..]);
    }
  }

  /** A state that some run from some initial configuration reaches. */
  ghost predicate Reachable(sys: System) {
    exists g: Config, steps: seq<Step> :: ReachedBy(g, steps, sys)
  }

  ghost predicate ReachedBy(g: Config, steps: seq<Step>, sys: System) {
    ConfigOk(g) && IsRun(Init(g), steps) && sys == After(Init(g), steps)
  }

  lemma ReachableInv(sys: System)
    requires Reachable(sys)
    ensures Inv(Alive(sys)) && (!sys.aborted ==> Inv(sys))
  {
    var g: Config, steps: seq<Step> :| ReachedBy(g, steps, sys);
    InitInv(g);
    assert Same(Alive(Init(g)), Init(g));
    RunKeepsInv(Init(g), steps);
    if !sys.aborted { assert Same(Alive(sys), sys); }
  }
}
