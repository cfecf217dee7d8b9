/** Tools to write down concrete runs step by step, and the opening of one: the
    client connects, the second copy of its SYN is lost, the SYN-ACK reaches it. */
module ConcreteRuns {
  import opened Packets
  import opened Endpoints
  import opened Network
  import opened Progress
  import SW = SendWindows
  import RW = RecvWindows

  const CAP: nat := 10
  const CFG := Config(0, CAP, CAP, CAP, CAP, CAP, CAP)

  const SYN := MakeSyncPacket(0, CAP)
  const SYN_ACK := SYN.(ack := true, ackNum := 1)
  const ACK_1 := MakeAckPacket(1, CAP)

  function Window(base: nat, pkts: seq<Packet>, size: nat, lastAcked: nat, capacity: nat): SW.SendWin {
    SW.NewSendWin(base, capacity).(size := size, pkts := pkts, lastAcked := lastAcked)
  }

  /** An endpoint with empty buffers whose timer runs if anything is unacknowledged. */
  function Ep(state: TcpState, snd: SW.SendWin, recvBase: nat): Endpoint {
    Endpoint(state, OPEN, snd, RW.RecvWin(recvBase, []), [], CAP, [], CAP, [], snd.pkts != [], false, false)
  }

  function At(ep: Endpoint, out: seq<Packet>, log: seq<Packet>, written: seq<byte>): Node {
    Node(ep, out, 0, log, written, [])
  }

  // The client before and after the SYN-ACK.
  function C1(out: seq<Packet>): Node { At(Ep(SYN_SENT, Window(0, [SYN], 1, 0, CAP), 0), out, [SYN], []) }
  function C2(out: seq<Packet>): Node { At(Ep(ESTABLISHED, Window(1, [], 0, 1, CAP), 1), out, [SYN], []) }

  // The server before and after the SYN.
  function S0(): Node { NewNode(NewEndpoint(0, CAP, 0, CAP, CAP), 0) }
  function S1(out: seq<Packet>): Node { At(Ep(SYN_RCVD, Window(0, [SYN_ACK], 1, 0, CAP), 1), out, [SYN_ACK], []) }

  function Sys(c: Node, s: Node): System {
    System(c, s, true, false)
  }

  /** One step of the run, under seal. */
  ghost predicate Goes(sys: System, step: Step, sys': System) {
    forall k :: Unseal(k) ==> Enabled(sys, step) && Same(Apply(sys, step), sys')
  }

  ghost predicate Handles(e: Endpoint, p: Packet, e': Endpoint, out: seq<Packet>) {
    forall k :: Unseal(k) ==> Same(HandleReceivedPacket(e, p), Done(e', out))
  }

  /** A delivery, given what the handler does and what it registers. */
  lemma GoesDeliver(sys: System, x: Side, p: Packet, rest: seq<Packet>, a: Node, b: Node, n: Node, out: seq<Packet>)
    requires !sys.aborted && sys.live && Same(Self(sys, x), a) && Same(Self(sys, Peer(x)), b) && b.out == [p] + rest
    requires Handles(a.ep, p, n.ep, out) && Same(n, NodeAfter(a, n.ep, out))
    ensures Goes(sys, Deliver(x), With(With(sys, Peer(x), b.(out := rest)), x, n))
  {
    assert Unseal(0);
    assert Without(b.out, 0) == rest;
  }

  lemma Before(sys: System, step: Step, sys1: System, rest: seq<Step>, z: System) returns (steps: seq<Step>)
    requires Goes(sys, step, sys1) && Leads(sys1, rest, z)
    ensures Leads(sys, steps, z)
  {
    steps := [step] + rest;
    assert Unseal(0);
    LeadsCons(sys, step, sys1, rest, z);
  }

  // ---------------------------------------------------------------------------
  // What single handlers do

  ghost predicate AcksTo(w: SW.SendWin, ackNum: nat, w': SW.SendWin) {
    forall k :: Unseal(k) ==> SW.NewAckedPacket(w, ackNum).Acked? && Same(SW.NewAckedPacket(w, ackNum).win, w')
  }

  /** The acknowledgement of a packet that is alone in the window. */
  lemma AckLone(p: Packet, last: nat, capacity: nat, resent: bool)
    requires p.size == 1 && p.seqNum < 100
    ensures AcksTo(Window(p.seqNum, [p], 1, last, capacity).(hasRetransmitted := resent), p.seqNum + 1,
                   Window(p.seqNum + 1, [], 0, p.seqNum + 1, capacity))
  {
    var pkts := [p];
    assert pkts[1..] == [] && pkts[..1] == pkts;
    assert SW.PopLoop([], p.seqNum + 1, false, p.seqNum) == SW.Popped(0);
    assert SW.PopLoop(pkts, p.seqNum + 1, false, p.seqNum) == SW.Popped(1);
    assert TotalSize(pkts) == 1;
  }

  lemma SynAckHandled(e: Endpoint, p: Packet, w: SW.SendWin)
    requires e.state == SYN_SENT && p.sync && p.ack && AcksTo(e.snd, p.ackNum, w) && w.pkts == []
    ensures var base := Wrap(p.seqNum + 1);
            var e' := e.(snd := w.(capacity := p.window), timer := false, state := ESTABLISHED, rcv := e.rcv.(base := base));
            Handles(e, p, e', [AckOf(e', base)])
  {
    assert Unseal(0);
  }

  lemma AckHandled(e: Endpoint, p: Packet, w: SW.SendWin)
    requires p.ack && !p.sync && !p.fin && AcksTo(e.snd, p.ackNum, w) && e.snd.base < p.ackNum
    ensures Handles(e, p, AfterAck(e, w, p.window), [])
  {
    assert Unseal(0);
  }

  /** The same acknowledgement again, short of a fast retransmit. */
  lemma DuplicateHandled(e: Endpoint, p: Packet)
    requires p.ack && !p.sync && !p.fin && p.ackNum == e.snd.base
    requires e.snd.duplicatedAcks + 1 < e.snd.maxDuplicatedAcks && e.snd.duplicatedAcks < 100
    ensures Handles(e, p, AfterAck(e, e.snd.(duplicatedAcks := e.snd.duplicatedAcks + 1), p.window), [])
  {
  }

  /** A FIN reaches a window that holds nothing and expects an earlier packet. */
  lemma FinBuffered(e: Endpoint, p: Packet)
    requires p.fin && !p.sync && e.overflow == [] && e.rcv.list == [] && e.rcv.base < p.seqNum
    ensures var e' := e.(state := StateOnFIN(e.state), rcv := e.rcv.(list := [p]));
            Handles(e, p, e', [AckOf(e', e.rcv.base)])
  {
    assert RW.Insert([], p) == [p];
    assert Same(RW.ReceivePacket(e.rcv, p), RW.Received(e.rcv.(list := [p]), e.rcv.base, []));
  }

  /** A FIN reaches a window that holds nothing. */
  lemma FinHandled(e: Endpoint, p: Packet)
    requires p.fin && !p.sync && e.overflow == [] && p.size == 1 && e.rcv == RW.RecvWin(p.seqNum, []) && p.seqNum < 100
    ensures var e' := e.(state := StateOnFIN(e.state), rcv := RW.RecvWin(p.seqNum + 1, []), pipe := EOF_NOT_CONSUMED);
            Handles(e, p, e', [AckOf(e', p.seqNum + 1)])
  {
    assert RW.Insert([], p) == [p] && [p][1..] == [] && [p][..1] == [p];
    assert Same(RW.ReceivePacket(e.rcv, p), RW.Received(RW.RecvWin(p.seqNum + 1, []), p.seqNum + 1, [p]));
  }

  // ---------------------------------------------------------------------------
  // The opening

  lemma StepConnect()
    ensures Goes(Init(CFG), Connect, System(C1([SYN]), S0(), false, false))
  {
  }

  lemma StepCreate()
    ensures Goes(System(C1([SYN]), S0(), false, false), Create, Sys(C1([SYN, SYN]), S0()))
  {
    assert [SYN] + [SYN] == [SYN, SYN];
  }

  /** A first SYN reaches a server that holds nothing and has sent nothing. */
  lemma SynHandled(e: Endpoint, p: Packet, synAck: Packet, w: SW.SendWin)
    requires p.sync && !p.ack && p.size == 1 && p.seqNum < 100 && e.rcv == RW.RecvWin(p.seqNum, []) && e.snd.size == 0
    requires Same(synAck, MakeSyncPacket(SERVER_SEQ_NUM, RecvFree(e)).(ack := true, ackNum := p.seqNum + 1))
    requires Same(SW.SendPacket(e.snd, synAck), SW.Sent(w))
    ensures Handles(e, p, e.(rcv := RW.RecvWin(p.seqNum + 1, []), snd := w, state := SYN_RCVD, timer := true), [synAck])
  {
    assert RW.Insert([], p) == [p] && [p][1..] == [] && [p][..1] == [p];
    assert Same(RW.ReceivePacket(e.rcv, p), RW.Received(RW.RecvWin(p.seqNum + 1, []), p.seqNum + 1, [p]));
  }

  lemma HandleFirstSyn()
    ensures Handles(S0().ep, SYN, S1([]).ep, [SYN_ACK])
  {
    assert [] + [SYN_ACK] == [SYN_ACK];
    SynHandled(S0().ep, SYN, SYN_ACK, Window(0, [SYN_ACK], 1, 0, CAP));
  }

  lemma StepSyn()
    ensures Goes(Sys(C1([SYN, SYN]), S0()), Deliver(Server), Sys(C1([SYN]), S1([SYN_ACK])))
  {
    HandleFirstSyn();
    assert [SYN, SYN] == [SYN] + [SYN] && S1([]).ep.snd.pkts[0..] == [SYN_ACK];
    GoesDeliver(Sys(C1([SYN, SYN]), S0()), Server, SYN, [SYN], S0(), C1([SYN, SYN]), S1([SYN_ACK]), [SYN_ACK]);
  }

  lemma StepLoseSyn()
    ensures Goes(Sys(C1([SYN]), S1([SYN_ACK])), Drop(Client, 0), Sys(C1([]), S1([SYN_ACK])))
  {
    assert Without([SYN], 0) == [];
  }

  lemma HandleSynAck()
    ensures Handles(C1([]).ep, SYN_ACK, C2([]).ep, [ACK_1])
  {
    var e, e' := C1([]).ep, C2([]).ep;
    AckLone(SYN, 0, CAP, false);
    assert Same(e.snd, Window(0, [SYN], 1, 0, CAP));
    SynAckHandled(e, SYN_ACK, Window(1, [], 0, 1, CAP));
    assert SYN_ACK.window == CAP;
    assert Same(e', e.(snd := e'.snd, timer := false, state := ESTABLISHED, rcv := e.rcv.(base := 1)));
    assert AckOf(e', 1) == ACK_1;
  }

  lemma StepSynAck()
    ensures Goes(Sys(C1([]), S1([SYN_ACK])), Deliver(Client), Sys(C2([ACK_1]), S1([])))
  {
    HandleSynAck();
    GoesDeliver(Sys(C1([]), S1([SYN_ACK])), Client, SYN_ACK, [], C1([]), S1([SYN_ACK]), C2([ACK_1]), [ACK_1]);
  }

  /** Whatever the open connection leads to is reached from the start. */
  lemma Opening(rest: seq<Step>, z: System) returns (steps: seq<Step>)
    requires Leads(Sys(C2([ACK_1]), S1([])), rest, z)
    ensures Leads(Init(CFG), steps, z)
  {
    StepSynAck();
    steps := Before(Sys(C1([]), S1([SYN_ACK])), Deliver(Client), Sys(C2([ACK_1]), S1([])), rest, z);
    StepLoseSyn();
    steps := Before(Sys(C1([SYN]), S1([SYN_ACK])), Drop(Client, 0), Sys(C1([]), S1([SYN_ACK])), steps, z);
    StepSyn();
    steps := Before(Sys(C1([SYN, SYN]), S0()), Deliver(Server), Sys(C1([SYN]), S1([SYN_ACK])), steps, z);
    StepCreate();
    steps := Before(System(C1([SYN]), S0(), false, false), Create, Sys(C1([SYN, SYN]), S0()), steps, z);
    StepConnect();
    steps := Before(Init(CFG), Connect, System(C1([SYN]), S0(), false, false), steps, z);
  }
}
