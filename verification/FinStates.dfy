/** Whether the state variable records that the peer's FIN has come. */
module FinStates {
  import opened Packets
  import opened Endpoints
  import opened Logs
  import opened Network
  import opened Invariants
  import opened Safety
  import opened Theorems
  import SW = SendWindows
  import RW = RecvWindows

  ghost predicate HoldsFin(list: seq<Packet>) {
    exists i :: 0 <= i < |list| && list[i].fin
  }

  /** The FIN has arrived: it waits in the receive list, or was streamed. */
  ghost predicate FinArrived(e: Endpoint) {
    e.pipe != OPEN || HoldsFin(e.rcv.list)
  }

  /** The states behind the arrival of a FIN. */
  predicate FinState(e: Endpoint) {
    match e.state
    case CLOSE_WAIT => true
    case CLOSING => true
    case TIME_WAIT => true
    case LAST_ACK => true
    case CLOSED => e.shutdown
    case _ => false
  }

  ghost predicate FinRecorded(e: Endpoint) {
    FinArrived(e) ==> FinState(e)
  }

  // ---------------------------------------------------------------------------
  // What a handler does about the FIN

  lemma HoldsFinSplit(list: seq<Packet>, n: nat)
    requires n <= |list|
    ensures HoldsFin(list) <==> HoldsFin(list[..n]) || HoldsFin(list[n..])
  {
    if i :| 0 <= i < |list| && list[i].fin {
      if i < n { assert list[..n][i].fin; } else { assert list[n..][i - n].fin; }
    }
  }

  lemma HoldsFinInsert(list: seq<Packet>, p: Packet)
    ensures HoldsFin(RW.Insert(list, p)) <==> HoldsFin(list) || p.fin
  {
    var i := RW.Position(list, p.seqNum);
    var l := RW.Insert(list, p);
    HoldsFinSplit(list, i);
    HoldsFinSplit(l, i);
    HoldsFinSplit(l[i..], 1);
    assert l[..i] == list[..i] && l[i..][..1] == [p] && l[i..][1..] == list[i..];
    assert p.fin ==> [p][0].fin;
  }

  lemma ReceiveFin(w: RW.RecvWin, p: Packet)
    requires RW.ReceivePacket(w, p).Received?
    ensures var r := RW.ReceivePacket(w, p);
            HoldsFin(r.chain) || HoldsFin(r.win.list) <==> HoldsFin(w.list) || (p.fin && p.seqNum >= w.base)
  {
    if p.seqNum >= w.base {
      var l := RW.Insert(w.list, p);
      HoldsFinInsert(w.list, p);
      if p.seqNum == w.base { HoldsFinSplit(l, RW.RunEnd(l, 0)); }
    }
  }

  /** `e'` differs from `e` in what was received but not in the window or the state. */
  predicate SameButPipe(e: Endpoint, e': Endpoint) {
    && e'.rcv == e.rcv && e'.snd == e.snd && e'.state == e.state && e'.shutdown == e.shutdown
    && e'.sendBuf == e.sendBuf && e'.recvCap == e.recvCap
  }

  lemma {:induction false} StreamFin(e: Endpoint, chain: seq<Packet>)
    requires StreamChain(e, chain).Done?
    ensures var e' := StreamChain(e, chain).ep;
            SameButPipe(e, e') && (e'.pipe != OPEN <==> e.pipe != OPEN || HoldsFin(chain))
    decreases |chain|
  {
    if chain != [] {
      HoldsFinSplit(chain, 1);
      var p := chain[0];
      if !p.sync && !p.fin {
        if RecvFree(e) >= p.size && p.payload != [] {
          StreamFin(e.(recvBuf := e.recvBuf + p.payload), chain[1..]);
        } else {
          StreamFin(e.(overflow := e.overflow + [p]), chain[1..]);
        }
      }
    }
  }

  lemma {:induction false} PushFin(e: Endpoint)
    ensures SameButPipe(e, PushOverflow(e)) && PushOverflow(e).pipe == e.pipe
    decreases |e.overflow|
  {
    if !(e.overflow == [] || RecvFree(e) < e.overflow[0].size || e.overflow[0].payload == []) {
      PushFin(e.(recvBuf := e.recvBuf + e.overflow[0].payload, overflow := e.overflow[1..]));
    }
  }

  lemma ReceiveAndAckFin(e: Endpoint, p: Packet)
    requires ReceiveAndAck(e, p).Done?
    ensures var e' := ReceiveAndAck(e, p).ep;
            && e'.state == e.state && e'.shutdown == e.shutdown && e'.snd == e.snd
            && e'.sendBuf == e.sendBuf && e'.recvCap == e.recvCap
            && (FinArrived(e') <==> FinArrived(e) || (p.fin && p.seqNum >= e.rcv.base))
  {
    var r := RW.ReceivePacket(e.rcv, p);
    var e1 := e.(rcv := r.win);
    ReceiveFin(e.rcv, p);
    PushFin(e1);
    StreamFin(PushOverflow(e1), r.chain);
  }

  /** No other packet makes a FIN arrive. */
  lemma OtherFin(e: Endpoint, p: Packet)
    requires !p.fin && HandleReceivedPacket(e, p).Done?
    ensures FinArrived(HandleReceivedPacket(e, p).ep) ==> FinArrived(e)
  {
    if p.sync && !p.ack {
      ReceiveFin(e.rcv, p);
    } else if !p.sync && !p.ack && p.size > 0 {
      ReceiveAndAckFin(e, p);
    }
  }

  predicate SameEdge(w: SW.SendWin, w': SW.SendWin) {
    w'.base == w.base && w'.capacity == w.capacity
  }

  lemma {:induction false} EmitFin(e: Endpoint, n: nat)
    requires n <= |e.sendBuf| && Emit(e, n).Done?
    ensures var e' := Emit(e, n).ep;
            && e'.rcv == e.rcv && e'.pipe == e.pipe && SameEdge(e.snd, e'.snd)
            && e'.state == e.state && e'.shutdown == e.shutdown && |e.snd.pkts| <= |e'.snd.pkts|
    decreases n
  {
    if n > 0 {
      EmitFin(EmitNext(e, n).ep, n - NextSize(n));
    }
  }

  /** Nothing a side does of its own accord makes a FIN arrive. */
  lemma OwnStepFin(e: Endpoint)
    ensures SendBufferListener(e).Done? ==> (FinArrived(SendBufferListener(e).ep) <==> FinArrived(e))
    ensures SendFIN(e).Done? ==> (FinArrived(SendFIN(e).ep) <==> FinArrived(e))
    ensures TryConnect(e).Done? ==> (FinArrived(TryConnect(e).ep) <==> FinArrived(e))
    ensures FinArrived(TimeoutReTransmitter(e).ep) <==> FinArrived(e)
    ensures FinArrived(ProbeWindowSize(e).ep) <==> FinArrived(e)
    ensures FinArrived(PushOverflow(e)) <==> FinArrived(e)
  {
    PushFin(e);
    if e.snd.capacity != 0 && SW.FreeSpace(e.snd) != 0 && SendBufferListener(e).Done? {
      EmitFin(e, Min(SW.FreeSpace(e.snd), |e.sendBuf|));
    }
  }

  // ---------------------------------------------------------------------------
  // Steps of the system

  lemma ActFin(sys: System, y: Side, o: Outcome, x: Side)
    requires o.Done? ==> (FinArrived(o.ep) ==> FinArrived(Self(sys, y).ep))
    ensures FinArrived(Self(Act(sys, y, o), x).ep) ==> FinArrived(Self(sys, x).ep)
  {
  }

  /** Only the delivery of a FIN makes a FIN arrive. */
  lemma OnlyFinArrives(sys: System, step: Step, x: Side)
    requires Enabled(sys, step) && !(step == Deliver(x) && Self(sys, Peer(x)).out[0].fin)
    ensures FinArrived(Self(Apply(sys, step), x).ep) ==> FinArrived(Self(sys, x).ep)
  {
    match step
    case Connect =>
      OwnStepFin(sys.c.ep);
      ActFin(sys, Client, TryConnect(sys.c.ep), x);
    case Create =>
    case Deliver(y) =>
      DeliverFin(sys, y, HandleReceivedPacket(Self(sys, y).ep, Self(sys, Peer(y)).out[0]), x);
    case Drop(y, i) =>
    case Listen(y) =>
      OwnStepFin(Self(sys, y).ep);
      ActFin(sys, y, SendBufferListener(Self(sys, y).ep), x);
    case Finish(y) =>
      OwnStepFin(Self(sys, y).ep);
      ActFin(sys, y, SendFIN(Self(sys, y).ep), x);
    case Timeout(y) =>
      OwnStepFin(Self(sys, y).ep);
      ActFin(sys, y, TimeoutReTransmitter(Self(sys, y).ep), x);
    case Probe(y) =>
      OwnStepFin(Self(sys, y).ep);
      ActFin(sys, y, ProbeWindowSize(Self(sys, y).ep), x);
    case PushUp(y) =>
      OwnStepFin(Self(sys, y).ep);
      ActFin(sys, y, Done(PushOverflow(Self(sys, y).ep), []), x);
    case Read(y, size) =>
    case Write(y, data) =>
  }

  lemma DeliverFin(sys: System, y: Side, o: Outcome, x: Side)
    requires Self(sys, Peer(y)).out != [] && o == HandleReceivedPacket(Self(sys, y).ep, Self(sys, Peer(y)).out[0])
    requires y == x ==> !Self(sys, Peer(y)).out[0].fin
    ensures FinArrived(Self(DoDeliver(sys, y, o), x).ep) ==> FinArrived(Self(sys, x).ep)
  {
    if y == x && o.Done? { OtherFin(Self(sys, y).ep, Self(sys, Peer(y)).out[0]); }
  }

  /** A FIN state is never left again. */
  lemma FinStateStays(a: Node, a': Node)
    requires StateFacts(a.ep, a.log) && StateFacts(a'.ep, a'.log) && Later(a, a') && FinState(a.ep)
    ensures FinState(a'.ep)
  {
  }

  lemma StepFinStateStays(sys: System, step: Step, x: Side)
    requires Reachable(sys) && Enabled(sys, step) && FinState(Self(sys, x).ep)
    ensures FinState(Self(Apply(sys, step), x).ep)
  {
    StepStates(sys, step, x);
    FinStateStays(Self(sys, x), Self(Apply(sys, step), x));
  }

  /** A FIN in flight is the last packet of its sender's log. */
  lemma FinIsLast(b: Node, p: Packet)
    requires SendSide(b) && Shape(b.log, Acked(b), p) && p.fin
    ensures |b.log| >= 2 && Same(p, b.log[|b.log| - 1]) && HasFin(b.log) && !p.sync && p.size > 0
    ensures !Handshaking(b.ep.state) && !(b.ep.state == CLOSED && !b.ep.shutdown)
  {
    var k :| 0 <= k < |b.log| && b.log[k] == p;
    assert KindOk(b.log[k], k, |b.log|);
  }

  /** Where a FIN can be delivered: the receiver has opened its side, is not
      waiting for a SYN-ACK, and a FIN it has not streamed is not below its base. */
  lemma FinFacts(x: Side, a: Node, b: Node, live: bool, mc: nat, ms: nat)
    requires Sealed(x, a, b, live, mc, ms) && b.out != [] && b.out[0].fin
    ensures !b.out[0].sync && a.log != [] && a.ep.state != SYN_SENT
    ensures a.ep.pipe == OPEN ==> b.out[0].seqNum >= a.ep.rcv.base
  {
    SealedView(x, a, b, live, mc, ms);
    var p, k, m := b.out[0], |b.log| - 1, Bwd(x, mc, ms);
    assert Shape(b.log, Acked(b), p);
    FinIsLast(b, p);
    EdgeOrder(b.iss, b.log, k, |b.log|);
    if m < k { EdgeOrder(b.iss, b.log, m, k); }
  }

  /** The state records a FIN that is delivered unless it comes in SYN_RCVD. */
  lemma FinHandledExactly(e: Endpoint, p: Packet, log: seq<Packet>)
    requires StateFacts(e, log) && log != [] && e.state != SYN_SENT && FinRecorded(e)
    requires p.fin && !p.sync && HandleReceivedPacket(e, p).Done? && (e.pipe == OPEN ==> p.seqNum >= e.rcv.base)
    ensures FinRecorded(HandleReceivedPacket(e, p).ep) <==> e.state != SYN_RCVD
  {
    ReceiveAndAckFin(e.(state := StateOnFIN(e.state)), p);
  }

  /** Along every run: if the state records the arrival of the FIN before a step,
      it does so after it, if and only if the step is not the delivery of a FIN
      in SYN_RCVD. */
  lemma FinRecordedExactly(sys: System, step: Step, x: Side)
    requires Reachable(sys) && Enabled(sys, step) && FinRecorded(Self(sys, x).ep)
    ensures FinRecorded(Self(Apply(sys, step), x).ep) <==>
              !(step == Deliver(x) && Self(sys, Peer(x)).out[0].fin && Self(sys, x).ep.state == SYN_RCVD)
  {
    if step == Deliver(x) && Self(sys, Peer(x)).out[0].fin {
      AbortsExactly(sys, step);
      FinStep(sys, x, HandleReceivedPacket(Self(sys, x).ep, Self(sys, Peer(x)).out[0]));
    } else {
      OnlyFinArrives(sys, step, x);
      if FinArrived(Self(sys, x).ep) { StepFinStateStays(sys, step, x); }
    }
  }

  lemma FinStep(sys: System, x: Side, o: Outcome)
    requires Reachable(sys) && !sys.aborted && Self(sys, Peer(x)).out != [] && Self(sys, Peer(x)).out[0].fin
    requires FinRecorded(Self(sys, x).ep) && o.Done?
    requires o == HandleReceivedPacket(Self(sys, x).ep, Self(sys, Peer(x)).out[0])
    ensures FinRecorded(Self(DoDeliver(sys, x, o), x).ep) <==> Self(sys, x).ep.state != SYN_RCVD
  {
    ReachableInv(sys);
    var mc, ms :| InvAt(sys, mc, ms);
    InvFrom(sys, x, mc, ms);
    var a, b := Self(sys, x), Self(sys, Peer(x));
    FinFacts(x, a, b, sys.live, mc, ms);
    SealedState(x, a, b, sys.live, mc, ms);
    FinHandledExactly(a.ep, b.out[0], a.log);
  }

  lemma NeverSynRcvd(sys: System)
    requires Reachable(sys)
    ensures sys.c.ep.state != SYN_RCVD
  {
    var mc, ms := ReachableView(sys, Client);
  }

  lemma {:induction false} RunRecordsFin(sys: System, steps: seq<Step>)
    requires Reachable(sys) && IsRun(sys, steps) && FinRecorded(sys.c.ep)
    ensures FinRecorded(After(sys, steps).c.ep)
    decreases |steps|
  {
    if steps != [] {
      NeverSynRcvd(sys);
      FinRecordedExactly(sys, steps[0], Client);
      ReachableStep(sys, steps[0]);
      RunRecordsFin(Apply(sys, steps[0]), steps[1..]);
    }
  }

  /** So on the client's side, in every reachable state, an end of stream that was
      received shows in the state: the code can go on to LAST_ACK or TIME_WAIT. */
  lemma ClientRecordsFin(sys: System)
    requires Reachable(sys)
    ensures FinRecorded(sys.c.ep)
  {
    var g: Config, steps: seq<Step> :| ReachedBy(g, steps, sys);
    assert ReachedBy(g, [], Init(g));
    RunRecordsFin(Init(g), steps);
  }
}
