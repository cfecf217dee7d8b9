/** Steps in which node `a` takes the packet at the head of its peer's channel. */
module DeliverSteps {
  import opened Packets
  import opened Endpoints
  import opened Logs
  import opened Reassembly
  import opened Network
  import opened Invariants
  import opened SenderLemmas
  import opened FlightLemmas
  import opened ReceiverLemmas
  import opened PairSteps
  import SW = SendWindows

  function Popped(b: Node): Node
    requires b.out != []
  {
    b.(out := b.out[1..])
  }

  /** The direction towards `a` after `a` has taken the head of the channel: its
      window may have moved, its own acknowledgements may have grown. */
  lemma HeadTaken(a: Node, b: Node, mba: nat, a': Node, m': nat)
    requires Direction(b, a, mba) && b.out != []
    requires mba <= m' && RecvOk(b.iss, b.log, m', a'.ep.rcv)
    requires a.ep.rcv.base <= a'.ep.rcv.base
    requires forall k :: 0 <= k < |a'.ep.rcv.list| ==>
               || a'.ep.rcv.list[k] in a.ep.rcv.list
               || (b.out[0].size > 0 && a'.ep.rcv.list[k].seqNum == b.out[0].seqNum > a.ep.rcv.base)
    requires RecvSide(b.log, m', a'.ep.recvBuf, a'.ep.recvCap, a'.ep.overflow, a'.ep.pipe, a'.read)
    requires Room(a') == Room(a)
    requires AcksOk(b.iss, b.log, Acked(b), m', Room(a), a'.out) && NoneBehind(SenderEdge(b), a'.out)
    ensures Direction(Popped(b), a', m')
  {
    InFlightReceive(b.log, Acked(b), a.ep.rcv, b.out, a'.ep.rcv);
  }

  /** The direction from `a` when `b` loses its head: one acknowledgement less. */
  lemma HeadDropped(a: Node, b: Node, mab: nat)
    requires Direction(a, b, mab) && b.out != []
    ensures Direction(a, Popped(b), mab)
  {
    AcksDropHead(a.iss, a.log, Acked(a), mab, Room(b), SenderEdge(a), b.out);
  }

  lemma PoppedSendSide(b: Node)
    requires SendSide(b) && b.out != []
    ensures SendSide(Popped(b))
  {
  }

  lemma DataFacts(b: Node, a: Node, mba: nat)
    requires SendSide(b) && Direction(b, a, mba) && b.out != [] && b.out[0].size > 0 && !b.out[0].sync
    ensures b.out[0] in b.log && b.out[0] !in a.ep.rcv.list && 0 < mba
  {
    var p := b.out[0];
    assert Shape(b.log, Acked(b), p);
    var k :| 0 <= k < |b.log| && b.log[k] == p;
    assert KindOk(b.log[k], k, |b.log|);
  }

  lemma AckAppended(a: Node, b: Node, mab: nat, p: Packet)
    requires Direction(a, b, mab) && PureAck(p) && p.size == 0 && !p.fin
    ensures InFlight(a.log, Acked(a), b.ep.rcv, a.out + [p])
  {
    InFlightAppend(a.log, Acked(a), b.ep.rcv, a.out, p);
  }

  /** `a` acknowledges what it has accepted of the log of `b`. */
  lemma AckSent(a: Node, b: Node, mba: nat, e: Endpoint, m': nat, p: Packet)
    requires SendSide(b) && Direction(b, a, mba) && mba <= m' && 0 < m' <= |b.log|
    requires Streamed(b.log, m', e, a.read) && e.recvCap == a.ep.recvCap
    requires p == AckOf(e, Edge(b.iss, b.log, m'))
    ensures AcksOk(b.iss, b.log, Acked(b), m', Room(a), a.out + [p]) && NoneBehind(SenderEdge(b), a.out + [p])
  {
    AckAtOfferedEdge(b.iss, b.log, m', e, a.read);
    AcksAppend(b.iss, b.log, Acked(b), mba, m', Room(a), a.out, p);
  }

  /** Data or FIN arrives; the handler may first have changed the TCP state. */
  lemma DataPair(a: Node, b: Node, mab: nat, mba: nat, state: TcpState) returns (m': nat)
    requires Pair(a, b, mab, mba)
    requires b.out != [] && b.out[0].size > 0 && !b.out[0].sync
    requires StateOk(state, a.ep.shutdown, a.ep.timer, a.ep.sendBuf, |a.ep.snd.pkts|, a.log)
    ensures mba <= m' && 0 < mba
    ensures var o := ReceiveAndAck(a.ep.(state := state), b.out[0]);
            && o.Done? && o.out == [AckOf(o.ep, o.ep.rcv.base)]
            && o.ep == a.ep.(state := state, rcv := o.ep.rcv, recvBuf := o.ep.recvBuf, pipe := o.ep.pipe)
            && Pair(a.(ep := o.ep, out := a.out + o.out), Popped(b), mab, m')
            && (b.out[0].seqNum == a.ep.rcv.base ==> mba < m')
  {
    m' := DataTakes(a, b, mba, state);
    var o := ReceiveAndAck(a.ep.(state := state), b.out[0]);
    PoppedSendSide(b);
    DataBack(a, b, mab, a.(ep := o.ep, out := a.out + o.out), o.out[0]);
  }

  /** The direction that the packet came by. */
  lemma DataTakes(a: Node, b: Node, mba: nat, state: TcpState) returns (m': nat)
    requires SendSide(b) && Direction(b, a, mba)
    requires b.out != [] && b.out[0].size > 0 && !b.out[0].sync
    ensures mba <= m' && 0 < mba
    ensures var o := ReceiveAndAck(a.ep.(state := state), b.out[0]);
            && o.Done? && o.out == [AckOf(o.ep, o.ep.rcv.base)]
            && o.ep == a.ep.(state := state, rcv := o.ep.rcv, recvBuf := o.ep.recvBuf, pipe := o.ep.pipe)
            && Direction(Popped(b), a.(ep := o.ep, out := a.out + o.out), m')
            && (b.out[0].seqNum == a.ep.rcv.base ==> mba < m')
  {
    var p, e := b.out[0], a.ep.(state := state);
    DataFacts(b, a, mba);
    m' := Receives(b.iss, b.log, mba, e, a.read, p);
    var o := ReceiveAndAck(e, p);
    AckSent(a, b, mba, o.ep, m', o.out[0]);
    HeadTaken(a, b, mba, a.(ep := o.ep, out := a.out + o.out), m');
  }

  lemma DataBack(a: Node, b: Node, mab: nat, a': Node, p: Packet)
    requires SendSide(a) && Direction(a, b, mab) && b.out != []
    requires SameSender(a, a') && a'.out == a.out + [p] && PureAck(p) && p.size == 0 && !p.fin
    requires StateOk(a'.ep.state, a.ep.shutdown, a.ep.timer, a.ep.sendBuf, |a.ep.snd.pkts|, a.log)
    ensures Direction(a', Popped(b), mab) && SendSide(a')
  {
    AckAppended(a, b, mab, p);
    SenderFrame(a, b, mab, a');
    HeadDropped(a', b, mab);
  }

  /** A window probe arrives and is answered with the current base. */
  lemma ProbePair(a: Node, b: Node, mab: nat, mba: nat)
    requires Pair(a, b, mab, mba)
    requires b.out != [] && IsProbe(b.out[0])
    ensures Pair(a.(out := a.out + [AckOf(a.ep, a.ep.rcv.base)]), Popped(b), mab, mba)
  {
    var p := AckOf(a.ep, a.ep.rcv.base);
    var a' := a.(out := a.out + [p]);
    assert Shape(b.log, Acked(b), b.out[0]);
    AckSent(a, b, mba, a.ep, mba, p);
    HeadTaken(a, b, mba, a', mba);
    PoppedSendSide(b);
    DataBack(a, b, mab, a', p);
  }

  // ---------------------------------------------------------------------------
  // Acknowledgements

  /** The state after an acknowledgement fits the log and what is left unacked. */
  lemma StateAfterAck(state: TcpState, shutdown: bool, timer: bool, sendBuf: seq<byte>, unacked: nat, log: seq<Packet>, left: nat)
    requires StateOk(state, shutdown, timer, sendBuf, unacked, log)
    requires state != SYN_SENT && left <= unacked && left < |log|
    ensures StateOk(StateOnACK(state, left == 0), shutdown || (state == LAST_ACK && left == 0), left > 0, sendBuf, left, log)
  {
  }

  lemma AckHead(a: Node, b: Node, mab: nat) returns (k: nat)
    requires Direction(a, b, mab) && b.out != [] && PureAck(b.out[0])
    ensures 1 <= k <= mab && Acked(a) <= k <= |a.log|
    ensures b.out[0].ackNum == Edge(a.iss, a.log, k) && b.out[0].window < U16
    ensures !HasFin(a.log) ==> SenderEdge(a) <= AckEdgeOf(b.out[0]) <= a.iss + 1 + Room(b)
  {
    assert AckOk(a.iss, a.log, Acked(a), mab, b.out[0].ackNum);
    k :| 1 <= k <= mab && Acked(a) <= k && k <= |a.log| && b.out[0].ackNum == Edge(a.iss, a.log, k);
  }

  /** The sender's half after acknowledging up to edge `k`. */
  lemma AckedDirection(a: Node, b: Node, mab: nat, k: nat, a': Node)
    requires SendSide(a) && Direction(a, b, mab) && b.out != [] && PureAck(b.out[0])
    requires 1 <= k <= mab && Acked(a) <= k <= |a.log| && b.out[0].ackNum == Edge(a.iss, a.log, k)
    requires !HasFin(a.log) ==> SenderEdge(a) <= AckEdgeOf(b.out[0]) <= a.iss + 1 + Room(b)
    requires a'.iss == a.iss && a'.log == a.log && a'.out == a.out
    requires |a'.ep.snd.pkts| == |a.log| - k && a'.ep.snd.base == Edge(a.iss, a.log, k)
    requires a'.ep.snd.capacity == b.out[0].window
    ensures Direction(a', Popped(b), mab)
  {
    InFlightMoreAcked(a.log, Acked(a), k, b.ep.rcv, a.out);
    AcksConsume(a.iss, a.log, Acked(a), mab, Room(b), b.out, k);
  }

  /** What the acknowledgement at the head of the channel does to the window. */
  ghost predicate AckEffect(e: Endpoint, p: Packet, e': Endpoint) {
    var r := SW.NewAckedPacket(e.snd, p.ackNum);
    && r.Acked? && e' == AfterAck(e, r.win, p.window)
    && (r.result.retransmit ==> !r.result.refreshed)
    && |r.win.pkts| <= |e.snd.pkts|
    && (r.result.refreshed <==> |r.win.pkts| < |e.snd.pkts|)
  }

  lemma AckSender(a: Node, b: Node, mab: nat) returns (e: Endpoint)
    requires SendSide(a) && Direction(a, b, mab) && a.ep.state != SYN_SENT
    requires b.out != [] && PureAck(b.out[0])
    ensures AckEffect(a.ep, b.out[0], e) && Acked(a.(ep := e)) > 0
    ensures SendSide(a.(ep := e)) && Direction(a.(ep := e), Popped(b), mab)
  {
    var k := AckHead(a, b, mab);
    AckEdge(a.iss, a.log, a.ep.snd, k);
    var r := SW.NewAckedPacket(a.ep.snd, b.out[0].ackNum);
    e := AfterAck(a.ep, r.win, b.out[0].window);
    AckedDirection(a, b, mab, k, a.(ep := e));
    AckSendSide(a, r.win, b.out[0].window, e);
  }

  lemma AckSendSide(a: Node, w: SW.SendWin, window: nat, e: Endpoint)
    requires SendSide(a) && a.ep.state != SYN_SENT && Same(e, AfterAck(a.ep, w, window))
    requires WindowOk(a.iss, a.log, w) && w.capacity == a.ep.snd.capacity && window < U32
    requires |w.pkts| <= |a.ep.snd.pkts| && |w.pkts| < |a.log|
    ensures SendSide(a.(ep := e))
  {
    StateAfterAck(a.ep.state, a.ep.shutdown, a.ep.timer, a.ep.sendBuf, |a.ep.snd.pkts|, a.log, |w.pkts|);
    AckedSendSide(a, a.(ep := e));
  }

  lemma AckPair(a: Node, b: Node, mab: nat, mba: nat) returns (e: Endpoint)
    requires Pair(a, b, mab, mba) && a.ep.state != SYN_SENT
    requires b.out != [] && PureAck(b.out[0])
    ensures AckEffect(a.ep, b.out[0], e) && Acked(a.(ep := e)) > 0
    ensures Pair(a.(ep := e), Popped(b), mab, mba)
  {
    e := AckSender(a, b, mab);
    AckTaken(a, b, mba, a.(ep := e));
    PoppedSendSide(b);
  }

  lemma AckTaken(a: Node, b: Node, mba: nat, a': Node)
    requires Direction(b, a, mba) && b.out != [] && SameReceiver(a, a') && a'.out == a.out
    ensures Direction(Popped(b), a', mba)
  {
    HeadTaken(a, b, mba, a', mba);
  }

  lemma AckedSendSide(a: Node, a': Node)
    requires SendSide(a)
    requires a'.iss == a.iss && a'.log == a.log && a'.written == a.written && a'.ep.sendBuf == a.ep.sendBuf
    requires WindowOk(a.iss, a.log, a'.ep.snd.(capacity := a.ep.snd.capacity)) && a'.ep.snd.capacity < U32
    requires StateOk(a'.ep.state, a'.ep.shutdown, a'.ep.timer, a'.ep.sendBuf, |a'.ep.snd.pkts|, a.log)
    requires |a'.ep.snd.pkts| < |a.log|
    ensures SendSide(a')
  {
  }

  /** `HandleACK` is the acknowledgement, and then perhaps a retransmission. */
  lemma HandleAckIs(e: Endpoint, p: Packet, e': Endpoint)
    requires AckEffect(e, p, e')
    ensures var o := HandleACK(e, p);
            || o == Done(e', [])
            || (e'.snd.pkts != [] && |e'.snd.pkts| == |e.snd.pkts|
                && o == Done(e'.(snd := SW.MarkResent(e'.snd)), [e'.snd.pkts[0]]))
  {
  }

  /** An acknowledgement, and the fast retransmission it may trigger. */
  lemma HandleAckPair(a: Node, b: Node, mab: nat, mba: nat, e: Endpoint, o: Outcome, z: Node)
    requires Pair(a.(ep := e), b, mab, mba)
    requires || o == Done(e, [])
             || (e.snd.pkts != [] && o == Done(e.(snd := SW.MarkResent(e.snd)), [e.snd.pkts[0]]))
    requires Same(z, a.(ep := o.ep, out := a.out + o.out))
    ensures Pair(z, b, mab, mba)
  {
    var a1 := a.(ep := e);
    if o.out != [] {
      PairResend(a1, b, mab, mba);
    } else {
      assert a.out + [] == a.out;
      PairAs(a1, z, b, mab, mba);
    }
  }

  /** What an acknowledgement may change and send. */
  lemma HandleAckEffect(a: Node, e: Endpoint, p: Packet) returns (o: Outcome)
    requires AckEffect(a.ep, p, e) && SendSide(a.(ep := e)) && Acked(a.(ep := e)) > 0
    ensures o == HandleACK(a.ep, p)
    ensures || o == Done(e, [])
            || (e.snd.pkts != [] && o == Done(e.(snd := SW.MarkResent(e.snd)), [e.snd.pkts[0]]))
    ensures |o.ep.snd.pkts| == |e.snd.pkts| <= |a.ep.snd.pkts|
    ensures o.ep.rcv == a.ep.rcv && o.ep.recvBuf == a.ep.recvBuf && o.ep.recvCap == a.ep.recvCap
            && o.ep.overflow == a.ep.overflow && o.ep.pipe == a.ep.pipe
    ensures o.ep.state == StateOnACK(a.ep.state, e.snd.pkts == [])
    ensures forall i :: 0 <= i < |o.out| ==> !o.out[i].sync && o.out[i].size > 0
  {
    HandleAckIs(a.ep, p, e);
    o := HandleACK(a.ep, p);
    if o.out != [] {
      BaseNotSync(a.(ep := e));
    }
  }

  lemma PairAs(x: Node, z: Node, b: Node, mab: nat, mba: nat)
    requires Pair(x, b, mab, mba) && Same(x, z)
    ensures Pair(z, b, mab, mba)
  {
  }

  lemma BaseNotSync(a: Node)
    requires SendSide(a) && Acked(a) > 0 && a.ep.snd.pkts != []
    ensures !a.ep.snd.pkts[0].sync && a.ep.snd.pkts[0].size > 0
  {
    var n := Acked(a);
    assert Same(a.ep.snd.pkts[0], a.log[n]);
    assert KindOk(a.log[n], n, |a.log|);
    EdgeOrder(a.iss, a.log, n, |a.log|);
  }
}
