/** Each kind of step, taken by node `a` with peer `b`, keeps the two directions
    between them intact. */
module PairSteps {
  import opened Packets
  import opened Endpoints
  import opened Logs
  import opened Network
  import opened Invariants
  import opened FlightLemmas
  import opened ReceiverLemmas
  import SW = SendWindows

  lemma LogNotPureAck(iss: nat, log: seq<Packet>, p: Packet)
    requires LogOk(iss, log) && p in log
    ensures !PureAck(p) && p.size > 0
  {
    var k :| 0 <= k < |log| && log[k] == p;
    assert KindOk(log[k], k, |log|);
    EdgeOrder(iss, log, k, |log|);
  }

  /** Node `a'` receives exactly as `a` did. */
  predicate SameReceiver(a: Node, a': Node) {
    && a'.ep.rcv == a.ep.rcv && a'.ep.recvBuf == a.ep.recvBuf && a'.ep.recvCap == a.ep.recvCap
    && a'.ep.overflow == a.ep.overflow && a'.ep.pipe == a.ep.pipe && a'.read == a.read
  }

  /** Node `a'` sends exactly as `a` did, up to what is in flight. */
  predicate SameSender(a: Node, a': Node) {
    && a'.iss == a.iss && a'.log == a.log && a'.written == a.written && a'.ep.sendBuf == a.ep.sendBuf
    && a'.ep.snd == a.ep.snd && a'.ep.shutdown == a.ep.shutdown && a'.ep.timer == a.ep.timer
    && a'.ep.prober == a.ep.prober
  }

  lemma ReceiverFrame(a: Node, b: Node, mba: nat, a': Node)
    requires Direction(b, a, mba) && SameReceiver(a, a')
    requires AcksOk(b.iss, b.log, Acked(b), mba, Room(a), a'.out) && NoneBehind(SenderEdge(b), a'.out)
    ensures Direction(b, a', mba)
  {
  }

  lemma SenderFrame(a: Node, b: Node, mab: nat, a': Node)
    requires Direction(a, b, mab) && SameSender(a, a')
    requires InFlight(a.log, Acked(a), b.ep.rcv, a'.out)
    ensures Direction(a', b, mab)
  {
  }

  /** A lost packet. */
  lemma PairDrop(a: Node, b: Node, mab: nat, mba: nat, i: nat)
    requires Pair(a, b, mab, mba) && i < |a.out|
    ensures Pair(a.(out := Without(a.out, i)), b, mab, mba)
  {
    var a' := a.(out := Without(a.out, i));
    InFlightDrop(a.log, Acked(a), b.ep.rcv, a.out, i);
    AcksDrop(b.iss, b.log, Acked(b), mba, Room(a), a.out, i);
    NoneBehindDrop(SenderEdge(b), a.out, i);
    SenderFrame(a, b, mab, a');
    ReceiverFrame(a, b, mba, a');
  }

  /** Pair is symmetric. */
  lemma PairSwap(a: Node, b: Node, mab: nat, mba: nat)
    requires Pair(a, b, mab, mba)
    ensures Pair(b, a, mba, mab)
  {
  }

  lemma NothingRegistered(a: Node, e: Endpoint, out: seq<Packet>)
    requires |e.snd.pkts| <= |a.ep.snd.pkts|
    ensures NodeAfter(a, e, out) == a.(ep := e, out := a.out + out)
  {
    assert a.log + [] == a.log;
  }

  /** The base packet is sent again. */
  lemma PairResend(a: Node, b: Node, mab: nat, mba: nat)
    requires Pair(a, b, mab, mba) && a.ep.snd.pkts != []
    ensures Pair(a.(ep := a.ep.(snd := SW.MarkResent(a.ep.snd)), out := a.out + [a.ep.snd.pkts[0]]), b, mab, mba)
  {
    var p := a.ep.snd.pkts[0];
    var a1 := a.(out := a.out + [p]);
    BaseInFlight(a, b, mab);
    LogNotPureAck(a.iss, a.log, p);
    SenderFrame(a, b, mab, a1);
    OtherSentBack(a, b, mba, p, a1);
    PairMark(a1, b, mab, mba);
  }

  lemma PairMark(a: Node, b: Node, mab: nat, mba: nat)
    requires Pair(a, b, mab, mba)
    ensures Pair(a.(ep := a.ep.(snd := SW.MarkResent(a.ep.snd))), b, mab, mba)
  {
    var a' := a.(ep := a.ep.(snd := SW.MarkResent(a.ep.snd)));
    WindowMark(a.iss, a.log, a.ep.snd);
    ReceiverFrame(a, b, mba, a');
    WindowFrame(a, b, mab, a');
  }

  lemma WindowMark(iss: nat, log: seq<Packet>, w: SW.SendWin)
    requires WindowOk(iss, log, w)
    ensures WindowOk(iss, log, SW.MarkResent(w))
  {
  }

  /** A change to the window's counters does not show in the direction. */
  lemma WindowFrame(a: Node, b: Node, mab: nat, a': Node)
    requires Direction(a, b, mab)
    requires a'.iss == a.iss && a'.log == a.log && a'.out == a.out
    requires a'.ep.snd.pkts == a.ep.snd.pkts && a'.ep.snd.base == a.ep.snd.base
    requires a'.ep.snd.capacity == a.ep.snd.capacity
    ensures Direction(a', b, mab)
  {
  }

  lemma BaseInFlight(a: Node, b: Node, mab: nat)
    requires SendSide(a) && Direction(a, b, mab) && a.ep.snd.pkts != []
    ensures a.ep.snd.pkts[0] in a.log
    ensures InFlight(a.log, Acked(a), b.ep.rcv, a.out + [a.ep.snd.pkts[0]])
  {
    var p, n := a.ep.snd.pkts[0], Acked(a);
    assert Same(p, a.log[n]);
    EdgeOrder(a.iss, a.log, n, |a.log|);
    if n < mab { EdgeOrder(a.iss, a.log, n, mab); }
    InFlightAppend(a.log, n, b.ep.rcv, a.out, p);
  }

  /** A window probe. */
  lemma PairProbe(a: Node, b: Node, mab: nat, mba: nat, p: Packet)
    requires Pair(a, b, mab, mba) && IsProbe(p) && Acked(a) > 0
    ensures Pair(a.(out := a.out + [p]), b, mab, mba)
  {
    var a' := a.(out := a.out + [p]);
    InFlightAppend(a.log, Acked(a), b.ep.rcv, a.out, p);
    SenderFrame(a, b, mab, a');
    OtherSentBack(a, b, mba, p, a');
  }

  /** The application reads `n` bytes, or consumes the end of the stream. */
  ghost predicate DidReadTo(a: Node, a': Node, n: nat) {
    && n <= |a.ep.recvBuf|
    && Same(a', a.(ep := a.ep.(recvBuf := a.ep.recvBuf[n..], pipe := a'.ep.pipe), read := a.read + a.ep.recvBuf[..n]))
    && (a'.ep.pipe == a.ep.pipe ||
        (a.ep.pipe == EOF_NOT_CONSUMED && a'.ep.pipe == EOF_CONSUMED && a.ep.recvBuf == []))
  }

  lemma SplitJoin<T>(s: seq<T>, t: seq<T>, n: nat)
    requires n <= |t|
    ensures s + t == (s + t[..n]) + t[n..]
  {
  }

  lemma ReadDirection(a: Node, b: Node, mba: nat, a': Node, n: nat)
    requires Direction(b, a, mba) && DidReadTo(a, a', n)
    ensures Direction(b, a', mba)
  {
    SplitJoin(a.read, a.ep.recvBuf, n);
    AcksMoreRead(b.iss, b.log, Acked(b), mba, Room(a), Room(a'), a.out);
  }

  lemma PairRead(a: Node, b: Node, mab: nat, mba: nat, a': Node, n: nat)
    requires Pair(a, b, mab, mba) && DidReadTo(a, a', n)
    ensures Pair(a', b, mab, mba)
  {
    SenderFrame(a, b, mab, a');
    ReadDirection(a, b, mba, a', n);
  }

  /** The application writes. */
  ghost predicate Wrote(a: Node, a': Node, data: seq<byte>) {
    Same(a', a.(ep := a.ep.(sendBuf := a.ep.sendBuf + data), written := a.written + data))
  }

  lemma PairWrite(a: Node, b: Node, mab: nat, mba: nat, a': Node, data: seq<byte>)
    requires Pair(a, b, mab, mba) && !HasFin(a.log) && SeqUse(a) + |data| < U32 && Wrote(a, a', data)
    ensures Pair(a', b, mab, mba)
  {
    Regroup(Bytes(a.log), a.ep.sendBuf, data);
    ReceiverFrame(a, b, mba, a');
  }

  // ---------------------------------------------------------------------------
  // Registering packets

  /** A new packet at the end of the log, in the window and in the channel. */
  ghost predicate Registers(a: Node, p: Packet, a': Node) {
    && a'.iss == a.iss && a'.out == a.out + [p] && a'.log == a.log + [p]
    && a'.ep.snd.pkts == a.ep.snd.pkts + [p]
    && SameReceiver(a, a')
  }

  lemma PairRegister(a: Node, b: Node, mab: nat, mba: nat, p: Packet, a': Node)
    requires Pair(a, b, mab, mba) && Registers(a, p, a') && SendSide(a')
    requires !HasFin(a.log) && p.size > 0 && p.seqNum == Edge(a.iss, a.log, |a.log|)
    requires FlowOk(a'.iss, a'.log, Acked(a'), a'.ep.snd.base, a'.ep.snd.capacity, Room(b)) && SenderEdge(a') <= SenderEdge(a)
    ensures Pair(a', b, mab, mba)
  {
    RegisterDirection(a, b, mab, p, a');
    LogNotPureAck(a'.iss, a'.log, p);
    OtherSentBack(a, b, mba, p, a');
  }

  /** A packet that is no acknowledgement does not show in the other direction. */
  lemma OtherSentBack(a: Node, b: Node, mba: nat, p: Packet, a': Node)
    requires Direction(b, a, mba) && !PureAck(p) && SameReceiver(a, a') && a'.out == a.out + [p]
    ensures Direction(b, a', mba)
  {
    AcksAppendOther(b.iss, b.log, Acked(b), mba, Room(a), a.out, p);
    ReceiverFrame(a, b, mba, a');
  }

  lemma RegisterDirection(a: Node, b: Node, mab: nat, p: Packet, a': Node)
    requires SendSide(a) && Direction(a, b, mab) && Registers(a, p, a')
    requires !HasFin(a.log) && p.size > 0 && p.seqNum == Edge(a.iss, a.log, |a.log|)
    requires FlowOk(a'.iss, a'.log, Acked(a'), a'.ep.snd.base, a'.ep.snd.capacity, Room(b)) && SenderEdge(a') <= SenderEdge(a)
    ensures Direction(a', b, mab)
  {
    RecvOkGrow(a.iss, a.log, mab, b.ep.rcv, p);
    InFlightRegister(a.iss, a.log, Acked(a), mab, b.ep.rcv, a.out, p);
    AcksRegister(a.iss, a.log, Acked(a), mab, Room(b), b.out, p);
    assert a'.log[..mab] == a.log[..mab];
  }

  lemma KindsGrow(iss: nat, log: seq<Packet>, p: Packet)
    requires LogOk(iss, log) && !HasFin(log) && SeqLog(iss, log + [p])
    requires KindOk(p, |log|, |log| + 1)
    ensures LogOk(iss, log + [p])
    ensures Bytes(log + [p]) == Bytes(log) + p.payload
  {
    var log' := log + [p];
    forall k | 0 <= k < |log'| ensures KindOk(log'[k], k, |log'|) {
      if k < |log| {
        assert log'[k] == log[k];
        assert KindOk(log[k], k, |log|);
      }
    }
    BytesAppend(log, [p]);
    assert [p][1..] == [];
    assert p.payload + [] == p.payload;
  }
}
