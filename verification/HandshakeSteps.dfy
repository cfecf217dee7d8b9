/** SYN and SYN-ACK, first copies and repeats. */
module HandshakeSteps {
  import opened Packets
  import opened Endpoints
  import opened Logs
  import opened Reassembly
  import opened Network
  import opened Invariants
  import opened SenderLemmas
  import opened FlightLemmas
  import opened ReceiverLemmas
  import opened PairSteps
  import opened SendSteps
  import opened DeliverSteps
  import SW = SendWindows
  import RW = RecvWindows

  /** The packet at the head is the one that opens the peer's log. */
  lemma HeadOpens(a: Node, b: Node, mba: nat)
    requires SendSide(b) && Direction(b, a, mba) && b.out != [] && b.out[0].sync
    ensures b.log != [] && Same(b.out[0], b.log[0]) && Opening(b.log[0], b.iss)
    ensures Edge(b.iss, b.log, 1) == b.iss + 1 < U32
  {
    var p := b.out[0];
    assert Shape(b.log, Acked(b), p);
    var k :| 0 <= k < |b.log| && b.log[k] == p;
    assert KindOk(b.log[k], k, |b.log|);
    EdgeOrder(b.iss, b.log, 0, |b.log|);
    if |b.log| > 1 { EdgeOrder(b.iss, b.log, 1, |b.log|); }
  }

  /** Having accepted just the opening packet of a log. */
  lemma FirstAccepted(iss: nat, log: seq<Packet>, e: Endpoint, read: seq<byte>, m: nat)
    requires LogOk(iss, log) && log != [] && Opening(log[0], iss) && m <= 1
    requires Streamed(log, m, e, read)
    ensures Streamed(log, 1, e, read)
    ensures RecvOk(iss, log, 1, RW.RecvWin(iss + 1, []))
  {
    assert log[..1] == log[..0] + [log[0]];
    assert log[..0] == [];
    assert [log[0]][1..] == [];
    assert Bytes(log[..1]) == [];
    if |log| > 1 { assert KindOk(log[0], 0, |log|); }
  }

  /** The receiving half of `a` moves to one accepted packet, or stays there. */
  ghost predicate OpeningTaken(a: Node, iss: nat, a': Node) {
    && SameSender(a, a') && a'.ep.state == a.ep.state && a'.out == a.out
    && a'.ep.rcv == RW.RecvWin(iss + 1, []) && a'.ep.recvBuf == a.ep.recvBuf && a'.ep.recvCap == a.ep.recvCap
    && a'.ep.overflow == a.ep.overflow && a'.ep.pipe == a.ep.pipe && a'.read == a.read
  }

  lemma TakeOpeningReceiver(a: Node, b: Node, mba: nat, a': Node)
    requires SendSide(b) && Direction(b, a, mba) && b.out != [] && b.out[0].sync
    requires mba <= 1 && a.ep.rcv.list == [] && OpeningTaken(a, b.iss, a')
    ensures Direction(Popped(b), a', 1)
  {
    HeadOpens(a, b, mba);
    FirstAccepted(b.iss, b.log, a.ep, a.read, mba);
    if mba == 0 { EdgeOrder(b.iss, b.log, 0, 1); }
    AcksMoreAccepted(b.iss, b.log, Acked(b), mba, 1, Room(a), a.out);
    HeadTaken(a, b, mba, a', 1);
  }

  lemma TakeOpening(a: Node, b: Node, mab: nat, mba: nat, a': Node)
    requires Pair(a, b, mab, mba) && b.out != [] && b.out[0].sync
    requires mba <= 1 && a.ep.rcv.list == [] && OpeningTaken(a, b.iss, a')
    ensures Pair(a', Popped(b), mab, 1)
  {
    TakeOpeningReceiver(a, b, mba, a');
    HeadDropped(a, b, mab);
    SenderFrame(a, Popped(b), mab, a');
    PoppedSendSide(b);
    OpeningSendSide(a, b.iss, a');
  }

  lemma OpeningSendSide(a: Node, iss: nat, a': Node)
    requires SendSide(a) && OpeningTaken(a, iss, a')
    ensures SendSide(a')
  {
  }

  lemma AcksMoreAccepted(iss: nat, log: seq<Packet>, acked: int, m: nat, m': nat, room: nat, ch: seq<Packet>)
    requires AcksOk(iss, log, acked, m, room, ch) && m <= m' <= |log|
    ensures AcksOk(iss, log, acked, m', room, ch)
  {
    forall i | 0 <= i < |ch| && PureAck(ch[i]) ensures AckOk(iss, log, acked, m', ch[i].ackNum) {
      var k :| 1 <= k <= m && acked <= k && k <= |log| && ch[i].ackNum == Edge(iss, log, k);
      assert 1 <= k <= m';
    }
  }

  // ---------------------------------------------------------------------------
  // SYN at the server

  /** The receive window accepts the SYN, or has it already; either way it
      answers with the sequence number after it. */
  lemma SynReceived(a: Node, b: Node, mba: nat)
    requires SendSide(b) && Direction(b, a, mba) && b.out != [] && b.out[0].sync
    requires mba <= 1 && a.ep.rcv.list == []
    ensures var r := RW.ReceivePacket(a.ep.rcv, b.out[0]);
            r.Received? && r.win == RW.RecvWin(b.iss + 1, []) && r.ackNum == b.iss + 1
    ensures b.out[0].seqNum == b.iss && b.iss + 1 < U32
  {
    HeadOpens(a, b, mba);
    if mba == 0 { ReceiveAlone(b.iss, b.out[0]); } else { ReceivePast(b.iss + 1, b.out[0]); }
  }

  lemma ReceivePast(base: nat, p: Packet)
    requires p.seqNum < base
    ensures RW.ReceivePacket(RW.RecvWin(base, []), p) == RW.Received(RW.RecvWin(base, []), base, [])
  {
  }

  /** The expected packet reaches a window that holds nothing. */
  lemma ReceiveAlone(base: nat, p: Packet)
    requires p.seqNum == base && base + p.size < U32
    ensures RW.ReceivePacket(RW.RecvWin(base, []), p) == RW.Received(RW.RecvWin(base + p.size, []), base + p.size, [p])
  {
    assert RW.Insert([], p) == [p];
    assert [p][1..] == [];
  }

  /** What `HandleSYN` does with a first SYN. */
  lemma FirstSynIs(e: Endpoint, p: Packet, synAck: Packet)
    requires e.snd.size == 0 && p.seqNum + 1 < U32
    requires RW.ReceivePacket(e.rcv, p).Received? && RW.ReceivePacket(e.rcv, p).ackNum == p.seqNum + 1
    requires synAck == MakeSyncPacket(SERVER_SEQ_NUM, RecvFree(e)).(ack := true, ackNum := p.seqNum + 1)
    requires SW.SendPacket(e.snd, synAck).Sent?
    ensures HandleSYN(e, p) ==
              Done(e.(rcv := RW.ReceivePacket(e.rcv, p).win, snd := SW.SendPacket(e.snd, synAck).win,
                      state := SYN_RCVD, timer := true), [synAck])
  {
  }

  lemma FirstSynEffect(a: Node, b: Node, mba: nat, synAck: Packet) returns (o: Outcome)
    requires SendSide(a) && SendSide(b) && Direction(b, a, mba) && b.out != [] && b.out[0].sync
    requires mba <= 1 && a.ep.rcv.list == [] && a.log == [] && a.iss == SERVER_SEQ_NUM
    requires synAck == MakeSyncPacket(SERVER_SEQ_NUM, RecvFree(a.ep)).(ack := true, ackNum := b.iss + 1)
    ensures SW.SendPacket(a.ep.snd, synAck).Sent? && SW.SendPacket(a.ep.snd, synAck).win.pkts == [synAck]
    ensures o == Done(a.ep.(rcv := RW.RecvWin(b.iss + 1, []), snd := SW.SendPacket(a.ep.snd, synAck).win,
                            state := SYN_RCVD, timer := true), [synAck])
    ensures o == HandleSYN(a.ep, b.out[0])
  {
    SynReceived(a, b, mba);
    OpenEffect(a, synAck);
    WindowValid(a.iss, a.log, a.ep.snd);
    FirstSynIs(a.ep, b.out[0], synAck);
    o := HandleSYN(a.ep, b.out[0]);
  }

  /** The first SYN: the server registers its SYN-ACK. */
  lemma FirstSynPair(a: Node, b: Node, mab: nat, mba: nat, synAck: Packet, a1: Node)
    requires Pair(a, b, mab, mba) && b.out != [] && b.out[0].sync
    requires mba <= 1 && a.ep.rcv.list == [] && a.log == []
    requires Opening(synAck, a.iss) && Same(a1, a.(ep := a.ep.(rcv := RW.RecvWin(b.iss + 1, []))))
    ensures SW.SendPacket(a1.ep.snd, synAck).Sent?
    ensures Pair(Grown(a1, a1.ep.(snd := SW.SendPacket(a1.ep.snd, synAck).win, state := SYN_RCVD, timer := true), [synAck]),
                 Popped(b), mab, 1)
  {
    TakeOpening(a, b, mab, mba, a1);
    OpenPair(a1, Popped(b), mab, 1, synAck, SYN_RCVD);
  }

  /** What `HandleSYN` does with a repeated SYN. */
  lemma RepeatedSynEffect(a: Node, b: Node, mba: nat) returns (o: Outcome)
    requires SendSide(a) && SendSide(b) && Direction(b, a, mba) && b.out != [] && b.out[0].sync
    requires mba == 1 && a.ep.rcv.list == [] && a.log != [] && Acked(a) == 0
    ensures a.ep.snd.pkts != [] && Same(a.ep.snd.pkts[0], a.log[0])
    ensures a.ep.rcv == RW.RecvWin(b.iss + 1, [])
    ensures o == Done(a.ep.(snd := SW.MarkResent(a.ep.snd)), [a.ep.snd.pkts[0]])
    ensures o == HandleSYN(a.ep, b.out[0])
  {
    SynReceived(a, b, mba);
    HeadOpens(a, b, mba);
    WindowValid(a.iss, a.log, a.ep.snd);
    o := HandleSYN(a.ep, b.out[0]);
  }

  /** A repeated SYN: the SYN-ACK is sent again. */
  lemma RepeatedSynPair(a: Node, b: Node, mab: nat, mba: nat)
    requires Pair(a, b, mab, mba) && b.out != [] && b.out[0].sync
    requires mba == 1 && a.ep.rcv == RW.RecvWin(b.iss + 1, []) && a.ep.snd.pkts != []
    ensures Pair(a.(ep := a.ep.(snd := SW.MarkResent(a.ep.snd)), out := a.out + [a.ep.snd.pkts[0]]), Popped(b), mab, 1)
  {
    TakeOpening(a, b, mab, mba, a);
    PairResend(a, Popped(b), mab, 1);
  }

  // ---------------------------------------------------------------------------
  // SYN-ACK at the client

  /** The client acknowledges the SYN-ACK, first or repeated. */
  lemma AnswerSynAck(a: Node, b: Node, mab: nat, p: Packet)
    requires Pair(a, b, mab, 1) && b.log != []
    requires p == AckOf(a.ep, a.ep.rcv.base)
    ensures Pair(a.(out := a.out + [p]), b, mab, 1)
  {
    var a' := a.(out := a.out + [p]);
    AckSent(a, b, 1, a.ep, 1, p);
    AckAppended(a, b, mab, p);
    SenderFrame(a, b, mab, a');
    ReceiverFrame(a, b, 1, a');
  }

  predicate NoAcks(ch: seq<Packet>) {
    forall i :: 0 <= i < |ch| ==> !PureAck(ch[i])
  }

  /** The SYN of the client is acknowledged and the connection established. */
  lemma SynAckedPair(a: Node, b: Node, mab: nat, mba: nat, ackNum: nat, window: nat) returns (e: Endpoint)
    requires Pair(a, b, mab, mba) && a.ep.state == SYN_SENT && 0 < mab
    requires ackNum == a.iss + 1 && window < U16 && window <= Room(b) && NoAcks(b.out)
    ensures var r := SW.NewAckedPacket(a.ep.snd, ackNum);
            && r.Acked? && r.win.pkts == []
            && e == a.ep.(snd := r.win.(capacity := window), timer := false, state := ESTABLISHED)
    ensures Pair(a.(ep := e), b, mab, mba)
  {
    e := SynAckedSendSide(a, ackNum, window);
    SynAckedDirection(a, b, mab, a.(ep := e));
    ReceiverFrame(a, b, mba, a.(ep := e));
  }

  /** The sender's half once its SYN is acknowledged. */
  lemma SynAckedSendSide(a: Node, ackNum: nat, window: nat) returns (e: Endpoint)
    requires SendSide(a) && a.ep.state == SYN_SENT && ackNum == a.iss + 1 && window < U16
    ensures var r := SW.NewAckedPacket(a.ep.snd, ackNum);
            && r.Acked? && r.win.pkts == []
            && e == a.ep.(snd := r.win.(capacity := window), timer := false, state := ESTABLISHED)
    ensures SendSide(a.(ep := e)) && e.snd.base == a.iss + 1 && Edge(a.iss, a.log, 1) == a.iss + 1
  {
    EdgeOrder(a.iss, a.log, 0, 1);
    assert KindOk(a.log[0], 0, 1);
    AckEdge(a.iss, a.log, a.ep.snd, 1);
    var r := SW.NewAckedPacket(a.ep.snd, ackNum);
    e := a.ep.(snd := r.win.(capacity := window), timer := false, state := ESTABLISHED);
    AckedSendSide(a, a.(ep := e));
  }

  lemma SynAckedDirection(a: Node, b: Node, mab: nat, a': Node)
    requires Direction(a, b, mab) && 0 < mab && |a.log| == 1 && Acked(a) == 0 && !HasFin(a.log)
    requires a'.iss == a.iss && a'.log == a.log && a'.out == a.out && a'.ep.snd.pkts == []
    requires a'.ep.snd.base == a.iss + 1 && a'.ep.snd.capacity <= Room(b) && NoAcks(b.out)
    requires Edge(a.iss, a.log, 1) == a.iss + 1
    ensures Direction(a', b, mab)
  {
    InFlightMoreAcked(a.log, 0, 1, b.ep.rcv, a.out);
  }

  /** What `HandleACKSYN` does with a first SYN-ACK. */
  lemma FirstSynAckIs(e: Endpoint, p: Packet, e': Endpoint)
    requires e.state == SYN_SENT && p.seqNum + 1 < U32
    requires var r := SW.NewAckedPacket(e.snd, p.ackNum);
             && r.Acked? && r.win.pkts == []
             && e' == e.(rcv := e.rcv.(base := p.seqNum + 1), snd := r.win.(capacity := p.window),
                         timer := false, state := ESTABLISHED)
    ensures HandleACKSYN(e, p) == Done(e', [AckOf(e', p.seqNum + 1)])
  {
  }

  /** `a1` is the client once it has taken the SYN-ACK into its receive window. */
  lemma FirstSynAckPair(a: Node, b: Node, mab: nat, mba: nat, a1: Node) returns (e: Endpoint)
    requires Pair(a, b, mab, mba) && b.out != [] && b.out[0].sync
    requires mba <= 1 && a.ep.rcv.list == [] && a.ep.state == SYN_SENT && 0 < mab
    requires SynAckOk(b.out[0], a.iss + 1, Room(b)) && NoAcks(b.out)
    requires Same(a1, a.(ep := a.ep.(rcv := RW.RecvWin(b.iss + 1, []))))
    ensures var r := SW.NewAckedPacket(a1.ep.snd, b.out[0].ackNum);
            && r.Acked? && r.win.pkts == []
            && e == a1.ep.(snd := r.win.(capacity := b.out[0].window), timer := false, state := ESTABLISHED)
    ensures Pair(a1.(ep := e), Popped(b), mab, 1)
  {
    TakeOpening(a, b, mab, mba, a1);
    e := SynAckedPair(a1, Popped(b), mab, 1, b.out[0].ackNum, b.out[0].window);
  }

  /** A repeated SYN-ACK changes nothing and is acknowledged again. */
  lemma RepeatedSynAckPair(a: Node, b: Node, mab: nat, mba: nat)
    requires Pair(a, b, mab, mba) && b.out != [] && b.out[0].sync
    requires mba == 1 && a.ep.rcv == RW.RecvWin(b.iss + 1, [])
    ensures Pair(a.(out := a.out + [AckOf(a.ep, a.ep.rcv.base)]), Popped(b), mab, 1)
  {
    TakeOpening(a, b, mab, mba, a);
    AnswerSynAck(a, Popped(b), mab, AckOf(a.ep, a.ep.rcv.base));
  }

  lemma RepeatedSynAckEffect(a: Node, b: Node, mba: nat)
    requires SendSide(b) && Direction(b, a, mba) && b.out != [] && b.out[0].sync
    requires mba == 1 && a.ep.rcv.list == [] && a.ep.state != SYN_SENT
    ensures a.ep.rcv == RW.RecvWin(b.iss + 1, [])
    ensures HandleACKSYN(a.ep, b.out[0]) == Done(a.ep, [AckOf(a.ep, a.ep.rcv.base)])
  {
    HeadOpens(a, b, mba);
  }
}
