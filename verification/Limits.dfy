/** Where closing does not keep its promises: the exact conditions, and runs that
    show them broken. */
module Limits {
  import opened Packets
  import opened Endpoints
  import opened Network
  import opened Logs
  import opened Invariants
  import opened SenderLemmas
  import opened Safety
  import opened Theorems
  import opened Progress
  import opened ConcreteRuns
  import opened FinStates
  import opened EarlyClose
  import opened Liveness
  import ClosingRun
  import ShortRun
  import EarlyFinRun
  import SW = SendWindows

  lemma AckEmptiesExactly(iss: nat, log: seq<Packet>, w: SW.SendWin, k: nat)
    requires SeqLog(iss, log) && WindowOk(iss, log, w) && |log| - |w.pkts| <= k <= |log| && log != []
    ensures var r := SW.NewAckedPacket(w, Edge(iss, log, k));
            && r.Acked? && (r.win.pkts == [] <==> k == |log|)
            && (k == |log| <==> Edge(iss, log, k) == SW.NextSeqNumberToSend(w))
  {
    AckEdge(iss, log, w, k);
    if k < |log| { EdgeOrder(iss, log, k, |log|); }
  }

  /** In CLOSING the code moves to TIME_WAIT on any acknowledgement. The move means
      that the FIN has been acknowledged, and so that the peer has accepted every
      byte and recorded the end of the stream, if and only if the acknowledgement
      number is the next one to send. */
  lemma ClosingAckExact(sys: System, x: Side)
    requires Reachable(sys) && Enabled(sys, Deliver(x))
    requires Self(sys, x).ep.state == CLOSING && PureAck(Self(sys, Peer(x)).out[0]) && !Self(sys, Peer(x)).out[0].fin
    ensures var a, b := Self(sys, x), Self(sys, Peer(x));
            var a' := Self(Apply(sys, Deliver(x)), x);
            && a'.ep.state == TIME_WAIT
            && (a'.ep.snd.pkts == [] <==> b.out[0].ackNum == SW.NextSeqNumberToSend(a.ep.snd))
            && (a'.ep.snd.pkts == [] ==> b.read + b.ep.recvBuf == a.written && b.ep.pipe != OPEN)
  {
    var mc, ms := ReachableView(sys, x);
    ClosingHandled(Self(sys, x), Self(sys, Peer(x)), Fwd(x, mc, ms));
  }

  lemma ClosingHandled(a: Node, b: Node, m: nat)
    requires SendSide(a) && Direction(a, b, m) && a.ep.state == CLOSING && b.out != [] && PureAck(b.out[0])
    ensures var o := HandleACK(a.ep, b.out[0]);
            && o.Done? && o.ep.state == TIME_WAIT
            && (o.ep.snd.pkts == [] <==> b.out[0].ackNum == SW.NextSeqNumberToSend(a.ep.snd))
            && (o.ep.snd.pkts == [] ==> b.read + b.ep.recvBuf == a.written && b.ep.pipe != OPEN)
  {
    assert AckOk(a.iss, a.log, Acked(a), m, b.out[0].ackNum);
    var k :| 1 <= k <= m && Acked(a) <= k && k <= |a.log| && b.out[0].ackNum == Edge(a.iss, a.log, k);
    AckEmptiesExactly(a.iss, a.log, a.ep.snd, k);
    StreamOf(a, b, m);
  }

  /** The other case happens: a connection in TIME_WAIT whose FIN is unacknowledged
      while its peer has not seen the end of the stream. */
  lemma TimeWaitWithoutDelivery() returns (sys: System)
    ensures Reachable(sys) && Self(sys, Client).ep.state == TIME_WAIT
    ensures Self(sys, Client).ep.snd.pkts != [] && Self(sys, Server).ep.pipe == OPEN
    ensures !sys.aborted && sys.s.ep.recvBuf != [] && sys.s.read == [] && sys.c.written != [] && !sys.s.ep.shutdown
  {
    sys := Sys(ClosingRun.C7(), ClosingRun.S4([]));
    var steps := ClosingRun.ClosingRunLeads();
    LeadsIs(Init(CFG), steps, sys);
    assert ReachedBy(CFG, steps, sys);
  }

  /** `SendFIN` raises the capacity so that the window always takes the FIN. The
      FIN goes out, and the state moves on, if and only if the connection is in
      ESTABLISHED or CLOSE_WAIT; in any other state it stays in the window unsent
      and no timer is started for it. */
  lemma SendFinExact(e: Endpoint)
    requires SW.ValidWin(e.snd) && e.snd.size + 1 < U32
    ensures var o, fin := SendFIN(e), Packet(Wrap(e.snd.base + e.snd.size), 0, 0, false, false, true, 1, []);
            var w := e.snd.(pkts := e.snd.pkts + [fin], size := e.snd.size + 1, capacity := e.snd.size + 1);
            && SW.ValidWin(w)
            && o == match e.state
                    case ESTABLISHED => Done(e.(snd := w, state := FIN_WAIT_1, timer := true), [fin])
                    case CLOSE_WAIT => Done(e.(snd := w, state := LAST_ACK, timer := true), [fin])
                    case _ => Done(e.(snd := w), [])
  {
    FinTaken(e.snd);
    FinSent(e, SW.SendPacket(e.snd.(capacity := e.snd.size + 1), MakeFinPacket(SW.NextSeqNumberToSend(e.snd))).win);
  }

  lemma FinSent(e: Endpoint, w: SW.SendWin)
    requires e.snd.size + 1 < U32
    requires Same(SW.SendPacket(e.snd.(capacity := e.snd.size + 1), MakeFinPacket(SW.NextSeqNumberToSend(e.snd))), SW.Sent(w))
    ensures var fin := MakeFinPacket(SW.NextSeqNumberToSend(e.snd));
            SendFIN(e) == if e.state == ESTABLISHED || e.state == CLOSE_WAIT
                          then Done(e.(snd := w, state := StateOnSendFIN(e.state), timer := true), [fin])
                          else Done(e.(snd := w), [])
  {
  }

  lemma FinTaken(w: SW.SendWin)
    requires SW.ValidWin(w) && w.size + 1 < U32
    ensures var fin := MakeFinPacket(SW.NextSeqNumberToSend(w));
            var r := SW.SendPacket(w.(capacity := w.size + 1), fin);
            r == SW.Sent(w.(pkts := w.pkts + [fin], size := w.size + 1, capacity := w.size + 1)) && SW.ValidWin(r.win)
  {
    SW.SendPacketKeepsValid(w.(capacity := w.size + 1), MakeFinPacket(SW.NextSeqNumberToSend(w)));
  }

  /** The exception of `FinStates.FinRecordedExactly` happens: the server is in
      ESTABLISHED although it has received the end of the stream, the client waits
      in FIN_WAIT_2 with nothing left to send again, and nothing is in flight. */
  lemma FinUnrecorded() returns (sys: System)
    ensures Reachable(sys) && !FinRecorded(sys.s.ep) && sys.s.ep.state == ESTABLISHED
    ensures !sys.aborted && sys.live && !sys.s.ep.shutdown && sys.s.ep.pipe == EOF_NOT_CONSUMED && sys.s.ep.recvBuf == []
    ensures sys.c.ep.state == FIN_WAIT_2 && sys.c.ep.snd.pkts == [] && sys.c.out == [] && sys.s.out == []
  {
    sys := Sys(EarlyFinRun.C4([]), EarlyFinRun.S4());
    var steps := EarlyFinRun.EarlyFinRunLeads();
    LeadsIs(Init(CFG), steps, sys);
    assert ReachedBy(CFG, steps, sys);
    assert FinArrived(sys.s.ep);
  }

  /** The end of a stream is read twice: the first read returns zero, the second is
      an ordinary call that is logged as fatal and ends the process. */
  lemma SecondReadAborts() returns (sys: System, size: nat)
    ensures Reachable(sys) && !sys.aborted && sys.s.ep.pipe == EOF_CONSUMED && size > 0
    ensures Enabled(sys, Read(Server, size)) && Apply(sys, Read(Server, size)).aborted
  {
    var before := FinUnrecorded();
    size := 1;
    sys := Apply(before, Read(Server, size));
    ReachableStep(before, Read(Server, size));
    AbortsExactly(before, Read(Server, size));
    AbortsExactly(sys, Read(Server, size));
  }

  /** A read of zero bytes returns zero with the stream open and its bytes unread. */
  lemma ZeroReadIsNoEnd() returns (sys: System)
    ensures Reachable(sys) && Enabled(sys, Read(Server, 0)) && sys.s.ep.pipe == OPEN
    ensures ReadData(sys.s.ep, 0) == DidRead(sys.s.ep, 0, []) && sys.s.read != sys.c.written
  {
    sys := TimeWaitWithoutDelivery();
    var e := sys.s.ep;
    assert e.recvBuf[0..] == e.recvBuf && e.recvBuf[..0] == [];
    ServerIsLive(sys);
  }

  lemma ServerIsLive(sys: System)
    requires Reachable(sys) && sys.s.ep.recvBuf != []
    ensures sys.live
  {
    var mc, ms := ReachableView(sys, Server);
    assert sys.c.log[..0] == [];
  }

  /** A buffer of 65536 bytes: a byte is written, and no loss-free run has it read. */
  lemma FullBufferOffersNothing() returns (sys: System)
    ensures Reachable(sys) && sys.s.ep.recvCap == U16 && sys.c.written != [] && !Deliverable(sys, Client)
  {
    var g := CFG.(serverRecvCap := U16);
    sys := ConnectedAndWritten(g);
    DeliverableExactly(sys, Client);
  }

  lemma Connected(g: Config) returns (sys: System)
    requires g == CFG.(serverRecvCap := U16)
    ensures Reachable(sys) && !sys.aborted && sys.c.log != [] && sys.c.written == [] && Same(sys.s, Init(g).s)
    ensures sys.c.ep.state == SYN_SENT && !sys.c.ep.shutdown && sys.c.ep.sendBuf == [] && sys.c.ep.sendCap == CAP
    ensures sys.c.iss == 0
  {
    var sys0 := Init(g);
    sys := Apply(sys0, Connect);
    assert ReachedBy(g, [], sys0);
    ReachableStep(sys0, Connect);
    assert [] + [SYN] == [SYN];
  }

  lemma ConnectedAndWritten(g: Config) returns (sys: System)
    requires g == CFG.(serverRecvCap := U16)
    ensures Reachable(sys) && !sys.aborted && sys.c.log != [] && sys.c.written == [7] && Same(sys.s, Init(g).s)
  {
    var sys1 := Connected(g);
    var step := Write(Client, [7]);
    sys := Apply(sys1, step);
    ReachableStep(sys1, step);
    assert [7 as byte][..1] == [7] && [] + [7 as byte] == [7];
  }

  /** The server is shut down, the client's byte was never received, and no loss-free
      run has it read: the acknowledgement of its FIN came before the data. */
  lemma ClosedWithoutTheData() returns (sys: System)
    ensures Reachable(sys) && !sys.aborted && ClosedShort(sys, Server) && sys.s.ep.pipe == OPEN
    ensures sys.s.read + sys.s.ep.recvBuf == [] && |sys.c.written| == 1 && !sys.c.ep.shutdown
    ensures OfferedCap(sys.s.ep) > 0 && !Deliverable(sys, Client)
  {
    sys := Sys(ShortRun.D2([]), ShortRun.T3());
    var steps := ShortRun.ShortRunLeads();
    LeadsIs(Init(CFG), steps, sys);
    assert ReachedBy(CFG, steps, sys);
    DeliverableExactly(sys, Client);
  }
}
