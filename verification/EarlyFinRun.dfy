/** A run in which the client's FIN reaches a server that still waits in SYN_RCVD.
    The acknowledgement that would open the server is lost; the FIN is accepted and
    acknowledged, and only then does a repeated SYN-ACK open the server. */
module EarlyFinRun {
  import opened Packets
  import opened Endpoints
  import opened Network
  import opened Progress
  import opened ConcreteRuns
  import RW = RecvWindows

  const FIN := MakeFinPacket(1)
  const ACK_FIN := MakeAckPacket(2, CAP)

  // The client, after it closed and after its FIN was acknowledged.
  function C3(out: seq<Packet>): Node { At(Ep(FIN_WAIT_1, Window(1, [FIN], 1, 1, 1), 1), out, [SYN, FIN], []) }
  function C4(out: seq<Packet>): Node { At(Ep(FIN_WAIT_2, Window(2, [], 0, 2, CAP), 1), out, [SYN, FIN], []) }

  // The server, after the FIN, after its timeout, and opened.
  function Ended(n: Node): Node { n.(ep := n.ep.(pipe := EOF_NOT_CONSUMED, rcv := RW.RecvWin(2, []))) }
  function S2(out: seq<Packet>): Node { Ended(S1(out)) }
  function S3(out: seq<Packet>): Node { S2(out).(ep := S2(out).ep.(snd := S2(out).ep.snd.(hasRetransmitted := true))) }
  function S4(): Node { Ended(At(Ep(ESTABLISHED, Window(1, [], 0, 1, CAP), 1), [], [SYN_ACK], [])) }

  lemma StepFinish()
    ensures Goes(Sys(C2([ACK_1]), S1([])), Finish(Client), Sys(C3([ACK_1, FIN]), S1([])))
  {
    assert [] + [FIN] == [FIN] && [FIN][0..] == [FIN];
    assert SendFIN(C2([]).ep) == Done(C3([]).ep, [FIN]);
    assert [ACK_1] + [FIN] == [ACK_1, FIN] && [SYN] + [FIN] == [SYN, FIN];
  }

  lemma StepLoseAck()
    ensures Goes(Sys(C3([ACK_1, FIN]), S1([])), Drop(Client, 0), Sys(C3([FIN]), S1([])))
  {
    assert Without([ACK_1, FIN], 0) == [FIN];
  }

  lemma HandleFin()
    ensures Handles(S1([]).ep, FIN, S2([]).ep, [ACK_FIN])
  {
    FinHandled(S1([]).ep, FIN);
  }

  lemma StepFin()
    ensures Goes(Sys(C3([FIN]), S1([])), Deliver(Server), Sys(C3([]), S2([ACK_FIN])))
  {
    HandleFin();
    GoesDeliver(Sys(C3([FIN]), S1([])), Server, FIN, [], S1([]), C3([FIN]), S2([ACK_FIN]), [ACK_FIN]);
  }

  lemma HandleAckFin()
    ensures Handles(C3([]).ep, ACK_FIN, C4([]).ep, [])
  {
    var e, e' := C3([]).ep, C4([]).ep;
    AckLone(FIN, 1, 1, false);
    assert Same(e.snd, Window(1, [FIN], 1, 1, 1).(hasRetransmitted := false)) && ACK_FIN.window == CAP;
    AckHandled(e, ACK_FIN, Window(2, [], 0, 2, 1));
    assert Same(e'.snd, Window(2, [], 0, 2, 1).(capacity := ACK_FIN.window)) && StateOnACK(e.state, true) == FIN_WAIT_2;
    assert Same(e', e.(snd := e'.snd, timer := false, state := FIN_WAIT_2));
  }

  lemma StepAckFin()
    ensures Goes(Sys(C3([]), S2([ACK_FIN])), Deliver(Client), Sys(C4([]), S2([])))
  {
    HandleAckFin();
    GoesDeliver(Sys(C3([]), S2([ACK_FIN])), Client, ACK_FIN, [], C3([]), S2([ACK_FIN]), C4([]), []);
  }

  lemma StepTimeout()
    ensures Goes(Sys(C4([]), S2([])), Timeout(Server), Sys(C4([]), S3([SYN_ACK])))
  {
    var n, e := S2([]), S3([]).ep;
    assert TimeoutReTransmitter(n.ep) == Done(e, [SYN_ACK]);
    assert [SYN_ACK] + [] == [SYN_ACK] && [] + [SYN_ACK] == [SYN_ACK];
    assert Same(NodeAfter(n, e, [SYN_ACK]), S3([SYN_ACK]));
  }

  lemma StepSynAckAgain()
    ensures Goes(Sys(C4([]), S3([SYN_ACK])), Deliver(Client), Sys(C4([ACK_1]), S3([])))
  {
    var e := C4([]).ep;
    assert HandleACKSYN(e, SYN_ACK) == Done(e, [ACK_1]);
    GoesDeliver(Sys(C4([]), S3([SYN_ACK])), Client, SYN_ACK, [], C4([]), S3([SYN_ACK]), C4([ACK_1]), [ACK_1]);
  }

  lemma HandleOpen()
    ensures Handles(S3([]).ep, ACK_1, S4().ep, [])
  {
    AckLone(SYN_ACK, 0, CAP, true);
    AckHandled(S3([]).ep, ACK_1, Window(1, [], 0, 1, CAP));
  }

  lemma StepOpen()
    ensures Goes(Sys(C4([ACK_1]), S3([])), Deliver(Server), Sys(C4([]), S4()))
  {
    HandleOpen();
    GoesDeliver(Sys(C4([ACK_1]), S3([])), Server, ACK_1, [], S3([]), C4([ACK_1]), S4(), []);
  }

  lemma EarlyFinRunLeads() returns (steps: seq<Step>)
    ensures Leads(Init(CFG), steps, Sys(C4([]), S4()))
  {
    steps := [];
    var z := Sys(C4([]), S4());
    LeadsNowhere(z);
    StepOpen();
    steps := Before(Sys(C4([ACK_1]), S3([])), Deliver(Server), z, steps, z);
    StepSynAckAgain();
    steps := Before(Sys(C4([]), S3([SYN_ACK])), Deliver(Client), Sys(C4([ACK_1]), S3([])), steps, z);
    StepTimeout();
    steps := Before(Sys(C4([]), S2([])), Timeout(Server), Sys(C4([]), S3([SYN_ACK])), steps, z);
    StepAckFin();
    steps := Before(Sys(C3([]), S2([ACK_FIN])), Deliver(Client), Sys(C4([]), S2([])), steps, z);
    StepFin();
    steps := Before(Sys(C3([FIN]), S1([])), Deliver(Server), Sys(C3([]), S2([ACK_FIN])), steps, z);
    StepLoseAck();
    steps := Before(Sys(C3([ACK_1, FIN]), S1([])), Drop(Client, 0), Sys(C3([FIN]), S1([])), steps, z);
    StepFinish();
    steps := Before(Sys(C2([ACK_1]), S1([])), Finish(Client), Sys(C3([ACK_1, FIN]), S1([])), steps, z);
    steps := Opening(steps, z);
  }
}
