/** A run in which a side is closed with its peer's byte missing. The client's byte
    is lost and its FIN overtakes it; the server takes the FIN as a reason to close,
    and the acknowledgement of its own FIN shuts it down. */
module ShortRun {
  import opened Packets
  import opened Endpoints
  import opened Network
  import opened Progress
  import opened ConcreteRuns
  import opened ClosingRun
  import RW = RecvWindows

  // The server, from the early FIN to its end.
  function T1(out: seq<Packet>): Node {
    var n := At(Ep(CLOSE_WAIT, Window(1, [], 0, 1, CAP), 1), out, [SYN_ACK], []);
    n.(ep := n.ep.(rcv := RW.RecvWin(1, [CLIENT_FIN])))
  }
  function T2(out: seq<Packet>): Node {
    var n := At(Ep(LAST_ACK, Window(1, [SERVER_FIN], 1, 1, 1), 1), out, [SYN_ACK, SERVER_FIN], []);
    n.(ep := n.ep.(rcv := RW.RecvWin(1, [CLIENT_FIN])))
  }
  function T3(): Node {
    T2([]).(ep := T2([]).ep.(state := CLOSED, shutdown := true, timer := false, snd := Window(2, [], 0, 2, CAP)))
  }

  // The client, after the duplicate acknowledgement and after the server's FIN.
  function D1(): Node {
    C5([]).(ep := C5([]).ep.(snd := Window(1, [BYTE, CLIENT_FIN], 2, 1, CAP).(duplicatedAcks := 1)))
  }
  function D2(out: seq<Packet>): Node {
    D1().(ep := D1().ep.(state := CLOSING, pipe := EOF_NOT_CONSUMED, rcv := RW.RecvWin(2, [])), out := out)
  }

  lemma StepLoseByte()
    ensures Goes(Sys(C5([BYTE, CLIENT_FIN]), S2()), Drop(Client, 0), Sys(C5([CLIENT_FIN]), S2()))
  {
    assert Without([BYTE, CLIENT_FIN], 0) == [CLIENT_FIN];
  }

  lemma HandleEarlyFin()
    ensures Handles(S2().ep, CLIENT_FIN, T1([]).ep, [ACK_1])
  {
    FinBuffered(S2().ep, CLIENT_FIN);
  }

  lemma StepEarlyFin()
    ensures Goes(Sys(C5([CLIENT_FIN]), S2()), Deliver(Server), Sys(C5([]), T1([ACK_1])))
  {
    HandleEarlyFin();
    GoesDeliver(Sys(C5([CLIENT_FIN]), S2()), Server, CLIENT_FIN, [], S2(), C5([CLIENT_FIN]), T1([ACK_1]), [ACK_1]);
  }

  lemma StepServerCloses()
    ensures Goes(Sys(C5([]), T1([ACK_1])), Finish(Server), Sys(C5([]), T2([ACK_1, SERVER_FIN])))
  {
    var e := T1([]).ep;
    assert [] + [SERVER_FIN] == [SERVER_FIN] && [SERVER_FIN][0..] == [SERVER_FIN];
    assert SendFIN(e) == Done(T2([]).ep, [SERVER_FIN]);
    assert [ACK_1] + [SERVER_FIN] == [ACK_1, SERVER_FIN] && [SYN_ACK] + [SERVER_FIN] == [SYN_ACK, SERVER_FIN];
  }

  lemma HandleDuplicate()
    ensures Handles(C5([]).ep, ACK_1, D1().ep, [])
  {
    DuplicateHandled(C5([]).ep, ACK_1);
  }

  lemma StepDuplicate()
    ensures Goes(Sys(C5([]), T2([ACK_1, SERVER_FIN])), Deliver(Client), Sys(D1(), T2([SERVER_FIN])))
  {
    HandleDuplicate();
    var s := T2([ACK_1, SERVER_FIN]);
    assert s.out == [ACK_1] + [SERVER_FIN];
    GoesDeliver(Sys(C5([]), s), Client, ACK_1, [SERVER_FIN], C5([]), s, D1(), []);
  }

  lemma HandleLateFin()
    ensures Handles(D1().ep, SERVER_FIN, D2([]).ep, [ACK_SERVER_FIN])
  {
    FinHandled(D1().ep, SERVER_FIN);
  }

  lemma StepLateFin()
    ensures Goes(Sys(D1(), T2([SERVER_FIN])), Deliver(Client), Sys(D2([ACK_SERVER_FIN]), T2([])))
  {
    HandleLateFin();
    GoesDeliver(Sys(D1(), T2([SERVER_FIN])), Client, SERVER_FIN, [], D1(), T2([SERVER_FIN]), D2([ACK_SERVER_FIN]), [ACK_SERVER_FIN]);
  }

  lemma HandleFatalAck()
    ensures Handles(T2([]).ep, ACK_SERVER_FIN, T3().ep, [])
  {
    var e := T2([]).ep;
    AckLone(SERVER_FIN, 1, 1, false);
    assert Same(e.snd, Window(1, [SERVER_FIN], 1, 1, 1).(hasRetransmitted := false)) && ACK_SERVER_FIN.window == CAP;
    AckHandled(e, ACK_SERVER_FIN, Window(2, [], 0, 2, 1));
  }

  lemma StepFatalAck()
    ensures Goes(Sys(D2([ACK_SERVER_FIN]), T2([])), Deliver(Server), Sys(D2([]), T3()))
  {
    HandleFatalAck();
    GoesDeliver(Sys(D2([ACK_SERVER_FIN]), T2([])), Server, ACK_SERVER_FIN, [], T2([]), D2([ACK_SERVER_FIN]), T3(), []);
  }

  lemma ShortRunLeads() returns (steps: seq<Step>)
    ensures Leads(Init(CFG), steps, Sys(D2([]), T3()))
  {
    steps := [];
    var z := Sys(D2([]), T3());
    LeadsNowhere(z);
    StepFatalAck();
    steps := Before(Sys(D2([ACK_SERVER_FIN]), T2([])), Deliver(Server), z, steps, z);
    StepLateFin();
    steps := Before(Sys(D1(), T2([SERVER_FIN])), Deliver(Client), Sys(D2([ACK_SERVER_FIN]), T2([])), steps, z);
    StepDuplicate();
    steps := Before(Sys(C5([]), T2([ACK_1, SERVER_FIN])), Deliver(Client), Sys(D1(), T2([SERVER_FIN])), steps, z);
    StepServerCloses();
    steps := Before(Sys(C5([]), T1([ACK_1])), Finish(Server), Sys(C5([]), T2([ACK_1, SERVER_FIN])), steps, z);
    StepEarlyFin();
    steps := Before(Sys(C5([CLIENT_FIN]), S2()), Deliver(Server), Sys(C5([]), T1([ACK_1])), steps, z);
    StepLoseByte();
    steps := Before(Sys(C5([BYTE, CLIENT_FIN]), S2()), Drop(Client, 0), Sys(C5([CLIENT_FIN]), S2()), steps, z);
    steps := UpToFinish(steps, z);
  }
}
