/** A run in which a connection leaves CLOSING although its FIN never arrived.
    Both sides close at once; the client's FIN is lost, and the acknowledgement of
    its data reaches it behind the server's FIN. */
module ClosingRun {
  import opened Packets
  import opened Endpoints
  import opened Network
  import opened Progress
  import opened ConcreteRuns
  import SW = SendWindows
  import RW = RecvWindows

  const DATA: seq<byte> := [7]

  const BYTE := MakeDataPacket(1, DATA)
  const CLIENT_FIN := MakeFinPacket(2)
  const SERVER_FIN := MakeFinPacket(1)
  const ACK_BYTE := MakeAckPacket(2, CAP - 1)
  const ACK_SERVER_FIN := MakeAckPacket(2, CAP)

  // The client, from its data to its FIN.
  function C3(): Node { C2([]).(ep := C2([]).ep.(sendBuf := DATA), written := DATA) }
  function C4(): Node { At(Ep(ESTABLISHED, Window(1, [BYTE], 1, 1, CAP), 1), [BYTE], [SYN, BYTE], DATA) }
  function C5(out: seq<Packet>): Node {
    At(Ep(FIN_WAIT_1, Window(1, [BYTE, CLIENT_FIN], 2, 1, 2), 1), out, [SYN, BYTE, CLIENT_FIN], DATA)
  }
  function C6(): Node {
    var n := C5([ACK_SERVER_FIN]);
    n.(ep := n.ep.(state := CLOSING, pipe := EOF_NOT_CONSUMED, rcv := RW.RecvWin(2, [])))
  }
  function C7(): Node {
    var n := C6();
    n.(ep := n.ep.(state := TIME_WAIT, snd := Window(2, [CLIENT_FIN], 1, 2, CAP - 1)))
  }

  // The server, from the third packet of the handshake to its FIN.
  function S2(): Node { At(Ep(ESTABLISHED, Window(1, [], 0, 1, CAP), 1), [], [SYN_ACK], []) }
  function S3(): Node {
    At(Ep(FIN_WAIT_1, Window(1, [SERVER_FIN], 1, 1, 1), 1), [SERVER_FIN], [SYN_ACK, SERVER_FIN], [])
  }
  function S4(out: seq<Packet>): Node {
    S3().(ep := S3().ep.(rcv := RW.RecvWin(2, []), recvBuf := DATA), out := out)
  }

  /** The acknowledgement of the data leaves the FIN in the window. */
  lemma AckByte()
    ensures AcksTo(Window(1, [BYTE, CLIENT_FIN], 2, 1, 2), 2, Window(2, [CLIENT_FIN], 1, 2, 2))
  {
    var pkts := [BYTE, CLIENT_FIN];
    assert pkts[1..] == [CLIENT_FIN] && pkts[..1] == [BYTE] && [BYTE][1..] == [];
    assert SW.PopLoop([CLIENT_FIN], 2, false, 1) == SW.Popped(0);
    assert SW.PopLoop(pkts, 2, false, 1) == SW.Popped(1);
    assert TotalSize([BYTE]) == 1;
  }

  lemma HandleThirdAck()
    ensures Handles(S1([]).ep, ACK_1, S2().ep, [])
  {
    var e, e' := S1([]).ep, S2().ep;
    AckLone(SYN_ACK, 0, CAP, false);
    assert Same(e.snd, Window(0, [SYN_ACK], 1, 0, CAP).(hasRetransmitted := false)) && ACK_1.window == CAP;
    AckHandled(e, ACK_1, Window(1, [], 0, 1, CAP));
    assert Same(e', e.(snd := e'.snd, timer := false, state := ESTABLISHED));
  }

  lemma StepThirdAck()
    ensures Goes(Sys(C2([ACK_1]), S1([])), Deliver(Server), Sys(C2([]), S2()))
  {
    HandleThirdAck();
    GoesDeliver(Sys(C2([ACK_1]), S1([])), Server, ACK_1, [], S1([]), C2([ACK_1]), S2(), []);
  }

  lemma StepWrite()
    ensures Goes(Sys(C2([]), S2()), Write(Client, DATA), Sys(C3(), S2()))
  {
    assert DATA[..1] == DATA && [] + DATA == DATA;
    assert WriteData(C2([]).ep, DATA) == DidWrite(C3().ep, 1);
  }

  lemma StepListen()
    ensures Goes(Sys(C3(), S2()), Listen(Client), Sys(C4(), S2()))
  {
    var e := C3().ep;
    assert DATA[..1] == DATA && DATA[1..] == [];
    assert [] + [BYTE] == [BYTE] && [BYTE] + [] == [BYTE];
    assert SW.SendPacket(e.snd, BYTE) == SW.Sent(C4().ep.snd);
    assert EmitNext(e, 1) == Done(C4().ep, [BYTE]);
    assert Emit(C4().ep, 0) == Done(C4().ep, []);
    assert SendBufferListener(e) == Done(C4().ep, [BYTE]);
    assert [SYN] + [BYTE] == [SYN, BYTE];
    assert C4().ep.snd.pkts[0..] == [BYTE];
  }

  lemma StepFinish()
    ensures Goes(Sys(C4(), S2()), Finish(Client), Sys(C5([BYTE, CLIENT_FIN]), S2()))
  {
    var e := C4().ep;
    assert [BYTE] + [CLIENT_FIN] == [BYTE, CLIENT_FIN];
    assert SendFIN(e) == Done(C5([]).ep, [CLIENT_FIN]);
    assert [BYTE, CLIENT_FIN][1..] == [CLIENT_FIN];
    assert [SYN, BYTE] + [CLIENT_FIN] == [SYN, BYTE, CLIENT_FIN];
  }

  lemma StepLoseFin()
    ensures Goes(Sys(C5([BYTE, CLIENT_FIN]), S2()), Drop(Client, 1), Sys(C5([BYTE]), S2()))
  {
    assert Without([BYTE, CLIENT_FIN], 1) == [BYTE];
  }

  lemma StepServerFinish()
    ensures Goes(Sys(C5([BYTE]), S2()), Finish(Server), Sys(C5([BYTE]), S3()))
  {
    var e := S2().ep;
    assert [] + [SERVER_FIN] == [SERVER_FIN];
    assert SendFIN(e) == Done(S3().ep, [SERVER_FIN]);
    assert [SERVER_FIN][0..] == [SERVER_FIN];
    assert [SYN_ACK] + [SERVER_FIN] == [SYN_ACK, SERVER_FIN];
  }

  lemma HandleByte()
    ensures Handles(S3().ep, BYTE, S4([]).ep, [ACK_BYTE])
  {
    var e := S3().ep;
    assert RW.Insert([], BYTE) == [BYTE] && [BYTE][1..] == [] && [BYTE][..1] == [BYTE];
    assert RW.ReceivePacket(e.rcv, BYTE) == RW.Received(RW.RecvWin(2, []), 2, [BYTE]);
    assert [] + DATA == DATA;
    assert StreamChain(S4([]).ep, []) == Done(S4([]).ep, []);
    assert HandleDataPacket(e, BYTE) == Done(S4([]).ep, [ACK_BYTE]);
  }

  lemma StepByte()
    ensures Goes(Sys(C5([BYTE]), S3()), Deliver(Server), Sys(C5([]), S4([SERVER_FIN, ACK_BYTE])))
  {
    HandleByte();
    assert [SERVER_FIN] + [ACK_BYTE] == [SERVER_FIN, ACK_BYTE];
    GoesDeliver(Sys(C5([BYTE]), S3()), Server, BYTE, [], S3(), C5([BYTE]), S4([SERVER_FIN, ACK_BYTE]), [ACK_BYTE]);
  }

  lemma HandleServerFin()
    ensures Handles(C5([]).ep, SERVER_FIN, C6().ep, [ACK_SERVER_FIN])
  {
    FinHandled(C5([]).ep, SERVER_FIN);
  }

  lemma StepServerFin()
    ensures Goes(Sys(C5([]), S4([SERVER_FIN, ACK_BYTE])), Deliver(Client), Sys(C6(), S4([ACK_BYTE])))
  {
    HandleServerFin();
    var s := S4([SERVER_FIN, ACK_BYTE]);
    assert s.out == [SERVER_FIN] + [ACK_BYTE];
    GoesDeliver(Sys(C5([]), s), Client, SERVER_FIN, [ACK_BYTE], C5([]), s, C6(), [ACK_SERVER_FIN]);
  }

  lemma HandleLastAck()
    ensures Handles(C6().ep, ACK_BYTE, C7().ep, [])
  {
    AckByte();
    AckHandled(C6().ep, ACK_BYTE, Window(2, [CLIENT_FIN], 1, 2, 2));
  }

  lemma StepLastAck()
    ensures Goes(Sys(C6(), S4([ACK_BYTE])), Deliver(Client), Sys(C7(), S4([])))
  {
    HandleLastAck();
    GoesDeliver(Sys(C6(), S4([ACK_BYTE])), Client, ACK_BYTE, [], C6(), S4([ACK_BYTE]), C7(), []);
  }

  /** The run as a whole. */
  lemma ClosingRunLeads() returns (steps: seq<Step>)
    ensures Leads(Init(CFG), steps, Sys(C7(), S4([])))
  {
    steps := [];
    var z := Sys(C7(), S4([]));
    LeadsNowhere(z);
    StepLastAck();
    steps := Before(Sys(C6(), S4([ACK_BYTE])), Deliver(Client), z, steps, z);
    StepServerFin();
    steps := Before(Sys(C5([]), S4([SERVER_FIN, ACK_BYTE])), Deliver(Client), Sys(C6(), S4([ACK_BYTE])), steps, z);
    StepByte();
    steps := Before(Sys(C5([BYTE]), S3()), Deliver(Server), Sys(C5([]), S4([SERVER_FIN, ACK_BYTE])), steps, z);
    StepServerFinish();
    steps := Before(Sys(C5([BYTE]), S2()), Finish(Server), Sys(C5([BYTE]), S3()), steps, z);
    StepLoseFin();
    steps := Before(Sys(C5([BYTE, CLIENT_FIN]), S2()), Drop(Client, 1), Sys(C5([BYTE]), S2()), steps, z);
    steps := UpToFinish(steps, z);
  }

  /** Whatever the client's FIN behind its data leads to is reached from the start. */
  lemma UpToFinish(rest: seq<Step>, z: System) returns (steps: seq<Step>)
    requires Leads(Sys(C5([BYTE, CLIENT_FIN]), S2()), rest, z)
    ensures Leads(Init(CFG), steps, z)
  {
    steps := rest;
    StepFinish();
    steps := Before(Sys(C4(), S2()), Finish(Client), Sys(C5([BYTE, CLIENT_FIN]), S2()), steps, z);
    StepListen();
    steps := Before(Sys(C3(), S2()), Listen(Client), Sys(C4(), S2()), steps, z);
    StepWrite();
    steps := Before(Sys(C2([]), S2()), Write(Client, DATA), Sys(C3(), S2()), steps, z);
    StepThirdAck();
    steps := Before(Sys(C2([ACK_1]), S1([])), Deliver(Server), Sys(C2([]), S2()), steps, z);
    steps := Opening(steps, z);
  }
}
