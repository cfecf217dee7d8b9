/** The packets and states of whole exchanges, written out: the handshake, the two
    ways to close, and what a row of duplicate acknowledgements brings about. */
module HandlerLaws {
  import opened Packets
  import opened Endpoints
  import SW = SendWindows
  import RW = RecvWindows
  import opened RetransmitPolicy

  // ---------------------------------------------------------------------------
  // Fast retransmit

  /** A list of acknowledgements, one after another. */
  function HandleAcks(e: Endpoint, acks: seq<Packet>): Outcome
    decreases |acks|
  {
    if acks == [] then Done(e, [])
    else
      var n := |acks| - 1;
      match HandleAcks(e, acks[..n])
      case Abort => Abort
      case Done(e1, out1) =>
        match HandleACK(e1, acks[n])
        case Abort => Abort
        case Done(e2, out2) => Done(e2, out1 + out2)
  }

  /** The window `n` duplicates and `r` retransmits on. */
  function Resent(w: SW.SendWin, n: nat, r: nat, capacity: nat): SW.SendWin
    requires FireAt(r) <= n
  {
    Counted(w, n, r).(capacity := capacity, hasRetransmitted := w.hasRetransmitted || r > 0)
  }

  /** `o` is `e` after `n` duplicates: it has sent `r` copies of its oldest packet
      and kept everything in its window. */
  ghost predicate Repeated(e: Endpoint, n: nat, r: nat, o: Outcome)
    requires e.snd.pkts != [] && FireAt(r) <= n
  {
    && o.Done? && |o.out| == r && (forall i :: 0 <= i < r ==> o.out[i] == e.snd.pkts[0])
    && Same(o.ep.snd, Resent(e.snd, n, r, o.ep.snd.capacity))
  }

  /** A row of acknowledgements that repeat the send base of a window with packets
      in it: the oldest packet is sent again with the duplicates number 3, 7, 13
      and so on, nothing else is sent, and the window keeps all it holds. */
  lemma {:induction false} DuplicatesResend(e: Endpoint, acks: seq<Packet>) returns (r: nat)
    requires e.snd.pkts != [] && e.snd.duplicatedAcks == 0 && e.snd.maxDuplicatedAcks == 3
    requires |acks| <= 0x8000_0000 && forall i :: 0 <= i < |acks| ==> acks[i].ackNum == e.snd.base
    ensures FireAt(r) <= |acks| < FireAt(r + 1)
    ensures Repeated(e, |acks|, r, HandleAcks(e, acks))
    decreases |acks|
  {
    if acks == [] {
      r := 0;
      assert FireAt(1) == FireAt(0) + Threshold(1);
    } else {
      var n := |acks| - 1;
      var q := DuplicatesResend(e, acks[..n]);
      r := NextCount(n, q);
      RepeatedMore(e, acks, q, HandleAcks(e, acks[..n]));
    }
  }

  lemma RepeatedMore(e: Endpoint, acks: seq<Packet>, q: nat, o: Outcome)
    requires e.snd.pkts != [] && acks != [] && |acks| <= 0x8000_0000
    requires acks[|acks| - 1].ackNum == e.snd.base && FireAt(q) <= |acks| - 1 < FireAt(q + 1)
    requires Same(o, HandleAcks(e, acks[..|acks| - 1])) && Repeated(e, |acks| - 1, q, o)
    ensures Repeated(e, |acks|, if |acks| == FireAt(q + 1) then q + 1 else q, HandleAcks(e, acks))
  {
    DuplicateHandled(e.snd, o.ep, acks[|acks| - 1], |acks| - 1, q);
  }

  lemma NextCount(n: nat, q: nat) returns (r: nat)
    requires FireAt(q) <= n < FireAt(q + 1)
    ensures r == if n + 1 == FireAt(q + 1) then q + 1 else q
    ensures FireAt(r) <= n + 1 < FireAt(r + 1)
  {
    r := if n + 1 == FireAt(q + 1) then q + 1 else q;
    assert FireAt(q + 2) == FireAt(q + 1) + Threshold(q + 2);
  }

  /** One more of them. */
  lemma DuplicateHandled(w: SW.SendWin, e: Endpoint, p: Packet, n: nat, q: nat)
    requires w.pkts != [] && p.ackNum == w.base && n < 0x8000_0000
    requires FireAt(q) <= n < FireAt(q + 1) && Same(e.snd, Resent(w, n, q, e.snd.capacity))
    ensures var o, fires := HandleACK(e, p), n + 1 == FireAt(q + 1);
            && o.Done? && o.out == (if fires then [w.pkts[0]] else [])
            && Same(o.ep.snd, Resent(w, n + 1, if fires then q + 1 else q, o.ep.snd.capacity))
  {
    DupCounts(e.snd, n, q);
  }

  /** The first three: nothing, nothing, and the oldest packet again. */
  lemma ThirdDuplicateResends(e: Endpoint, p1: Packet, p2: Packet, p3: Packet)
    requires e.snd.pkts != [] && e.snd.duplicatedAcks == 0 && e.snd.maxDuplicatedAcks == 3
    requires p1.ackNum == p2.ackNum == p3.ackNum == e.snd.base
    ensures var o1 := HandleACK(e, p1);
            && o1.Done? && o1.out == []
            && var o2 := HandleACK(o1.ep, p2);
               && o2.Done? && o2.out == []
               && var o3 := HandleACK(o2.ep, p3);
                  && o3.Done? && o3.out == [e.snd.pkts[0]] && o3.ep.snd.pkts == e.snd.pkts && o3.ep.snd.hasRetransmitted
  {
  }

  // ---------------------------------------------------------------------------
  // The handshake

  function Syn(iss: nat, room: nat): Packet {
    Packet(iss, 0, room % 65536, true, false, false, 1, [])
  }

  function SynAck(ackNum: nat, room: nat): Packet {
    Packet(0, ackNum, room % 65536, true, true, false, 1, [])
  }

  function PlainAck(ackNum: nat, room: nat): Packet {
    Packet(0, ackNum, room % 65536, false, true, false, 0, [])
  }

  /** A new endpoint once `p` is the one packet in its window. */
  function Waiting(e: Endpoint, p: Packet, state: TcpState, expected: nat): Endpoint {
    Endpoint(state, OPEN, SW.SendWin(e.snd.base, e.snd.capacity, 1, [p], 0, 0, 3, false), RW.RecvWin(expected, []),
             [], e.sendCap, [], e.recvCap, [], true, false, false)
  }

  /** An endpoint that has just been connected. */
  function Ready(base: nat, capacity: nat, expected: nat, sendCap: nat, recvCap: nat): Endpoint {
    Endpoint(ESTABLISHED, OPEN, SW.SendWin(base, capacity, 0, [], base, 0, 3, false), RW.RecvWin(expected, []),
             [], sendCap, [], recvCap, [], false, false, false)
  }

  lemma Connects(iss: nat, cw: nat, csc: nat, crc: nat)
    ensures var c0, syn := NewEndpoint(iss, cw, 0, csc, crc), Syn(iss, crc);
            TryConnect(c0) == Done(Waiting(c0, syn, SYN_SENT, 0), [syn])
  {
    assert [] + [Syn(iss, crc)] == [Syn(iss, crc)];
  }

  lemma AnswersSyn(iss: nat, sw: nat, ssc: nat, src: nat, syn: Packet)
    requires iss + 1 < U32 && syn.seqNum == iss && syn.sync && !syn.ack && syn.size == 1
    ensures var s0, synAck := NewEndpoint(0, sw, iss, ssc, src), SynAck(iss + 1, src);
            var s1 := Waiting(s0, synAck, SYN_RCVD, iss + 1);
            && HandleReceivedPacket(s0, syn) == Done(s1, [synAck])
            && HandleReceivedPacket(s1, syn) == Done(s1.(snd := s1.snd.(hasRetransmitted := true)), [synAck])
  {
    var list := RW.Insert([], syn);
    assert list == [syn] && list[1..] == [];
    assert [] + [SynAck(iss + 1, src)] == [SynAck(iss + 1, src)];
  }

  /** The one packet of a window is acknowledged. */
  lemma AcksOnlyPacket(w: SW.SendWin, p: Packet)
    requires w.pkts == [p] && w.size == p.size == 1 && w.base == p.seqNum && p.seqNum + 1 < U32
    ensures var base := p.seqNum + 1;
            SW.NewAckedPacket(w, base) ==
              SW.Acked(SW.SendWin(base, w.capacity, 0, [], base, 0, 3, false),
                       SW.AckResult(true, false, false, if w.hasRetransmitted then SW.NoRtt else SW.Measured(p)))
  {
    assert w.pkts[1..] == [] && w.pkts[..1] == [p] && TotalSize([p]) == p.size + TotalSize([p][1..]);
    assert SW.PopLoop(w.pkts, p.seqNum + 1, false, p.seqNum) == SW.Popped(1);
  }

  lemma TakesSynAck(iss: nat, cw: nat, csc: nat, crc: nat, src: nat)
    requires iss + 1 < U32
    ensures var c1 := Waiting(NewEndpoint(iss, cw, 0, csc, crc), Syn(iss, crc), SYN_SENT, 0);
            HandleReceivedPacket(c1, SynAck(iss + 1, src)) ==
              Done(Ready(iss + 1, src % 65536, 1, csc, crc), [PlainAck(1, crc)])
  {
    var c1 := Waiting(NewEndpoint(iss, cw, 0, csc, crc), Syn(iss, crc), SYN_SENT, 0);
    AcksOnlyPacket(c1.snd, Syn(iss, crc));
  }

  lemma TakesThirdAck(iss: nat, sw: nat, ssc: nat, src: nat, crc: nat)
    ensures var s1 := Waiting(NewEndpoint(0, sw, iss, ssc, src), SynAck(iss + 1, src), SYN_RCVD, iss + 1);
            HandleReceivedPacket(s1, PlainAck(1, crc)) == Done(Ready(1, crc % 65536, iss + 1, ssc, src), [])
  {
    var s1 := Waiting(NewEndpoint(0, sw, iss, ssc, src), SynAck(iss + 1, src), SYN_RCVD, iss + 1);
    AcksOnlyPacket(s1.snd, SynAck(iss + 1, src));
  }

  /** Two new endpoints, of any sizes and with any windows, exchange three packets.
      Both end in ESTABLISHED with nothing unacknowledged, counting duplicates from
      zero to three, each with a window as large as the buffer of the other modulo
      65536. A second copy of the SYN only has the SYN-ACK sent again. */
  lemma ThreeWayHandshake(iss: nat, cw: nat, sw: nat, csc: nat, crc: nat, ssc: nat, src: nat)
    requires iss + 1 < U32
    ensures var c0, s0 := NewEndpoint(iss, cw, 0, csc, crc), NewEndpoint(0, sw, iss, ssc, src);
            var syn, synAck, ack := Syn(iss, crc), SynAck(iss + 1, src), PlainAck(1, crc);
            var c1, s1 := Waiting(c0, syn, SYN_SENT, 0), Waiting(s0, synAck, SYN_RCVD, iss + 1);
            && TryConnect(c0) == Done(c1, [syn])
            && HandleReceivedPacket(s0, syn) == Done(s1, [synAck])
            && HandleReceivedPacket(s1, syn) == Done(s1.(snd := s1.snd.(hasRetransmitted := true)), [synAck])
            && HandleReceivedPacket(c1, synAck) == Done(Ready(iss + 1, src % 65536, 1, csc, crc), [ack])
            && HandleReceivedPacket(s1, ack) == Done(Ready(1, crc % 65536, iss + 1, ssc, src), [])
  {
    Connects(iss, cw, csc, crc);
    AnswersSyn(iss, sw, ssc, src, Syn(iss, crc));
    TakesSynAck(iss, cw, csc, crc, src);
    TakesThirdAck(iss, sw, ssc, src, crc);
  }

  // ---------------------------------------------------------------------------
  // The two ways to close

  function FreeRoom(e: Endpoint): nat {
    if |e.recvBuf| >= e.recvCap then 0 else e.recvCap - |e.recvBuf|
  }

  function FinOf(e: Endpoint): Packet {
    Packet(e.snd.base, 0, 0, false, false, true, 1, [])
  }

  /** The FIN is the one packet in the window. */
  function FinSent(e: Endpoint, state: TcpState): Endpoint {
    e.(snd := e.snd.(capacity := 1, size := 1, pkts := [FinOf(e)]), state := state, timer := true)
  }

  /** The peer's FIN has come, and the stream has ended. */
  function FinTaken(e: Endpoint, state: TcpState): Endpoint {
    e.(rcv := RW.RecvWin(e.rcv.base + 1, []), pipe := EOF_NOT_CONSUMED, state := state)
  }

  /** The own FIN is acknowledged. */
  function FinAcked(e: Endpoint, window: nat, state: TcpState): Endpoint {
    e.(snd := SW.SendWin(e.snd.base + 1, window, 0, [], e.snd.base + 1, 0, 3, false), state := state,
       timer := false, prober := e.prober && window == 0)
  }

  lemma SendsFin(e: Endpoint, state: TcpState)
    requires e.snd.pkts == [] && e.snd.size == 0 && e.snd.base + 1 < U32
    requires (e.state, state) in {(ESTABLISHED, FIN_WAIT_1), (CLOSE_WAIT, LAST_ACK)}
    ensures SendFIN(e) == Done(FinSent(e, state), [FinOf(e)])
  {
    assert [] + [FinOf(e)] == [FinOf(e)];
  }

  lemma TakesFin(e: Endpoint, fin: Packet, state: TcpState)
    requires fin.fin && !fin.sync && fin.size == 1 && fin.seqNum == e.rcv.base && e.rcv.base + 1 < U32
    requires e.rcv.list == [] && e.overflow == []
    requires (e.state, state) in {(ESTABLISHED, CLOSE_WAIT), (FIN_WAIT_1, CLOSING), (FIN_WAIT_2, TIME_WAIT)}
    ensures HandleReceivedPacket(e, fin) == Done(FinTaken(e, state), [PlainAck(e.rcv.base + 1, FreeRoom(e))])
  {
    assert RW.Insert([], fin) == [fin] && [fin][..1] == [fin] && [fin][1..] == [];
  }

  lemma TakesFinAck(e: Endpoint, room: nat, state: TcpState)
    requires e.snd.pkts == [FinOf(e)] && e.snd.size == 1 && e.snd.base + 1 < U32
    requires (e.state, state) in {(FIN_WAIT_1, FIN_WAIT_2), (CLOSING, TIME_WAIT), (LAST_ACK, CLOSED)}
    ensures HandleReceivedPacket(e, PlainAck(e.snd.base + 1, room)) ==
              Done(FinAcked(e, room % 65536, state).(shutdown := e.shutdown || e.state == LAST_ACK), [])
  {
    AcksOnlyPacket(e.snd, FinOf(e));
  }

  /** Two connected endpoints with everything acknowledged. */
  ghost predicate Idle(a: Endpoint, b: Endpoint) {
    && a.state == ESTABLISHED && a.pipe == OPEN && !a.shutdown
    && a.snd.pkts == [] && a.snd.size == 0 && a.snd.base + 1 < U32
    && a.rcv == RW.RecvWin(b.snd.base, []) && a.overflow == []
  }

  /** `c` closes first: its FIN and the acknowledgement. */
  lemma FirstCloses(c: Endpoint, s: Endpoint) returns (c1: Endpoint, c2: Endpoint, s1: Endpoint)
    requires Idle(c, s) && Idle(s, c)
    ensures c1 == FinSent(c, FIN_WAIT_1) && c2 == FinAcked(c1, FreeRoom(s) % 65536, FIN_WAIT_2)
    ensures s1 == FinTaken(s, CLOSE_WAIT)
    ensures SendFIN(c) == Done(c1, [FinOf(c)])
    ensures HandleReceivedPacket(s, FinOf(c)) == Done(s1, [PlainAck(c.snd.base + 1, FreeRoom(s))])
    ensures HandleReceivedPacket(c1, PlainAck(c.snd.base + 1, FreeRoom(s))) == Done(c2, [])
  {
    c1, s1 := FinSent(c, FIN_WAIT_1), FinTaken(s, CLOSE_WAIT);
    c2 := FinAcked(c1, FreeRoom(s) % 65536, FIN_WAIT_2);
    SendsFin(c, FIN_WAIT_1);
    TakesFin(s, FinOf(c), CLOSE_WAIT);
    TakesFinAck(c1, FreeRoom(s), FIN_WAIT_2);
  }

  /** `s` has taken the FIN of `c` and closes after it. */
  lemma SecondCloses(c: Endpoint, s: Endpoint) returns (s1: Endpoint, s2: Endpoint, c1: Endpoint)
    requires c.state == FIN_WAIT_2 && c.rcv == RW.RecvWin(s.snd.base, []) && c.overflow == []
    requires s.state == CLOSE_WAIT && s.snd.pkts == [] && s.snd.size == 0 && s.snd.base + 1 < U32
    ensures s1 == FinSent(s, LAST_ACK) && s2 == FinAcked(s1, FreeRoom(c) % 65536, CLOSED).(shutdown := true)
    ensures c1 == FinTaken(c, TIME_WAIT)
    ensures SendFIN(s) == Done(s1, [FinOf(s)])
    ensures HandleReceivedPacket(c, FinOf(s)) == Done(c1, [PlainAck(s.snd.base + 1, FreeRoom(c))])
    ensures HandleReceivedPacket(s1, PlainAck(s.snd.base + 1, FreeRoom(c))) == Done(s2, [])
  {
    s1, c1 := FinSent(s, LAST_ACK), FinTaken(c, TIME_WAIT);
    s2 := FinAcked(s1, FreeRoom(c) % 65536, CLOSED).(shutdown := true);
    SendsFin(s, LAST_ACK);
    TakesFin(c, FinOf(s), TIME_WAIT);
    TakesFinAck(s1, FreeRoom(c), CLOSED);
  }

  /** One side closes, then the other: FIN_WAIT_1, FIN_WAIT_2 and TIME_WAIT on the
      first, CLOSE_WAIT, LAST_ACK and CLOSED on the second, which is shut down. */
  lemma FourWayClose(c: Endpoint, s: Endpoint)
    returns (c1: Endpoint, c2: Endpoint, c3: Endpoint, s1: Endpoint, s2: Endpoint, s3: Endpoint)
    requires Idle(c, s) && Idle(s, c)
    ensures SendFIN(c) == Done(c1, [FinOf(c)])
    ensures HandleReceivedPacket(s, FinOf(c)) == Done(s1, [PlainAck(c.snd.base + 1, FreeRoom(s))])
    ensures HandleReceivedPacket(c1, PlainAck(c.snd.base + 1, FreeRoom(s))) == Done(c2, [])
    ensures SendFIN(s1) == Done(s2, [FinOf(s)])
    ensures HandleReceivedPacket(c2, FinOf(s)) == Done(c3, [PlainAck(s.snd.base + 1, FreeRoom(c))])
    ensures HandleReceivedPacket(s2, PlainAck(s.snd.base + 1, FreeRoom(c))) == Done(s3, [])
    ensures c1 == FinSent(c, FIN_WAIT_1) && c2 == FinAcked(c1, FreeRoom(s) % 65536, FIN_WAIT_2)
    ensures c3 == FinTaken(c2, TIME_WAIT)
    ensures s1 == FinTaken(s, CLOSE_WAIT) && s2 == FinSent(s1, LAST_ACK)
    ensures s3 == FinAcked(s2, FreeRoom(c) % 65536, CLOSED).(shutdown := true)
  {
    c1, c2, s1 := FirstCloses(c, s);
    s2, s3, c3 := SecondCloses(c2, s1);
  }

  /** `c` in a simultaneous close. */
  lemma ClosesAtOnce(c: Endpoint, s: Endpoint) returns (c1: Endpoint, c2: Endpoint, c3: Endpoint)
    requires Idle(c, s) && Idle(s, c)
    ensures c1 == FinSent(c, FIN_WAIT_1) && c2 == FinTaken(c1, CLOSING)
    ensures c3 == FinAcked(c2, FreeRoom(s) % 65536, TIME_WAIT)
    ensures SendFIN(c) == Done(c1, [FinOf(c)])
    ensures HandleReceivedPacket(c1, FinOf(s)) == Done(c2, [PlainAck(s.snd.base + 1, FreeRoom(c))])
    ensures HandleReceivedPacket(c2, PlainAck(c.snd.base + 1, FreeRoom(s))) == Done(c3, [])
  {
    c1 := FinSent(c, FIN_WAIT_1);
    c2 := FinTaken(c1, CLOSING);
    c3 := FinAcked(c2, FreeRoom(s) % 65536, TIME_WAIT);
    SendsFin(c, FIN_WAIT_1);
    TakesFin(c1, FinOf(s), CLOSING);
    TakesFinAck(c2, FreeRoom(s), TIME_WAIT);
  }

  /** Both close at once: FIN_WAIT_1, CLOSING and TIME_WAIT. */
  lemma SimultaneousClose(c: Endpoint, s: Endpoint)
    returns (c1: Endpoint, c2: Endpoint, c3: Endpoint, s1: Endpoint, s2: Endpoint, s3: Endpoint)
    requires Idle(c, s) && Idle(s, c)
    ensures SendFIN(c) == Done(c1, [FinOf(c)]) && SendFIN(s) == Done(s1, [FinOf(s)])
    ensures HandleReceivedPacket(c1, FinOf(s)) == Done(c2, [PlainAck(s.snd.base + 1, FreeRoom(c))])
    ensures HandleReceivedPacket(s1, FinOf(c)) == Done(s2, [PlainAck(c.snd.base + 1, FreeRoom(s))])
    ensures HandleReceivedPacket(c2, PlainAck(c.snd.base + 1, FreeRoom(s))) == Done(c3, [])
    ensures HandleReceivedPacket(s2, PlainAck(s.snd.base + 1, FreeRoom(c))) == Done(s3, [])
    ensures c1 == FinSent(c, FIN_WAIT_1) && s1 == FinSent(s, FIN_WAIT_1)
    ensures c2 == FinTaken(c1, CLOSING) && s2 == FinTaken(s1, CLOSING)
    ensures c3 == FinAcked(c2, FreeRoom(s) % 65536, TIME_WAIT) && s3 == FinAcked(s2, FreeRoom(c) % 65536, TIME_WAIT)
  {
    c1, c2, c3 := ClosesAtOnce(c, s);
    s1, s2, s3 := ClosesAtOnce(s, c);
  }

  // ---------------------------------------------------------------------------
  // Single packets

  /** Whatever data packet, FIN or probe comes, in whatever state: it is answered
      by one acknowledgement, of the receive base and with the room there is once
      the data has gone to the receive buffer. The sending half stays as it is,
      and only a FIN moves the state. */
  lemma ArrivalAnswered(e: Endpoint, p: Packet)
    requires !p.sync && (p.fin || !p.ack) && HandleReceivedPacket(e, p).Done?
    ensures p.size > 0 || p.fin ==> RW.ReceivePacket(e.rcv, p).Received?
    ensures var o := HandleReceivedPacket(e, p);
            var e' := o.ep;
            && o.out == [PlainAck(e'.rcv.base, FreeRoom(e'))]
            && e' == e.(rcv := e'.rcv, recvBuf := e'.recvBuf, overflow := e'.overflow, pipe := e'.pipe, state := e'.state)
            && e'.state == (if !p.fin then e.state
                            else if e.state == ESTABLISHED then CLOSE_WAIT
                            else if e.state == FIN_WAIT_1 then CLOSING
                            else if e.state == FIN_WAIT_2 then TIME_WAIT
                            else e.state)
            && (if p.size == 0 && !p.fin then e' == e
                else
                  var r := RW.ReceivePacket(e.rcv, p);
                  && e'.rcv == r.win
                  && StreamDataToReceiveBuffer(e.(rcv := e'.rcv, state := e'.state), r.chain) == Done(e', []))
  {
    if p.fin {
      ReceivedAnswered(e.(state := StateOnFIN(e.state)), p);
    } else if p.size > 0 {
      ReceivedAnswered(e, p);
    }
  }

  lemma ReceivedAnswered(e: Endpoint, p: Packet)
    requires ReceiveAndAck(e, p).Done?
    ensures RW.ReceivePacket(e.rcv, p).Received?
    ensures var o := ReceiveAndAck(e, p);
            var e' := o.ep;
            && o.out == [PlainAck(e'.rcv.base, FreeRoom(e'))]
            && e' == e.(rcv := e'.rcv, recvBuf := e'.recvBuf, overflow := e'.overflow, pipe := e'.pipe)
            && e'.rcv == RW.ReceivePacket(e.rcv, p).win
            && StreamDataToReceiveBuffer(e.(rcv := e'.rcv), RW.ReceivePacket(e.rcv, p).chain) == Done(e', [])
  {
    match RW.ReceivePacket(e.rcv, p)
    case RecvAbort =>
    case Received(w, ackNum, chain) =>
      assert ackNum == w.base;
      PushKeeps(e.(rcv := w));
      StreamKeeps(PushOverflow(e.(rcv := w)), chain);
  }

  ghost predicate BuffersOnly(e: Endpoint, e': Endpoint) {
    e' == e.(recvBuf := e'.recvBuf, overflow := e'.overflow, pipe := e'.pipe)
  }

  lemma {:induction false} PushKeeps(e: Endpoint)
    ensures BuffersOnly(e, PushOverflow(e))
    decreases |e.overflow|
  {
    if e.overflow != [] {
      PushKeeps(e.(recvBuf := e.recvBuf + e.overflow[0].payload, overflow := e.overflow[1..]));
    }
  }

  lemma {:induction false} StreamKeeps(e: Endpoint, chain: seq<Packet>)
    ensures var o := StreamChain(e, chain); o.Done? ==> o.out == [] && BuffersOnly(e, o.ep)
    decreases |chain|
  {
    if chain != [] {
      StreamKeeps(e.(recvBuf := e.recvBuf + chain[0].payload), chain[1..]);
      StreamKeeps(e.(overflow := e.overflow + [chain[0]]), chain[1..]);
    }
  }

  /** Whatever acknowledgement is accepted, in whatever state: the window becomes
      the advertised one, the timer runs as long as something is unacknowledged,
      a window above zero ends probing, and the state moves as the diagram says.
      The receiving half stays as it is. */
  lemma AckHandled(e: Endpoint, p: Packet)
    requires HandleACK(e, p).Done?
    ensures var o := HandleACK(e, p);
            var e', empty := o.ep, o.ep.snd.pkts == [];
            && e' == e.(snd := e'.snd, timer := !empty, prober := e.prober && p.window == 0,
                        state := e'.state, shutdown := e'.shutdown)
            && e'.snd.capacity == p.window
            && e'.state == (if e.state == SYN_RCVD then ESTABLISHED
                            else if e.state == CLOSING then TIME_WAIT
                            else if e.state == FIN_WAIT_1 && empty then FIN_WAIT_2
                            else if e.state == LAST_ACK && empty then CLOSED
                            else e.state)
            && (e'.shutdown <==> e.shutdown || (e.state == LAST_ACK && empty))
            && (o.out != [] ==> o.out == [e.snd.pkts[0]] && p.ackNum == e.snd.base && e'.snd.pkts == e.snd.pkts
                                && e'.snd.hasRetransmitted)
  {
  }

  /** Whatever SYN-ACK is accepted, in whatever state: it is acknowledged, and its
      number sets the receive base. It connects a side in SYN_SENT and gives it the
      advertised window; in any other state the sending half stays as it is. */
  lemma SynAckHandled(e: Endpoint, p: Packet)
    requires p.sync && p.ack && HandleReceivedPacket(e, p).Done?
    ensures var o, base := HandleReceivedPacket(e, p), (p.seqNum + 1) % U32;
            var e' := o.ep;
            && o.out == [PlainAck(base, FreeRoom(e))]
            && e'.rcv == RW.RecvWin(base, e.rcv.list)
            && if e.state == SYN_SENT
               then e' == e.(snd := e'.snd, rcv := e'.rcv, state := ESTABLISHED, timer := e'.timer)
                    && e'.snd.capacity == p.window && (e'.timer <==> e.timer && e'.snd.pkts != [])
               else e' == e.(rcv := e'.rcv)
  {
  }

  /** The timer sends the oldest unacknowledged packet again, and marks the window;
      the prober sends an empty packet at the next number as long as the window is
      closed, and changes nothing. */
  lemma TimersSend(e: Endpoint)
    ensures TimeoutReTransmitter(e) ==
              if e.snd.pkts == [] then Done(e, []) else Done(e.(snd := e.snd.(hasRetransmitted := true)), [e.snd.pkts[0]])
    ensures ProbeWindowSize(e) ==
              Done(e, if e.snd.capacity != 0 then []
                      else [Packet(Wrap(e.snd.base + e.snd.size), 0, 0, false, false, false, 0, [])])
  {
  }

  /** An endpoint connects if and only if it is CLOSED and has nothing in its
      window; the SYN takes the send base and offers the whole receive buffer's
      room. Otherwise nothing happens. */
  lemma ConnectsExactly(e: Endpoint)
    requires SW.ValidWin(e.snd)
    ensures var syn := Syn(e.snd.base, FreeRoom(e));
            TryConnect(e) ==
              if e.state == CLOSED && e.snd.pkts == [] then
                Done(e.(snd := e.snd.(pkts := [syn], size := 1), state := SYN_SENT, timer := true), [syn])
              else Done(e, [])
  {
    if e.snd.pkts != [] {
      SW.LastEnds(e.snd);
    } else {
      assert [] + [Syn(e.snd.base, FreeRoom(e))] == [Syn(e.snd.base, FreeRoom(e))];
    }
  }
}
