/** Deliveries, timeouts and connection set-up keep the invariant. */
module Delivery {
  import opened Packets
  import opened Endpoints
  import opened Reassembly
  import opened Network
  import opened Invariants
  import opened ReceiverLemmas
  import opened PairSteps
  import opened SendSteps
  import opened DeliverSteps
  import opened HandshakeSteps
  import opened HandshakeLemmas
  import opened HandshakeFrames
  import opened Preservation
  import SW = SendWindows
  import RW = RecvWindows

  // ---------------------------------------------------------------------------
  // Data and FIN

  lemma StateAfterFIN(e: Endpoint, log: seq<Packet>)
    requires StateOk(e.state, e.shutdown, e.timer, e.sendBuf, |e.snd.pkts|, log)
    ensures StateOk(StateOnFIN(e.state), e.shutdown, e.timer, e.sendBuf, |e.snd.pkts|, log)
  {
  }

  /** Taking data keeps the handshake part; `a` may have moved to a later state. */
  lemma HsTakesData(x: Side, a: Node, b: Node, live: bool, mc: nat, ms: nat, a': Node, ps: seq<Packet>, m': nat)
    requires Hs(x, a, b, live, mc, ms) && live
    requires b.out != [] && b.out[0].size > 0 && !b.out[0].sync && 0 < Bwd(x, mc, ms) <= m'
    requires a.log != [] && a'.log == a.log && a'.iss == a.iss && a'.out == a.out + ps && NoSyns(ps)
    requires Room(a') == Room(a) && (a'.ep.state == a.ep.state || !Handshaking(a'.ep.state))
    ensures if x.Client? then Hs(x, a', Popped(b), live, m', ms) else Hs(x, a', Popped(b), live, mc, m')
  {
    if x.Client? {
      HsClientTakesData(a, b, mc, ms, a', m', ps);
    } else {
      HsServerTakes(b, a, mc, ms, a', m', ps);
    }
  }

  lemma HasLog(x: Side, a: Node, b: Node, live: bool, mc: nat, ms: nat)
    requires View(x, a, b, live, mc, ms) && 0 < Bwd(x, mc, ms)
    ensures a.log != [] && live
  {
  }

  /** What the handler of a data packet or FIN does. */
  lemma DataTaken(x: Side, a: Node, b: Node, live: bool, mc: nat, ms: nat, state: TcpState, o: Outcome) returns (m': nat)
    requires Sealed(x, a, b, live, mc, ms)
    requires b.out != [] && b.out[0].size > 0 && !b.out[0].sync
    requires state == a.ep.state || state == StateOnFIN(a.ep.state)
    requires o == ReceiveAndAck(a.ep.(state := state), b.out[0])
    ensures o.Done? && o.out == [AckOf(o.ep, o.ep.rcv.base)]
    ensures o.ep == a.ep.(state := state, rcv := o.ep.rcv, recvBuf := o.ep.recvBuf, pipe := o.ep.pipe)
    ensures Pair(a.(ep := o.ep, out := a.out + o.out), Popped(b), Fwd(x, mc, ms), m')
    ensures 0 < Bwd(x, mc, ms) <= m' && (b.out[0].seqNum == a.ep.rcv.base ==> Bwd(x, mc, ms) < m')
  {
    SealedView(x, a, b, live, mc, ms);
    StateAfterFIN(a.ep, a.log);
    m' := DataPair(a, b, Fwd(x, mc, ms), Bwd(x, mc, ms), state);
  }

  lemma DataHs(x: Side, a: Node, b: Node, live: bool, mc: nat, ms: nat, a': Node, ps: seq<Packet>, m': nat)
    requires Sealed(x, a, b, live, mc, ms) && 0 < Bwd(x, mc, ms) <= m'
    requires b.out != [] && b.out[0].size > 0 && !b.out[0].sync
    requires a'.log == a.log && a'.iss == a.iss && a'.out == a.out + ps && NoSyns(ps)
    requires Room(a') == Room(a) && (a'.ep.state == a.ep.state || !Handshaking(a'.ep.state))
    ensures if x.Client? then Hs(x, a', Popped(b), live, m', ms) else Hs(x, a', Popped(b), live, mc, m')
  {
    SealedView(x, a, b, live, mc, ms);
    HasLog(x, a, b, live, mc, ms);
    HsTakesData(x, a, b, live, mc, ms, a', ps, m');
  }

  lemma DataView(x: Side, a: Node, b: Node, live: bool, mc: nat, ms: nat, state: TcpState, o: Outcome) returns (m': nat)
    requires Sealed(x, a, b, live, mc, ms)
    requires b.out != [] && b.out[0].size > 0 && !b.out[0].sync
    requires state == a.ep.state || state == StateOnFIN(a.ep.state)
    requires o == ReceiveAndAck(a.ep.(state := state), b.out[0])
    ensures o.Done? && Same(NodeAfter(a, o.ep, o.out), a.(ep := o.ep, out := a.out + o.out))
    ensures var a' := a.(ep := o.ep, out := a.out + o.out);
            if x.Client? then Sealed(x, a', Popped(b), live, m', ms) else Sealed(x, a', Popped(b), live, mc, m')
    ensures Bwd(x, mc, ms) <= m' && (b.out[0].seqNum == a.ep.rcv.base ==> Bwd(x, mc, ms) < m')
    ensures o.ep.snd == a.ep.snd && o.ep.state == state && o.ep.shutdown == a.ep.shutdown
    ensures o.ep.recvCap == a.ep.recvCap && o.out == [AckOf(o.ep, o.ep.rcv.base)]
  {
    m' := DataTaken(x, a, b, live, mc, ms, state, o);
    DataHs(x, a, b, live, mc, ms, a.(ep := o.ep, out := a.out + o.out), o.out, m');
    NothingRegistered(a, o.ep, o.out);
  }

  // ---------------------------------------------------------------------------
  // Probes and acknowledgements

  lemma HsTakesOther(x: Side, a: Node, b: Node, live: bool, mc: nat, ms: nat, a': Node, ps: seq<Packet>)
    requires Hs(x, a, b, live, mc, ms) && live && (x.Client? ==> a.ep.state != SYN_SENT) && (x.Server? ==> ms > 0)
    requires b.out != [] && !b.out[0].sync
    requires a.log != [] && a'.log == a.log && a'.iss == a.iss && a'.out == a.out + ps && NoSyns(ps)
    requires Room(a') == Room(a) && a'.ep.rcv == a.ep.rcv
    requires a'.ep.state == a.ep.state || !Handshaking(a'.ep.state)
    ensures Hs(x, a', Popped(b), live, mc, ms)
  {
    if x.Client? {
      HsClientTakesOther(a, b, mc, ms, a', ps);
    } else {
      HsServerTakes(b, a, mc, ms, a', ms, ps);
    }
  }

  /** Anything that is not a SYN finds its receiver past the first SYN. */
  lemma PastSyn(x: Side, a: Node, b: Node, live: bool, mc: nat, ms: nat)
    requires View(x, a, b, live, mc, ms) && b.out != [] && !b.out[0].sync
    requires Present(x, live)
    ensures live && a.log != [] && (x.Client? ==> a.ep.state != SYN_SENT) && (x.Server? ==> ms > 0)
  {
    if x.Server? {
      assert b.ep.state != SYN_SENT && b.log != [] && mc > 0;
    }
  }

  lemma ProbeTakenView(x: Side, a: Node, b: Node, live: bool, mc: nat, ms: nat, o: Outcome)
    requires Sealed(x, a, b, live, mc, ms) && Present(x, live)
    requires b.out != [] && IsProbe(b.out[0])
    requires o == Done(a.ep, [AckOf(a.ep, a.ep.rcv.base)])
    ensures Same(NodeAfter(a, o.ep, o.out), a.(ep := o.ep, out := a.out + o.out))
    ensures Sealed(x, a.(ep := o.ep, out := a.out + o.out), Popped(b), live, mc, ms)
  {
    var a' := a.(ep := o.ep, out := a.out + o.out);
    ProbeFacts(x, a, b, live, mc, ms, a', o.out[0]);
    AckHs(x, a, b, live, mc, ms, a', o.out);
    NothingRegistered(a, o.ep, o.out);
    SealedParts(x, a', Popped(b), live, mc, ms);
  }

  lemma ProbeFacts(x: Side, a: Node, b: Node, live: bool, mc: nat, ms: nat, a': Node, p: Packet)
    requires Sealed(x, a, b, live, mc, ms) && Present(x, live) && b.out != [] && IsProbe(b.out[0])
    requires p == AckOf(a.ep, a.ep.rcv.base) && Same(a', a.(out := a.out + [p]))
    ensures SealedPair(a', Popped(b), Fwd(x, mc, ms), Bwd(x, mc, ms))
    ensures live && a.log != [] && (x.Client? ==> a.ep.state != SYN_SENT) && (x.Server? ==> ms > 0)
  {
    SealedView(x, a, b, live, mc, ms);
    PastSyn(x, a, b, live, mc, ms);
    ProbePair(a, b, Fwd(x, mc, ms), Bwd(x, mc, ms));
  }

  lemma AckFacts(x: Side, a: Node, b: Node, live: bool, mc: nat, ms: nat) returns (e: Endpoint, o: Outcome)
    requires Sealed(x, a, b, live, mc, ms) && Present(x, live)
    requires b.out != [] && PureAck(b.out[0])
    ensures live && a.log != [] && (x.Client? ==> a.ep.state != SYN_SENT) && (x.Server? ==> ms > 0)
    ensures AckEffect(a.ep, b.out[0], e)
    ensures o == HandleACK(a.ep, b.out[0])
    ensures || o == Done(e, [])
            || (e.snd.pkts != [] && o == Done(e.(snd := SW.MarkResent(e.snd)), [e.snd.pkts[0]]))
    ensures SealedPair(a.(ep := e), Popped(b), Fwd(x, mc, ms), Bwd(x, mc, ms))
    ensures |o.ep.snd.pkts| <= |a.ep.snd.pkts| && NoSyns(o.out) && SameReceiver(a, a.(ep := o.ep))
    ensures o.ep.state == a.ep.state || !Handshaking(o.ep.state)
    ensures o.ep.state == StateOnACK(a.ep.state, o.ep.snd.pkts == [])
  {
    SealedView(x, a, b, live, mc, ms);
    PastSyn(x, a, b, live, mc, ms);
    e := AckPair(a, b, Fwd(x, mc, ms), Bwd(x, mc, ms));
    o := HandleAckEffect(a, e, b.out[0]);
  }

  lemma AckView(x: Side, a: Node, b: Node, live: bool, mc: nat, ms: nat, o: Outcome)
    requires Sealed(x, a, b, live, mc, ms) && Present(x, live)
    requires b.out != [] && PureAck(b.out[0]) && o == HandleACK(a.ep, b.out[0])
    ensures o.Done? && Same(NodeAfter(a, o.ep, o.out), a.(ep := o.ep, out := a.out + o.out))
    ensures Sealed(x, a.(ep := o.ep, out := a.out + o.out), Popped(b), live, mc, ms)
    ensures o.ep.recvCap == a.ep.recvCap && o.ep.state == StateOnACK(a.ep.state, o.ep.snd.pkts == [])
    ensures b.out[0].ackNum > a.ep.snd.base ==>
              && o.out == [] && |o.ep.snd.pkts| < |a.ep.snd.pkts| && o.ep.snd.base == b.out[0].ackNum
    ensures o.ep.shutdown ==> a.ep.shutdown || o.ep.snd.pkts == []
  {
    var e, o' := AckFacts(x, a, b, live, mc, ms);
    var z := a.(ep := o.ep, out := a.out + o.out);
    AckSealed(a, Popped(b), Fwd(x, mc, ms), Bwd(x, mc, ms), e, o, z);
    NothingRegistered(a, o.ep, o.out);
    AckHs(x, a, b, live, mc, ms, z, o.out);
    SealedParts(x, z, Popped(b), live, mc, ms);
    AckMovesBase(x, a, b, live, mc, ms, e, o);
  }

  lemma AckSealed(a: Node, b: Node, mab: nat, mba: nat, e: Endpoint, o: Outcome, z: Node)
    requires SealedPair(a.(ep := e), b, mab, mba)
    requires || o == Done(e, [])
             || (e.snd.pkts != [] && o == Done(e.(snd := SW.MarkResent(e.snd)), [e.snd.pkts[0]]))
    requires Same(z, a.(ep := o.ep, out := a.out + o.out))
    ensures SealedPair(z, b, mab, mba)
  {
    SealedPairIs(a.(ep := e), b, mab, mba);
    HandleAckPair(a, b, mab, mba, e, o, z);
  }

  /** An acknowledgement above the base moves the base there. */
  lemma AckMovesBase(x: Side, a: Node, b: Node, live: bool, mc: nat, ms: nat, e: Endpoint, o: Outcome)
    requires Sealed(x, a, b, live, mc, ms) && b.out != [] && PureAck(b.out[0])
    requires AckEffect(a.ep, b.out[0], e) && o == HandleACK(a.ep, b.out[0]) && o.Done?
    ensures b.out[0].ackNum > a.ep.snd.base ==>
              && o.out == [] && |o.ep.snd.pkts| < |a.ep.snd.pkts| && o.ep.snd.base == b.out[0].ackNum
  {
  }

  lemma AckHs(x: Side, a: Node, b: Node, live: bool, mc: nat, ms: nat, a': Node, ps: seq<Packet>)
    requires Sealed(x, a, b, live, mc, ms)
    requires live && a.log != [] && (x.Client? ==> a.ep.state != SYN_SENT) && (x.Server? ==> ms > 0)
    requires b.out != [] && !b.out[0].sync && SameReceiver(a, a')
    requires a'.log == a.log && a'.iss == a.iss && a'.out == a.out + ps && NoSyns(ps)
    requires a'.ep.state == a.ep.state || !Handshaking(a'.ep.state)
    ensures SealedHs(x, a', Popped(b), live, mc, ms)
  {
    SealedView(x, a, b, live, mc, ms);
    HsTakesOther(x, a, b, live, mc, ms, a', ps);
  }

  // ---------------------------------------------------------------------------
  // SYN and SYN-ACK

  /** A SYN reaches the server, for the first time. */
  lemma FirstSynView(s: Node, c: Node, mc: nat, ms: nat, o: Outcome)
    requires Sealed(Server, s, c, true, mc, ms) && c.out != [] && c.out[0].sync && s.log == []
    requires o == HandleSYN(s.ep, c.out[0])
    ensures o.Done? && Same(NodeAfter(s, o.ep, o.out), Grown(s, o.ep, o.out))
    ensures Sealed(Server, Grown(s, o.ep, o.out), Popped(c), true, mc, 1)
    ensures ms <= 1 && s.ep.state == CLOSED && !s.ep.shutdown && o.ep.state == SYN_RCVD && o.ep.recvCap == s.ep.recvCap
    ensures |o.out| == 1 && KindOf(o.out[0]).SynAck? && o.ep.shutdown == s.ep.shutdown
  {
    var synAck := FirstSynFacts(s, c, mc, ms, o);
    GrownIsNodeAfter(s, o.ep, o.out);
    assert s.log + [synAck] == [synAck];
    FirstSynSeal(s, c, mc, ms, Grown(s, o.ep, o.out), synAck);
  }

  lemma FirstSynFacts(s: Node, c: Node, mc: nat, ms: nat, o: Outcome) returns (synAck: Packet)
    requires Sealed(Server, s, c, true, mc, ms) && c.out != [] && c.out[0].sync && s.log == []
    requires o == HandleSYN(s.ep, c.out[0])
    ensures o.Done? && o.out == [synAck] && KindOf(synAck).SynAck? && SynAckOk(synAck, c.iss + 1, Room(s))
    ensures o.ep == s.ep.(rcv := RW.RecvWin(c.iss + 1, []), snd := o.ep.snd, state := SYN_RCVD, timer := true)
    ensures o.ep.snd.pkts == [synAck] && s.ep.snd.pkts == [] && ms <= 1 && s.ep.state == CLOSED && !s.ep.shutdown
    ensures Pair(Grown(s, o.ep, [synAck]), Popped(c), mc, 1)
  {
    SealedView(Server, s, c, true, mc, ms);
    synAck := MakeSyncPacket(SERVER_SEQ_NUM, RecvFree(s.ep)).(ack := true, ackNum := c.iss + 1);
    var o' := FirstSynEffect(s, c, ms, synAck);
    var s1 := s.(ep := s.ep.(rcv := RW.RecvWin(c.iss + 1, [])));
    FirstSynPair(s, c, mc, ms, synAck, s1);
    assert Same(Grown(s, o.ep, o.out),
                Grown(s1, s1.ep.(snd := SW.SendPacket(s1.ep.snd, synAck).win, state := SYN_RCVD, timer := true), [synAck]));
    NothingBuffered(c.log, s.ep, s.read);
    SynAckMade(s.ep, c.iss + 1, Room(s), synAck);
  }

  lemma FirstSynSeal(s: Node, c: Node, mc: nat, ms: nat, s': Node, p: Packet)
    requires Sealed(Server, s, c, true, mc, ms) && c.out != [] && c.out[0].sync && s.log == []
    requires p.sync && SynAckOk(p, c.iss + 1, Room(s)) && Pair(s', Popped(c), mc, 1)
    requires s'.iss == s.iss && s'.log == [p] && s'.out == s.out + [p] && s'.ep.state == SYN_RCVD
    requires Room(s') == Room(s) && s'.ep.snd.pkts == [p] && s'.ep.rcv.list == []
    ensures Sealed(Server, s', Popped(c), true, mc, 1)
  {
    SealedView(Server, s, c, true, mc, ms);
    FirstSynHs(s, c, mc, ms, s', p);
  }

  lemma NothingBuffered(log: seq<Packet>, e: Endpoint, read: seq<byte>)
    requires Streamed(log, 0, e, read)
    ensures e.recvBuf == []
  {
    assert log[..0] == [];
  }

  lemma SynAckMade(e: Endpoint, ackNum: nat, room: nat, p: Packet)
    requires p == MakeSyncPacket(SERVER_SEQ_NUM, RecvFree(e)).(ack := true, ackNum := ackNum)
    requires e.recvBuf == [] && OfferedCap(e) <= room
    ensures SynAckOk(p, ackNum, room)
  {
  }

  lemma FirstSynHs(s: Node, c: Node, mc: nat, ms: nat, s': Node, p: Packet)
    requires SendSide(s) && Direction(s, c, mc) && Handshake(c, s, true, mc, ms)
    requires c.out != [] && c.out[0].sync && s.log == []
    requires p.sync && SynAckOk(p, c.iss + 1, Room(s))
    requires s'.iss == s.iss && s'.log == [p] && s'.out == s.out + [p] && s'.ep.state == SYN_RCVD
    requires Room(s') == Room(s) && s'.ep.snd.pkts == [p] && s'.ep.rcv.list == []
    ensures Handshake(Popped(c), s', true, mc, 1)
  {
    HsClientPopped(c, s, true, mc, ms);
    NoneBuffered(s, c, mc);
    OnlySynAcksOut(s, c, mc);
    HsServerSynAck(Popped(c), s, mc, ms, s', 1, p);
  }

  /** Before the server has sent anything but its SYN-ACK, the client holds
      nothing more than that. */
  lemma NoneBuffered(s: Node, c: Node, mc: nat)
    requires SendSide(s) && Direction(s, c, mc) && |s.log| <= 1
    ensures mc <= 1 && c.ep.rcv.list == []
  {
    HeadIn(c.ep.rcv.list);
  }

  lemma OnlySynAcksOut(s: Node, c: Node, mc: nat)
    requires SendSide(s) && Direction(s, c, mc) && |s.log| <= 1
    ensures forall i :: 0 <= i < |s.out| ==> s.out[i].sync || s.out[i].size == 0
  {
    forall i | 0 <= i < |s.out| ensures s.out[i].sync || s.out[i].size == 0 {
      assert Shape(s.log, Acked(s), s.out[i]);
      if s.out[i].size > 0 {
        assert s.out[i] == s.log[0];
        assert KindOk(s.log[0], 0, |s.log|);
      }
    }
  }

  /** A SYN reaches the server again. */
  lemma RepeatedSynView(s: Node, c: Node, mc: nat, ms: nat, o: Outcome)
    requires Sealed(Server, s, c, true, mc, ms) && c.out != [] && c.out[0].sync && s.log != []
    requires o == HandleSYN(s.ep, c.out[0])
    ensures o.Done? && Same(NodeAfter(s, o.ep, o.out), s.(ep := o.ep, out := s.out + o.out))
    ensures Sealed(Server, s.(ep := o.ep, out := s.out + o.out), Popped(c), true, mc, 1)
    ensures ms <= 1 && o.ep.state == s.ep.state && o.ep.recvCap == s.ep.recvCap
    ensures |o.out| == 1 && KindOf(o.out[0]).SynAck? && o.ep.shutdown == s.ep.shutdown
    ensures o.ep.snd == SW.MarkResent(s.ep.snd)
  {
    var z := RepeatedSynFacts(s, c, mc, ms, o);
    NothingRegistered(s, o.ep, o.out);
    RepeatedSynSealed(s, c, mc, ms, z, o.out[0]);
    SealedParts(Server, z, Popped(c), true, mc, 1);
  }

  lemma RepeatedSynFacts(s: Node, c: Node, mc: nat, ms: nat, o: Outcome) returns (z: Node)
    requires Sealed(Server, s, c, true, mc, ms) && c.out != [] && c.out[0].sync && s.log != []
    requires o == HandleSYN(s.ep, c.out[0])
    ensures o.Done? && s.ep.snd.pkts != [] && o.out == [s.ep.snd.pkts[0]] && Same(o.out[0], s.log[0])
    ensures o.ep == s.ep.(snd := SW.MarkResent(s.ep.snd)) && KindOf(o.out[0]).SynAck? && ms <= 1
    ensures Same(z, s.(ep := o.ep, out := s.out + o.out)) && SealedPair(z, Popped(c), mc, 1)
  {
    SealedView(Server, s, c, true, mc, ms);
    var o' := RepeatedSynEffect(s, c, ms);
    RepeatedSynPair(s, c, mc, ms);
    assert KindOk(s.log[0], 0, |s.log|) && SynAckOk(s.log[0], c.iss + 1, Room(s));
    z := s.(ep := o.ep, out := s.out + o.out);
  }

  lemma RepeatedSynSealed(s: Node, c: Node, mc: nat, ms: nat, s': Node, p: Packet)
    requires Sealed(Server, s, c, true, mc, ms) && c.out != [] && c.out[0].sync && s.log != []
    requires Same(p, s.log[0])
    requires s'.iss == s.iss && s'.log == s.log && s'.out == s.out + [p] && s'.ep.state == s.ep.state
    requires Room(s') == Room(s) && s'.ep.snd.pkts == s.ep.snd.pkts && s'.ep.rcv == s.ep.rcv
    ensures SealedHs(Server, s', Popped(c), true, mc, 1)
  {
    SealedView(Server, s, c, true, mc, ms);
    RepeatedSynHs(s, c, mc, ms, s', p);
  }

  lemma RepeatedSynHs(s: Node, c: Node, mc: nat, ms: nat, s': Node, p: Packet)
    requires SendSide(s) && Direction(s, c, mc) && Handshake(c, s, true, mc, ms)
    requires c.out != [] && c.out[0].sync && s.log != []
    requires Same(p, s.log[0])
    requires s'.iss == s.iss && s'.log == s.log && s'.out == s.out + [p] && s'.ep.state == s.ep.state
    requires Room(s') == Room(s) && s'.ep.snd.pkts == s.ep.snd.pkts && s'.ep.rcv == s.ep.rcv
    ensures Handshake(Popped(c), s', true, mc, 1)
  {
    HsClientPopped(c, s, true, mc, ms);
    assert |s.log| == 1;
    assert s.log == [p];
    assert KindOk(s.log[0], 0, 1);
    NoneBuffered(s, c, mc);
    OnlySynAcksOut(s, c, mc);
    HsServerSynAck(Popped(c), s, mc, ms, s', 1, p);
  }

  /** The client answers a SYN-ACK. */
  lemma SynAckHs(c: Node, s: Node, live: bool, mc: nat, ms: nat, c': Node, ps: seq<Packet>)
    requires Sealed(Client, c, s, live, mc, ms) && s.out != [] && s.out[0].sync
    requires c'.iss == c.iss && c'.log == c.log && c'.out == c.out + ps && NoSyns(ps)
    requires c'.ep.state != SYN_SENT && c'.ep.state != SYN_RCVD && c'.ep.rcv.list == []
    ensures live && SealedHs(Client, c', Popped(s), live, 1, ms)
  {
    SealedView(Client, c, s, live, mc, ms);
    assert SynAckOk(s.out[0], c.iss + 1, Room(s));
    HsClientSynAck(c, s, mc, ms, c', ps);
  }

  /** The first SYN-ACK reaches the client. */
  lemma FirstSynAckFacts(c: Node, s: Node, live: bool, mc: nat, ms: nat, o: Outcome) returns (e: Endpoint)
    requires Sealed(Client, c, s, live, mc, ms) && s.out != [] && s.out[0].sync && c.ep.state == SYN_SENT
    requires o == HandleACKSYN(c.ep, s.out[0])
    ensures o == Done(e, [AckOf(e, e.rcv.base)])
    ensures SealedPair(c.(ep := e), Popped(s), ms, 1) && s.log != [] && mc <= 1
    ensures e.state == ESTABLISHED && e.snd.pkts == [] && e.rcv.list == [] && e.shutdown == c.ep.shutdown
    ensures e.recvCap == c.ep.recvCap && e.rcv.base == s.iss + 1
  {
    SealedView(Client, c, s, live, mc, ms);
    HeadOpens(c, s, mc);
    var c1 := c.(ep := c.ep.(rcv := RW.RecvWin(s.iss + 1, [])));
    assert SynAckOk(s.out[0], c.iss + 1, Room(s));
    e := FirstSynAckPair(c, s, ms, mc, c1);
    FirstSynAckIs(c.ep, s.out[0], e);
    assert Same(c.(ep := e), c1.(ep := e));
  }

  lemma FirstSynAckView(c: Node, s: Node, live: bool, mc: nat, ms: nat, o: Outcome)
    requires Sealed(Client, c, s, live, mc, ms) && s.out != [] && s.out[0].sync && c.ep.state == SYN_SENT
    requires o == HandleACKSYN(c.ep, s.out[0])
    ensures o.Done? && Same(NodeAfter(c, o.ep, o.out), c.(ep := o.ep, out := c.out + o.out))
    ensures Sealed(Client, c.(ep := o.ep, out := c.out + o.out), Popped(s), live, 1, ms)
    ensures o.ep.state == ESTABLISHED && o.ep.snd.pkts == [] && o.ep.shutdown == c.ep.shutdown
    ensures mc <= 1 && o.ep.recvCap == c.ep.recvCap
    ensures o.out == [AckOf(o.ep, o.ep.rcv.base)] && o.ep.rcv.base == s.iss + 1
  {
    var e := FirstSynAckFacts(c, s, live, mc, ms, o);
    NothingRegistered(c, o.ep, o.out);
    FirstSynAckSeal(c, s, live, mc, ms, e, c.(ep := o.ep, out := c.out + o.out), o.out);
  }

  lemma FirstSynAckSeal(c: Node, s: Node, live: bool, mc: nat, ms: nat, e: Endpoint, c': Node, ps: seq<Packet>)
    requires Sealed(Client, c, s, live, mc, ms) && s.out != [] && s.out[0].sync && s.log != []
    requires SealedPair(c.(ep := e), Popped(s), ms, 1) && e.state == ESTABLISHED && e.rcv.list == []
    requires ps == [AckOf(e, e.rcv.base)] && Same(c', c.(ep := e, out := c.out + ps))
    ensures Sealed(Client, c', Popped(s), live, 1, ms)
  {
    AnswerSealed(c.(ep := e), Popped(s), ms, c', ps[0]);
    SynAckHs(c, s, live, mc, ms, c', ps);
    SealedParts(Client, c', Popped(s), live, 1, ms);
  }

  lemma AnswerSealed(a: Node, b: Node, mab: nat, z: Node, p: Packet)
    requires SealedPair(a, b, mab, 1) && b.log != [] && p == AckOf(a.ep, a.ep.rcv.base)
    requires Same(z, a.(out := a.out + [p]))
    ensures SealedPair(z, b, mab, 1)
  {
    SealedPairIs(a, b, mab, 1);
    AnswerSynAck(a, b, mab, p);
  }

  /** A repeated SYN-ACK reaches the client. */
  lemma RepeatedSynAckView(c: Node, s: Node, live: bool, mc: nat, ms: nat, o: Outcome)
    requires Sealed(Client, c, s, live, mc, ms) && s.out != [] && s.out[0].sync && c.ep.state != SYN_SENT
    requires o == HandleACKSYN(c.ep, s.out[0])
    ensures o.Done? && Same(NodeAfter(c, o.ep, o.out), c.(ep := o.ep, out := c.out + o.out))
    ensures Sealed(Client, c.(ep := o.ep, out := c.out + o.out), Popped(s), live, 1, ms)
    ensures mc <= 1 && o.ep == c.ep && o.out == [AckOf(o.ep, o.ep.rcv.base)] && o.ep.rcv.base == s.iss + 1
  {
    var z := c.(ep := o.ep, out := c.out + o.out);
    RepeatedSynAckFacts(c, s, live, mc, ms, o, z);
    NothingRegistered(c, o.ep, o.out);
    SynAckHs(c, s, live, mc, ms, z, o.out);
    SealedParts(Client, z, Popped(s), live, 1, ms);
  }

  lemma RepeatedSynAckFacts(c: Node, s: Node, live: bool, mc: nat, ms: nat, o: Outcome, z: Node)
    requires Sealed(Client, c, s, live, mc, ms) && s.out != [] && s.out[0].sync && c.ep.state != SYN_SENT
    requires o == HandleACKSYN(c.ep, s.out[0]) && Same(z, c.(ep := o.ep, out := c.out + o.out))
    ensures mc <= 1 && o.Done? && o.ep == c.ep && o.out == [AckOf(o.ep, o.ep.rcv.base)] && o.ep.rcv.base == s.iss + 1
    ensures c.ep.rcv.list == [] && c.ep.state != SYN_RCVD && SealedPair(z, Popped(s), ms, 1)
  {
    SealedView(Client, c, s, live, mc, ms);
    assert SynAckOk(s.out[0], c.iss + 1, Room(s));
    RepeatedSynAckEffect(c, s, mc);
    RepeatedSynAckPair(c, s, ms, mc);
  }

  // ---------------------------------------------------------------------------
  // Timeouts

  /** What a timeout leaves alone. */
  ghost predicate Resent(a: Node, a': Node, p: Packet) {
    && a.ep.snd.pkts != [] && Same(p, a.ep.snd.pkts[0])
    && Same(a', a.(ep := a.ep.(snd := SW.MarkResent(a.ep.snd)), out := a.out + [a.ep.snd.pkts[0]]))
  }

  lemma TimeoutConnected(x: Side, a: Node, b: Node, live: bool, mc: nat, ms: nat, a': Node, p: Packet)
    requires Sealed(x, a, b, live, mc, ms) && Resent(a, a', p) && !Handshaking(a.ep.state)
    ensures Sealed(x, a', b, live, mc, ms)
  {
    ResendSealed(x, a, b, live, mc, ms, a', p);
    SendsView(x, a, b, live, mc, ms, a', [p]);
  }

  lemma ResendSealed(x: Side, a: Node, b: Node, live: bool, mc: nat, ms: nat, a': Node, p: Packet)
    requires Sealed(x, a, b, live, mc, ms) && Resent(a, a', p) && !Handshaking(a.ep.state)
    ensures SealedPair(a', b, Fwd(x, mc, ms), Bwd(x, mc, ms))
    ensures Acked(a) > 0 && a.log != [] && !p.sync
  {
    SealedView(x, a, b, live, mc, ms);
    PairResend(a, b, Fwd(x, mc, ms), Bwd(x, mc, ms));
    BaseNotSync(a);
  }

  lemma TimeoutSyn(c: Node, s: Node, live: bool, mc: nat, ms: nat, c': Node, p: Packet)
    requires Sealed(Client, c, s, live, mc, ms) && Resent(c, c', p) && Handshaking(c.ep.state)
    ensures Sealed(Client, c', s, live, mc, ms)
  {
    SealedView(Client, c, s, live, mc, ms);
    PairResend(c, s, ms, mc);
    assert c.ep.snd.pkts == [p];
    ResendSyn(c, s, live, mc, ms, c', p);
  }

  lemma TimeoutSynAck(s: Node, c: Node, live: bool, mc: nat, ms: nat, s': Node, p: Packet)
    requires Sealed(Server, s, c, live, mc, ms) && Resent(s, s', p) && Handshaking(s.ep.state)
    ensures Sealed(Server, s', c, live, mc, ms)
  {
    SealedView(Server, s, c, live, mc, ms);
    PairResend(s, c, mc, ms);
    assert s.ep.snd.pkts == [p];
    ResendSynAck(c, s, live, mc, ms, s', p);
  }

  lemma TimeoutView(x: Side, a: Node, b: Node, live: bool, mc: nat, ms: nat, a': Node)
    requires Sealed(x, a, b, live, mc, ms) && a.ep.snd.pkts != []
    requires Same(a', a.(ep := a.ep.(snd := SW.MarkResent(a.ep.snd)), out := a.out + [a.ep.snd.pkts[0]]))
    ensures Sealed(x, a', b, live, mc, ms)
  {
    var p := a.ep.snd.pkts[0];
    if !Handshaking(a.ep.state) {
      TimeoutConnected(x, a, b, live, mc, ms, a', p);
    } else if x.Client? {
      TimeoutSyn(a, b, live, mc, ms, a', p);
    } else {
      TimeoutSynAck(a, b, live, mc, ms, a', p);
    }
  }

  lemma ResendSyn(c: Node, s: Node, live: bool, mc: nat, ms: nat, c': Node, p: Packet)
    requires View(Client, c, s, live, mc, ms) && c.ep.state == SYN_SENT && c.ep.snd.pkts == [p]
    requires c'.iss == c.iss && c'.log == c.log && c'.out == c.out + [p] && c'.ep.state == c.ep.state
    requires c'.ep.rcv == c.ep.rcv
    ensures Handshake(c', s, live, mc, ms)
  {
    OpeningIs(c, p);
    NoneBuffered(c, s, ms);
    HsClientSyn(c, s, live, mc, ms, c', p);
  }

  lemma ResendSynAck(c: Node, s: Node, live: bool, mc: nat, ms: nat, s': Node, p: Packet)
    requires View(Server, s, c, live, mc, ms) && Handshaking(s.ep.state) && s.ep.snd.pkts == [p]
    requires s'.iss == s.iss && s'.log == s.log && s'.out == s.out + [p] && s'.ep.state == s.ep.state
    requires Room(s') == Room(s) && s'.ep.snd.pkts == s.ep.snd.pkts && s'.ep.rcv == s.ep.rcv
    ensures Handshake(c, s', live, mc, ms)
  {
    OpeningIs(s, p);
    NoneBuffered(s, c, mc);
    OnlySynAcksOut(s, c, mc);
    HsServerResends(c, s, mc, ms, s', p);
  }

  lemma OpeningIs(a: Node, p: Packet)
    requires SendSide(a) && Handshaking(a.ep.state) && a.ep.snd.pkts == [p]
    ensures a.log == [p] && p.sync && Acked(a) == 0
  {
    assert Same(a.ep.snd.pkts[0], a.log[0]);
    assert KindOk(a.log[0], 0, 1);
  }

  lemma TimerMeansUnacked(x: Side, a: Node, b: Node, live: bool, mc: nat, ms: nat)
    requires Sealed(x, a, b, live, mc, ms)
    ensures a.ep.timer <==> a.ep.snd.pkts != []
  {
    SealedView(x, a, b, live, mc, ms);
  }

  lemma KeepTimeout(sys: System, x: Side, mc: nat, ms: nat, o: Outcome)
    requires InvAt(sys, mc, ms) && Self(sys, x).ep.timer && o == TimeoutReTransmitter(Self(sys, x).ep)
    ensures InvAt(Act(sys, x, o), mc, ms)
  {
    var a := Self(sys, x);
    InvFrom(sys, x, mc, ms);
    TimerMeansUnacked(x, a, Self(sys, Peer(x)), sys.live, mc, ms);
    NothingRegistered(a, o.ep, o.out);
    var a' := a.(ep := o.ep, out := a.out + o.out);
    TimeoutView(x, a, Self(sys, Peer(x)), sys.live, mc, ms, a');
    KeepActs(sys, x, o, a', mc, ms);
  }

  // ---------------------------------------------------------------------------
  // Connect and Create

  lemma ConnectView(c: Node, s: Node, live: bool, mc: nat, ms: nat, o: Outcome)
    requires Sealed(Client, c, s, live, mc, ms) && c.ep.state == CLOSED && !c.ep.shutdown
    requires Same(o, TryConnect(c.ep))
    ensures o.Done? && o.ep.state == SYN_SENT && o.ep.recvCap == c.ep.recvCap && Same(NodeAfter(c, o.ep, o.out), Grown(c, o.ep, o.out))
    ensures Sealed(Client, Grown(c, o.ep, o.out), s, live, mc, ms)
  {
    var syn := ConnectFacts(c, s, live, mc, ms, o);
    GrownIsNodeAfter(c, o.ep, o.out);
    ConnectHs(c, s, live, mc, ms, Grown(c, o.ep, o.out), syn);
    SealedParts(Client, Grown(c, o.ep, o.out), s, live, mc, ms);
  }

  lemma ConnectFacts(c: Node, s: Node, live: bool, mc: nat, ms: nat, o: Outcome) returns (syn: Packet)
    requires Sealed(Client, c, s, live, mc, ms) && c.ep.state == CLOSED && !c.ep.shutdown
    requires Same(o, TryConnect(c.ep))
    ensures o.Done? && o.ep == c.ep.(snd := o.ep.snd, state := SYN_SENT, timer := true) && o.out == [syn]
    ensures c.log == [] && c.ep.snd.pkts == [] && o.ep.snd.pkts == [syn] && syn.sync && SynOk(syn, c.iss)
    ensures SealedPair(Grown(c, o.ep, o.out), s, ms, mc)
  {
    SealedView(Client, c, s, live, mc, ms);
    syn := MakeSyncPacket(c.ep.snd.base, RecvFree(c.ep));
    OpenPair(c, s, ms, mc, syn, SYN_SENT);
  }

  lemma ConnectHs(c: Node, s: Node, live: bool, mc: nat, ms: nat, c': Node, syn: Packet)
    requires Sealed(Client, c, s, live, mc, ms) && c.log == [] && syn.sync && SynOk(syn, c.iss)
    requires c'.iss == c.iss && c'.log == c.log + [syn] && c'.out == c.out + [syn] && c'.ep.state == SYN_SENT
    requires c'.ep.rcv == c.ep.rcv
    ensures SealedHs(Client, c', s, live, mc, ms)
  {
    SealedView(Client, c, s, live, mc, ms);
    assert [] + [syn] == [syn];
    NoneBuffered(c, s, ms);
    HsClientSyn(c, s, live, mc, ms, c', syn);
  }

  lemma InFlightRepeat(log: seq<Packet>, acked: int, rcv: RW.RecvWin, ch: seq<Packet>)
    requires InFlight(log, acked, rcv, ch) && ch != [] && ch[0].seqNum <= rcv.base && AllAbove(rcv.list, rcv.base)
    ensures InFlight(log, acked, rcv, [ch[0]] + ch)
  {
  }

  lemma AcksRepeat(iss: nat, log: seq<Packet>, acked: int, m: nat, room: nat, ch: seq<Packet>)
    requires AcksOk(iss, log, acked, m, room, ch) && ch != [] && !PureAck(ch[0])
    ensures AcksOk(iss, log, acked, m, room, [ch[0]] + ch)
  {
  }

  lemma CreatePair(c: Node, s: Node, mc: nat, ms: nat, c': Node)
    requires Pair(c, s, ms, mc) && c.out != [] && c.out[0].sync && Same(c', c.(out := [c.out[0]] + c.out))
    requires c.out[0].seqNum <= s.ep.rcv.base
    ensures Pair(c', s, ms, mc)
  {
    InFlightRepeat(c.log, Acked(c), s.ep.rcv, c.out);
    AcksRepeat(s.iss, s.log, Acked(s), mc, Room(c), c.out);
    SenderFrame(c, s, ms, c');
    ReceiverFrame(c, s, mc, c');
  }

  lemma CreateHs(c: Node, s: Node, mc: nat, ms: nat, c': Node)
    requires Handshake(c, s, false, mc, ms) && c.log != [] && c.out != [] && c.out[0].sync
    requires Same(c', c.(out := [c.out[0]] + c.out))
    ensures Handshake(c', s, true, mc, ms)
  {
    SynsRepeatHead(c.out, c.iss, c.ep.state == SYN_SENT, ms, Acked(s), s.ep.rcv.list);
  }

  /** The host creates the server: its receive base is the SYN's number, which is
      where the client's log starts, and the SYN is there twice. */
  lemma CreateView(c: Node, s: Node, mc: nat, ms: nat, c': Node)
    requires Sealed(Client, c, s, false, mc, ms) && c.out != [] && c.out[0].sync
    requires Same(c', c.(out := [c.out[0]] + c.out))
    ensures s.ep.rcv == RW.RecvWin(c.out[0].seqNum, [])
    ensures Sealed(Client, c', s, true, mc, ms)
  {
    SealedView(Client, c, s, false, mc, ms);
    HeadOpens(s, c, ms);
    CreatePair(c, s, mc, ms, c');
    CreateHs(c, s, mc, ms, c');
  }

  lemma KeepCreate(sys: System, mc: nat, ms: nat)
    requires InvAt(sys, mc, ms) && !sys.live && sys.c.out != [] && sys.c.out[0].sync
    ensures InvAt(DoCreate(sys), mc, ms)
  {
    var c' := sys.c.(out := [sys.c.out[0]] + sys.c.out);
    CreateView(sys.c, sys.s, mc, ms, c');
    assert Same(DoCreate(sys).s, sys.s) && Same(DoCreate(sys).c, c');
  }
}
