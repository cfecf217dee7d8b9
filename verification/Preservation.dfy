/** Every step of the system keeps the invariant. */
module Preservation {
  import opened Packets
  import opened Endpoints
  import opened Network
  import opened Invariants
  import opened FlightLemmas
  import opened ReceiverLemmas
  import opened PairSteps
  import opened SendSteps
  import opened DeliverSteps
  import opened HandshakeLemmas
  import opened HandshakeFrames

  // ---------------------------------------------------------------------------
  // From nodes to systems

  /** Side `x` acts alone and becomes `a'`. */
  lemma KeepActs(sys: System, x: Side, o: Outcome, a': Node, mc: nat, ms: nat)
    requires InvAt(sys, mc, ms) && o.Done? && Same(NodeAfter(Self(sys, x), o.ep, o.out), a')
    requires Sealed(x, a', Self(sys, Peer(x)), sys.live, mc, ms)
    ensures InvAt(Act(sys, x, o), mc, ms)
  {
    InvFrom(Act(sys, x, o), x, mc, ms);
  }

  lemma KeepWith(sys: System, x: Side, a': Node, mc: nat, ms: nat)
    requires InvAt(sys, mc, ms) && Sealed(x, a', Self(sys, Peer(x)), sys.live, mc, ms)
    ensures InvAt(With(sys, x, a'), mc, ms)
  {
    InvFrom(With(sys, x, a'), x, mc, ms);
  }

  /** Side `x` takes the packet at the head of its peer's channel. */
  lemma KeepTakes(sys: System, x: Side, o: Outcome, a': Node, b': Node, mc: nat, ms: nat)
    requires !sys.aborted && Self(sys, Peer(x)).out != [] && o.Done?
    requires Same(NodeAfter(Self(sys, x), o.ep, o.out), a') && Same(Popped(Self(sys, Peer(x))), b')
    requires Sealed(x, a', b', sys.live, mc, ms)
    ensures InvAt(DoDeliver(sys, x, o), mc, ms)
  {
    WithoutAt(Self(sys, Peer(x)).out, 0);
    InvFrom(DoDeliver(sys, x, o), x, mc, ms);
  }

  // ---------------------------------------------------------------------------
  // Losses

  lemma HsDrop(x: Side, a: Node, b: Node, live: bool, mc: nat, ms: nat, i: nat)
    requires Hs(x, a, b, live, mc, ms) && i < |a.out|
    ensures Hs(x, a.(out := Without(a.out, i)), b, live, mc, ms)
  {
    if x.Client? { HsClientDrop(a, b, live, mc, ms, i); } else { HsServerDrop(b, a, live, mc, ms, i); }
  }

  lemma DropView(x: Side, a: Node, b: Node, live: bool, mc: nat, ms: nat, i: nat)
    requires Sealed(x, a, b, live, mc, ms) && i < |a.out|
    ensures Sealed(x, a.(out := Without(a.out, i)), b, live, mc, ms)
  {
    SealedView(x, a, b, live, mc, ms);
    PairDrop(a, b, Fwd(x, mc, ms), Bwd(x, mc, ms), i);
    HsDrop(x, a, b, live, mc, ms, i);
  }

  lemma KeepDrop(sys: System, x: Side, i: nat, mc: nat, ms: nat)
    requires InvAt(sys, mc, ms) && i < |Self(sys, x).out|
    ensures InvAt(Lose(sys, x, i), mc, ms)
  {
    InvFrom(sys, x, mc, ms);
    DropView(x, Self(sys, x), Self(sys, Peer(x)), sys.live, mc, ms, i);
    InvFrom(Lose(sys, x, i), x, mc, ms);
  }

  // ---------------------------------------------------------------------------
  // Local steps that send nothing

  /** Nothing the handshake looks at has changed. */
  ghost predicate Quiet(a: Node, a': Node) {
    && a'.iss == a.iss && a'.log == a.log && a'.out == a.out && a'.ep.state == a.ep.state
    && a'.ep.rcv == a.ep.rcv && Acked(a') == Acked(a) && Room(a) <= Room(a')
  }

  lemma HsQuiet(x: Side, a: Node, b: Node, live: bool, mc: nat, ms: nat, a': Node)
    requires Hs(x, a, b, live, mc, ms) && Quiet(a, a')
    ensures Hs(x, a', b, live, mc, ms)
  {
    if x.Client? { HsClientQuiet(a, b, live, mc, ms, a'); } else { HsServerQuiet(b, a, live, mc, ms, a'); }
  }

  /** What a read does to its endpoint. */
  ghost predicate ReadOk(e: Endpoint, r: ReadOutcome) {
    && r.DidRead? && |r.data| <= |e.recvBuf| && r.data == e.recvBuf[..|r.data|]
    && r.ep == e.(recvBuf := e.recvBuf[|r.data|..], pipe := r.ep.pipe)
    && (r.ep.pipe == e.pipe || (e.pipe == EOF_NOT_CONSUMED && r.ep.pipe == EOF_CONSUMED && e.recvBuf == []))
  }

  lemma ReadEffect(e: Endpoint, size: nat)
    requires e.pipe != EOF_CONSUMED
    ensures ReadOk(e, ReadData(e, size))
  {
    assert e.recvBuf[0..] == e.recvBuf;
  }

  lemma ReadView(x: Side, a: Node, b: Node, live: bool, mc: nat, ms: nat, a': Node, n: nat)
    requires Sealed(x, a, b, live, mc, ms) && DidReadTo(a, a', n)
    ensures Sealed(x, a', b, live, mc, ms)
  {
    SealedView(x, a, b, live, mc, ms);
    PairRead(a, b, Fwd(x, mc, ms), Bwd(x, mc, ms), a', n);
    ReadQuietly(a, a', n);
    HsQuiet(x, a, b, live, mc, ms, a');
  }

  lemma ReadQuietly(a: Node, a': Node, n: nat)
    requires DidReadTo(a, a', n)
    ensures Quiet(a, a')
  {
  }

  lemma KeepRead(sys: System, x: Side, r: ReadOutcome, mc: nat, ms: nat)
    requires InvAt(sys, mc, ms) && ReadOk(Self(sys, x).ep, r)
    ensures InvAt(DoRead(sys, x, r), mc, ms)
  {
    var a := Self(sys, x);
    InvFrom(sys, x, mc, ms);
    var a' := a.(ep := r.ep, read := a.read + r.data);
    ReadView(x, a, Self(sys, Peer(x)), sys.live, mc, ms, a', |r.data|);
    KeepWith(sys, x, a', mc, ms);
  }

  lemma WriteView(x: Side, a: Node, b: Node, live: bool, mc: nat, ms: nat, a': Node, d: seq<byte>)
    requires Sealed(x, a, b, live, mc, ms) && SeqUse(a) + |d| < U32
    requires !InClosingState(a.ep.state) && !a.ep.shutdown && Wrote(a, a', d)
    ensures Sealed(x, a', b, live, mc, ms)
  {
    SealedView(x, a, b, live, mc, ms);
    PairWrite(a, b, Fwd(x, mc, ms), Bwd(x, mc, ms), a', d);
    WroteQuietly(a, a', d);
    HsQuiet(x, a, b, live, mc, ms, a');
  }

  lemma WroteQuietly(a: Node, a': Node, d: seq<byte>)
    requires Wrote(a, a', d)
    ensures Quiet(a, a')
  {
  }

  /** What a write does to its endpoint. */
  ghost predicate WriteOk(e: Endpoint, data: seq<byte>, w: WriteOutcome) {
    if w.ret < 0 then w.ret == -1 && w.ep == e
    else 0 <= w.ret <= |data| && w.ep == e.(sendBuf := e.sendBuf + data[..w.ret])
         && !InClosingState(e.state) && !e.shutdown
  }

  lemma WriteEffect(e: Endpoint, data: seq<byte>)
    ensures WriteOk(e, data, WriteData(e, data))
  {
  }

  lemma KeepWrite(sys: System, x: Side, data: seq<byte>, mc: nat, ms: nat, w: WriteOutcome)
    requires InvAt(sys, mc, ms) && SeqUse(Self(sys, x)) + |data| < U32
    requires WriteOk(Self(sys, x).ep, data, w)
    ensures InvAt(DoWrite(sys, x, data, w), mc, ms)
  {
    var a := Self(sys, x);
    var a' := a.(ep := w.ep, written := a.written + Accepted(data, w));
    InvFrom(sys, x, mc, ms);
    WriteNode(x, a, Self(sys, Peer(x)), sys.live, mc, ms, a', data, w);
    KeepWith(sys, x, a', mc, ms);
  }

  lemma WriteNode(x: Side, a: Node, b: Node, live: bool, mc: nat, ms: nat, a': Node, data: seq<byte>, w: WriteOutcome)
    requires Sealed(x, a, b, live, mc, ms) && SeqUse(a) + |data| < U32 && WriteOk(a.ep, data, w)
    requires Same(a', a.(ep := w.ep, written := a.written + Accepted(data, w)))
    ensures Sealed(x, a', b, live, mc, ms)
  {
    if w.ret < 0 {
      WroteNothing(a, data);
    } else {
      WroteSome(a, a', data, w);
      WriteView(x, a, b, live, mc, ms, a', data[..w.ret]);
    }
  }

  lemma WroteSome(a: Node, a': Node, data: seq<byte>, w: WriteOutcome)
    requires WriteOk(a.ep, data, w) && w.ret >= 0
    requires Same(a', a.(ep := w.ep, written := a.written + Accepted(data, w)))
    ensures Wrote(a, a', data[..w.ret])
  {
  }

  /** The bytes a write accepted. */
  function Accepted(data: seq<byte>, w: WriteOutcome): seq<byte> {
    data[..if 0 <= w.ret <= |data| then w.ret else 0]
  }

  lemma WroteNothing(a: Node, data: seq<byte>)
    ensures Same(a.(ep := a.ep, written := a.written + data[..0]), a)
  {
    assert a.written + data[..0] == a.written;
  }

  lemma PushUpView(x: Side, a: Node, b: Node, live: bool, mc: nat, ms: nat)
    requires Sealed(x, a, b, live, mc, ms)
    ensures PushOverflow(a.ep) == a.ep
  {
    SealedView(x, a, b, live, mc, ms);
    PushOverflowNone(a.ep);
  }

  lemma KeepPushUp(sys: System, x: Side, mc: nat, ms: nat)
    requires InvAt(sys, mc, ms)
    ensures PushOverflow(Self(sys, x).ep) == Self(sys, x).ep
    ensures InvAt(Act(sys, x, Done(PushOverflow(Self(sys, x).ep), [])), mc, ms)
  {
    var a := Self(sys, x);
    InvFrom(sys, x, mc, ms);
    PushUpView(x, a, Self(sys, Peer(x)), sys.live, mc, ms);
    NothingRegistered(a, a.ep, []);
    assert a.out + [] == a.out;
    KeepActs(sys, x, Done(a.ep, []), a, mc, ms);
  }

  // ---------------------------------------------------------------------------
  // Local steps that send

  /** Sending packets `ps`, none of them a SYN, past the handshake. */
  ghost predicate Sends(a: Node, a': Node, ps: seq<Packet>) {
    && a.log != [] && a'.log != [] && Same(a'.log[0], a.log[0]) && a'.iss == a.iss
    && a'.out == a.out + ps && NoSyns(ps) && !Handshaking(a'.ep.state)
    && a'.ep.recvCap == a.ep.recvCap && Room(a') == Room(a)
  }

  /** A connected node sends packets `ps`, none of them a SYN. */
  lemma SendsHs(x: Side, a: Node, b: Node, live: bool, mc: nat, ms: nat, a': Node, ps: seq<Packet>)
    requires Sealed(x, a, b, live, mc, ms) && Acked(a) > 0 && Sends(a, a', ps) && a'.ep.rcv == a.ep.rcv
    requires Acked(a') == Acked(a)
    ensures SealedHs(x, a', b, live, mc, ms)
  {
    SealedView(x, a, b, live, mc, ms);
    if x.Client? {
      HsClientSends(a, b, live, mc, ms, a', ps);
    } else {
      PairSwap(a, b, mc, ms);
      ServerConnected(b, a, live, mc, ms);
      HsServerSends(b, a, mc, ms, a', ps);
    }
  }

  lemma SendsView(x: Side, a: Node, b: Node, live: bool, mc: nat, ms: nat, a': Node, ps: seq<Packet>)
    requires Sealed(x, a, b, live, mc, ms) && Acked(a) > 0 && Sends(a, a', ps) && a'.ep.rcv == a.ep.rcv
    requires Acked(a') == Acked(a) && SealedPair(a', b, Fwd(x, mc, ms), Bwd(x, mc, ms))
    ensures Sealed(x, a', b, live, mc, ms)
  {
    SendsHs(x, a, b, live, mc, ms, a', ps);
    SealedParts(x, a', b, live, mc, ms);
  }

  lemma LogHeadKept(log: seq<Packet>, ps: seq<Packet>)
    requires log != []
    ensures Same((log + ps)[0], log[0])
  {
  }

  lemma ListenFacts(x: Side, a: Node, b: Node, live: bool, mc: nat, ms: nat, o: Outcome)
    requires Sealed(x, a, b, live, mc, ms) && !InConnectingState(a.ep.state) && a.ep.sendBuf != []
    requires o == SendBufferListener(a.ep)
    ensures o.Done? && Same(NodeAfter(a, o.ep, o.out), Grown(a, o.ep, o.out))
    ensures CanSend(a) && Acked(a) > 0 && Sends(a, Grown(a, o.ep, o.out), o.out) && o.ep.rcv == a.ep.rcv
    ensures o.ep.state == a.ep.state
  {
    SealedView(x, a, b, live, mc, ms);
    ListenEffect(a);
    LogHeadKept(a.log, o.out);
  }

  lemma ListenView(x: Side, a: Node, b: Node, live: bool, mc: nat, ms: nat, o: Outcome)
    requires Sealed(x, a, b, live, mc, ms) && CanSend(a) && Acked(a) > 0
    requires o == SendBufferListener(a.ep) && o.Done?
    requires Sends(a, Grown(a, o.ep, o.out), o.out) && o.ep.rcv == a.ep.rcv
    ensures Sealed(x, Grown(a, o.ep, o.out), b, live, mc, ms)
  {
    ListenSealed(x, a, b, live, mc, ms, o, Grown(a, o.ep, o.out));
    SendsView(x, a, b, live, mc, ms, Grown(a, o.ep, o.out), o.out);
  }

  lemma ListenSealed(x: Side, a: Node, b: Node, live: bool, mc: nat, ms: nat, o: Outcome, z: Node)
    requires Sealed(x, a, b, live, mc, ms) && CanSend(a) && o == SendBufferListener(a.ep) && o.Done?
    requires Same(z, Grown(a, o.ep, o.out))
    ensures SealedPair(z, b, Fwd(x, mc, ms), Bwd(x, mc, ms)) && Acked(z) == Acked(a)
  {
    SealedView(x, a, b, live, mc, ms);
    ListenPair(a, b, Fwd(x, mc, ms), Bwd(x, mc, ms));
    ListenEffect(a);
  }

  lemma KeepListen(sys: System, x: Side, mc: nat, ms: nat, o: Outcome)
    requires InvAt(sys, mc, ms) && !InConnectingState(Self(sys, x).ep.state) && Self(sys, x).ep.sendBuf != []
    requires o == SendBufferListener(Self(sys, x).ep)
    ensures o.Done? && o.ep.recvCap == Self(sys, x).ep.recvCap && o.ep.state == Self(sys, x).ep.state
    ensures InvAt(Act(sys, x, o), mc, ms)
  {
    InvFrom(sys, x, mc, ms);
    ListenFacts(x, Self(sys, x), Self(sys, Peer(x)), sys.live, mc, ms, o);
    ListenView(x, Self(sys, x), Self(sys, Peer(x)), sys.live, mc, ms, o);
    KeepActs(sys, x, o, Grown(Self(sys, x), o.ep, o.out), mc, ms);
  }

  lemma FinishFacts(x: Side, a: Node, b: Node, live: bool, mc: nat, ms: nat, o: Outcome)
    requires Sealed(x, a, b, live, mc, ms) && a.ep.sendBuf == []
    requires a.ep.state == ESTABLISHED || a.ep.state == CLOSE_WAIT
    requires o == SendFIN(a.ep)
    ensures o.Done? && Same(NodeAfter(a, o.ep, o.out), Grown(a, o.ep, o.out))
    ensures CanSend(a) && Acked(a) > 0 && Sends(a, Grown(a, o.ep, o.out), o.out) && o.ep.rcv == a.ep.rcv
    ensures o.ep.state == StateOnSendFIN(a.ep.state)
  {
    SealedView(x, a, b, live, mc, ms);
    FinishSends(a, o);
  }

  lemma FinishSends(a: Node, o: Outcome)
    requires SendSide(a) && CanSend(a) && a.ep.sendBuf == []
    requires a.ep.state == ESTABLISHED || a.ep.state == CLOSE_WAIT
    requires o == SendFIN(a.ep)
    ensures o.Done? && Same(NodeAfter(a, o.ep, o.out), Grown(a, o.ep, o.out))
    ensures Sends(a, Grown(a, o.ep, o.out), o.out) && o.ep.rcv == a.ep.rcv
    ensures o.ep.state == StateOnSendFIN(a.ep.state)
  {
    FinSendSide(a);
    FinSends(a, o.ep, o.out);
  }

  lemma FinSends(a: Node, e: Endpoint, ps: seq<Packet>)
    requires a.log != [] && |ps| == 1 && !ps[0].sync && e.snd.pkts == a.ep.snd.pkts + ps && !Handshaking(e.state)
    requires e.recvCap == a.ep.recvCap
    ensures Same(NodeAfter(a, e, ps), Grown(a, e, ps)) && Sends(a, Grown(a, e, ps), ps)
  {
    GrownIsNodeAfter(a, e, ps);
    LogHeadKept(a.log, ps);
  }

  lemma FinishView(x: Side, a: Node, b: Node, live: bool, mc: nat, ms: nat, o: Outcome)
    requires Sealed(x, a, b, live, mc, ms) && a.ep.sendBuf == [] && CanSend(a) && Acked(a) > 0
    requires a.ep.state == ESTABLISHED || a.ep.state == CLOSE_WAIT
    requires o == SendFIN(a.ep) && o.Done?
    requires Sends(a, Grown(a, o.ep, o.out), o.out) && o.ep.rcv == a.ep.rcv
    ensures Sealed(x, Grown(a, o.ep, o.out), b, live, mc, ms)
  {
    FinishSealed(x, a, b, live, mc, ms, o, Grown(a, o.ep, o.out));
    SendsView(x, a, b, live, mc, ms, Grown(a, o.ep, o.out), o.out);
  }

  lemma FinishSealed(x: Side, a: Node, b: Node, live: bool, mc: nat, ms: nat, o: Outcome, z: Node)
    requires Sealed(x, a, b, live, mc, ms) && a.ep.sendBuf == [] && CanSend(a)
    requires a.ep.state == ESTABLISHED || a.ep.state == CLOSE_WAIT
    requires o == SendFIN(a.ep) && o.Done? && Same(z, Grown(a, o.ep, o.out))
    ensures SealedPair(z, b, Fwd(x, mc, ms), Bwd(x, mc, ms)) && Acked(z) == Acked(a)
  {
    SealedView(x, a, b, live, mc, ms);
    FinishPair(a, b, Fwd(x, mc, ms), Bwd(x, mc, ms));
    FinSendSide(a);
  }

  lemma KeepFinish(sys: System, x: Side, mc: nat, ms: nat, o: Outcome)
    requires InvAt(sys, mc, ms) && Self(sys, x).ep.sendBuf == []
    requires Self(sys, x).ep.state == ESTABLISHED || Self(sys, x).ep.state == CLOSE_WAIT
    requires o == SendFIN(Self(sys, x).ep)
    ensures o.Done? && o.ep.recvCap == Self(sys, x).ep.recvCap
    ensures o.ep.state == StateOnSendFIN(Self(sys, x).ep.state)
    ensures InvAt(Act(sys, x, o), mc, ms)
  {
    InvFrom(sys, x, mc, ms);
    FinishFacts(x, Self(sys, x), Self(sys, Peer(x)), sys.live, mc, ms, o);
    FinishView(x, Self(sys, x), Self(sys, Peer(x)), sys.live, mc, ms, o);
    KeepActs(sys, x, o, Grown(Self(sys, x), o.ep, o.out), mc, ms);
  }

  lemma ProbeView(x: Side, a: Node, b: Node, live: bool, mc: nat, ms: nat, p: Packet)
    requires Sealed(x, a, b, live, mc, ms) && a.ep.prober && IsProbe(p)
    ensures Sealed(x, a.(out := a.out + [p]), b, live, mc, ms)
  {
    ProbeSealed(x, a, b, live, mc, ms, p);
    SendsView(x, a, b, live, mc, ms, a.(out := a.out + [p]), [p]);
  }

  lemma ProbeSealed(x: Side, a: Node, b: Node, live: bool, mc: nat, ms: nat, p: Packet)
    requires Sealed(x, a, b, live, mc, ms) && a.ep.prober && IsProbe(p)
    ensures SealedPair(a.(out := a.out + [p]), b, Fwd(x, mc, ms), Bwd(x, mc, ms))
    ensures Acked(a) > 0 && !Handshaking(a.ep.state) && a.log != []
  {
    SealedView(x, a, b, live, mc, ms);
    PairProbe(a, b, Fwd(x, mc, ms), Bwd(x, mc, ms), p);
  }

  lemma KeepProbe(sys: System, x: Side, mc: nat, ms: nat)
    requires InvAt(sys, mc, ms) && Self(sys, x).ep.prober
    ensures InvAt(Act(sys, x, ProbeWindowSize(Self(sys, x).ep)), mc, ms)
  {
    var a := Self(sys, x);
    var o := ProbeWindowSize(a.ep);
    NothingRegistered(a, a.ep, o.out);
    InvFrom(sys, x, mc, ms);
    if o.out == [] {
      assert a.out + [] == a.out;
      KeepActs(sys, x, o, a, mc, ms);
    } else {
      ProbeView(x, a, Self(sys, Peer(x)), sys.live, mc, ms, o.out[0]);
      KeepActs(sys, x, o, a.(out := a.out + o.out), mc, ms);
    }
  }
}
