/** Steps that register packets: the send buffer listener, SendFIN, TryConnect. */
module SendSteps {
  import opened Packets
  import opened Endpoints
  import opened Logs
  import opened Network
  import opened Invariants
  import opened SenderLemmas
  import opened ReceiverLemmas
  import opened PairSteps
  import SW = SendWindows

  /** `a` after it has registered and sent the packets `ps`. */
  function Grown(a: Node, e: Endpoint, ps: seq<Packet>): Node {
    a.(ep := e, out := a.out + ps, log := a.log + ps)
  }

  lemma GrownIsNodeAfter(a: Node, e: Endpoint, ps: seq<Packet>)
    requires e.snd.pkts == a.ep.snd.pkts + ps
    ensures NodeAfter(a, e, ps) == Grown(a, e, ps)
  {
    if ps == [] {
      assert a.log + [] == a.log;
    } else {
      assert e.snd.pkts[|a.ep.snd.pkts|..] == ps;
    }
  }

  lemma GrownTwice(a: Node, e: Endpoint, ps: seq<Packet>, e': Endpoint, qs: seq<Packet>)
    ensures Grown(Grown(a, e, ps), e', qs) == Grown(a, e', ps + qs)
  {
    Regroup(a.out, ps, qs);
    Regroup(a.log, ps, qs);
  }

  /** What a node needs to send data: connected, no FIN yet. */
  ghost predicate CanSend(a: Node) {
    a.log != [] && !Handshaking(a.ep.state) && !HasFin(a.log) && !a.ep.shutdown
  }

  /** The sender's half after one more data packet. */
  lemma EmitSendSide(a: Node, k: nat, restart: bool)
    requires SendSide(a) && CanSend(a)
    requires 1 <= k <= |a.ep.sendBuf| && a.ep.snd.size + k <= a.ep.snd.capacity
    requires a.ep.snd.pkts == [] ==> restart
    ensures var p := MakeDataPacket(Edge(a.iss, a.log, |a.log|), a.ep.sendBuf[..k]);
            var o := EmitOne(a.ep, k, restart);
            && o.Done? && o.out == [p]
            && o.ep == a.ep.(snd := o.ep.snd, sendBuf := a.ep.sendBuf[k..], timer := true)
            && o.ep.snd == a.ep.snd.(pkts := a.ep.snd.pkts + [p], size := a.ep.snd.size + k)
            && SendSide(Grown(a, o.ep, [p])) && CanSend(Grown(a, o.ep, [p]))
            && Bytes(a.log + [p]) == Bytes(a.log) + a.ep.sendBuf[..k]
  {
    var p := MakeDataPacket(Edge(a.iss, a.log, |a.log|), a.ep.sendBuf[..k]);
    LogBytes(a.iss, a.log);
    WindowValid(a.iss, a.log, a.ep.snd);
    RegisterNext(a.iss, a.log, a.ep.snd, p);
    KindsGrow(a.iss, a.log, p);
    SplitJoin(Bytes(a.log), a.ep.sendBuf, k);
  }

  lemma EmitNextPair(a: Node, b: Node, mab: nat, mba: nat, n: nat)
    requires Pair(a, b, mab, mba) && CanSend(a)
    requires 0 < n <= |a.ep.sendBuf| && a.ep.snd.size + n <= a.ep.snd.capacity
    ensures var o := EmitNext(a.ep, n);
            && o.Done? && Pair(Grown(a, o.ep, o.out), b, mab, mba) && CanSend(Grown(a, o.ep, o.out))
            && o.ep.sendBuf == a.ep.sendBuf[NextSize(n)..]
            && o.ep.snd.size == a.ep.snd.size + NextSize(n) && o.ep.snd.capacity == a.ep.snd.capacity
  {
    WindowValid(a.iss, a.log, a.ep.snd);
    EmitSendSide(a, NextSize(n), Restarts(a.ep, NextSize(n)));
    var o := EmitNext(a.ep, n);
    LogBytes(a.iss, a.log);
    PairRegister(a, b, mab, mba, o.out[0], Grown(a, o.ep, o.out));
  }

  /** Every packet of a round of `n` bytes is accepted by the window. */
  ghost predicate AllSent(e: Endpoint, n: nat)
    requires n <= |e.sendBuf|
    decreases n
  {
    n == 0 ||
    var o := EmitNext(e, n);
    && o.Done? && |o.out| == 1
    && o.ep == e.(snd := o.ep.snd, sendBuf := e.sendBuf[NextSize(n)..], timer := o.ep.timer)
    && o.ep.snd.pkts == e.snd.pkts + o.out
    && o.out[0].payload == e.sendBuf[..NextSize(n)]
    && o.out[0].size == NextSize(n) && !o.out[0].sync
    && AllSent(o.ep, n - NextSize(n))
  }

  /** SendPacket refuses nothing in a round that fits the window. */
  lemma {:induction false} RoundAllSent(a: Node, n: nat)
    requires SendSide(a) && CanSend(a)
    requires n <= |a.ep.sendBuf| && a.ep.snd.size + n <= a.ep.snd.capacity
    ensures AllSent(a.ep, n)
    decreases n
  {
    if n > 0 {
      WindowValid(a.iss, a.log, a.ep.snd);
      EmitSendSide(a, NextSize(n), Restarts(a.ep, NextSize(n)));
      var o := EmitNext(a.ep, n);
      RoundAllSent(Grown(a, o.ep, o.out), n - NextSize(n));
    }
  }

  /** What is sent is exactly the first `n` bytes of the buffer. */
  lemma {:induction false} EmitConserves(e: Endpoint, n: nat)
    requires n <= |e.sendBuf| && AllSent(e, n)
    ensures var o := Emit(e, n);
            && o.Done? && o.ep == e.(snd := o.ep.snd, sendBuf := e.sendBuf[n..], timer := o.ep.timer)
            && o.ep.snd.pkts == e.snd.pkts + o.out
            && Bytes(o.out) == e.sendBuf[..n]
    decreases n
  {
    if n == 0 {
      assert e.snd.pkts + [] == e.snd.pkts;
    } else {
      var o1 := EmitNext(e, n);
      EmitConserves(o1.ep, n - NextSize(n));
      EmitJoin(e, n, o1, Emit(o1.ep, n - NextSize(n)));
    }
  }

  /** The first packet of a round and the rest of it. */
  lemma EmitJoin(e: Endpoint, n: nat, o1: Outcome, o2: Outcome)
    requires 0 < n <= |e.sendBuf| && o1 == EmitNext(e, n) && o1.Done? && |o1.out| == 1 && o2.Done?
    requires o2 == Emit(o1.ep, n - NextSize(n))
    requires o1.out[0].payload == e.sendBuf[..NextSize(n)] && o1.ep.snd.pkts == e.snd.pkts + o1.out
    requires o1.ep == e.(snd := o1.ep.snd, sendBuf := e.sendBuf[NextSize(n)..], timer := o1.ep.timer)
    requires o2.ep == o1.ep.(snd := o2.ep.snd, sendBuf := o1.ep.sendBuf[n - NextSize(n)..], timer := o2.ep.timer)
    requires o2.ep.snd.pkts == o1.ep.snd.pkts + o2.out && Bytes(o2.out) == o1.ep.sendBuf[..n - NextSize(n)]
    ensures Emit(e, n) == Done(o2.ep, o1.out + o2.out)
    ensures o2.ep == e.(snd := o2.ep.snd, sendBuf := e.sendBuf[n..], timer := o2.ep.timer)
    ensures o2.ep.snd.pkts == e.snd.pkts + (o1.out + o2.out)
    ensures Bytes(o1.out + o2.out) == e.sendBuf[..n]
  {
    Regroup(e.snd.pkts, o1.out, o2.out);
    BytesAppend(o1.out, o2.out);
    OnePacket(o1.out);
    SliceJoin(e.sendBuf, NextSize(n), n);
  }

  /** It is sent in packets of one to ten bytes. */
  lemma {:induction false} EmitSizes(e: Endpoint, n: nat)
    requires n <= |e.sendBuf| && AllSent(e, n) && Emit(e, n).Done?
    ensures var o := Emit(e, n);
            forall i :: 0 <= i < |o.out| ==> !o.out[i].sync && 1 <= o.out[i].size <= DATA_PACKET_SIZE
    decreases n
  {
    if n > 0 {
      var o1 := EmitNext(e, n);
      EmitSizes(o1.ep, n - NextSize(n));
    }
  }

  lemma OnePacket(ps: seq<Packet>)
    requires |ps| == 1
    ensures Bytes(ps) == ps[0].payload
  {
    assert ps[1..] == [];
    assert ps[0].payload + [] == ps[0].payload;
  }

  lemma SliceJoin<T>(s: seq<T>, k: nat, n: nat)
    requires k <= n <= |s|
    ensures s[..k] + s[k..][..n - k] == s[..n]
    ensures s[k..][n - k..] == s[n..]
  {
  }

  /** The node after a round, packet by packet. */
  function EmitNode(a: Node, n: nat): Node
    requires n <= |a.ep.sendBuf|
    decreases n
  {
    if n == 0 then a
    else
      match EmitNext(a.ep, n)
      case Abort => a
      case Done(e1, out1) => EmitNode(Grown(a, e1, out1), n - NextSize(n))
  }

  lemma {:induction false} EmitNodeIs(a: Node, n: nat)
    requires n <= |a.ep.sendBuf| && Emit(a.ep, n).Done?
    ensures var o := Emit(a.ep, n); EmitNode(a, n) == Grown(a, o.ep, o.out)
    decreases n
  {
    if n == 0 {
      assert a.out + [] == a.out && a.log + [] == a.log;
    } else {
      var o1 := EmitNext(a.ep, n);
      var a1 := Grown(a, o1.ep, o1.out);
      EmitNodeIs(a1, n - NextSize(n));
      var o2 := Emit(o1.ep, n - NextSize(n));
      GrownTwice(a, o1.ep, o1.out, o2.ep, o2.out);
    }
  }

  lemma {:induction false} EmitNodePair(a: Node, b: Node, mab: nat, mba: nat, n: nat, z: Node)
    requires SealedPair(a, b, mab, mba) && CanSend(a)
    requires n <= |a.ep.sendBuf| && a.ep.snd.size + n <= a.ep.snd.capacity
    requires Same(z, EmitNode(a, n))
    ensures SealedPair(z, b, mab, mba)
    decreases n
  {
    if n > 0 {
      var a1 := EmitNextSealed(a, b, mab, mba, n);
      EmitNodePair(a1, b, mab, mba, n - NextSize(n), z);
    }
  }

  lemma EmitNextSealed(a: Node, b: Node, mab: nat, mba: nat, n: nat) returns (a1: Node)
    requires SealedPair(a, b, mab, mba) && CanSend(a)
    requires 0 < n <= |a.ep.sendBuf| && a.ep.snd.size + n <= a.ep.snd.capacity
    ensures EmitNext(a.ep, n).Done? && Same(a1, Grown(a, EmitNext(a.ep, n).ep, EmitNext(a.ep, n).out))
    ensures SealedPair(a1, b, mab, mba) && CanSend(a1)
    ensures |a1.ep.sendBuf| == |a.ep.sendBuf| - NextSize(n)
    ensures a1.ep.snd.size == a.ep.snd.size + NextSize(n) && a1.ep.snd.capacity == a.ep.snd.capacity
  {
    SealedPairIs(a, b, mab, mba);
    EmitNextPair(a, b, mab, mba, n);
    a1 := Grown(a, EmitNext(a.ep, n).ep, EmitNext(a.ep, n).out);
  }

  /** A listener round, whichever branch it takes. */
  lemma ListenPair(a: Node, b: Node, mab: nat, mba: nat)
    requires Pair(a, b, mab, mba) && CanSend(a)
    ensures var o := SendBufferListener(a.ep);
            o.Done? && Pair(Grown(a, o.ep, o.out), b, mab, mba)
  {
    var o := SendBufferListener(a.ep);
    if a.ep.snd.capacity == 0 || SW.FreeSpace(a.ep.snd) == 0 {
      assert a.out + [] == a.out && a.log + [] == a.log;
      PairProber(a, b, mab, mba, o.ep.prober);
      assert Grown(a, o.ep, []) == a.(ep := a.ep.(prober := o.ep.prober));
    } else {
      var n := Min(SW.FreeSpace(a.ep.snd), |a.ep.sendBuf|);
      RoundAllSent(a, n);
      EmitConserves(a.ep, n);
      EmitNodeIs(a, n);
      SealedPairIs(a, b, mab, mba);
      EmitNodePair(a, b, mab, mba, n, Grown(a, o.ep, o.out));
      SealedPairIs(Grown(a, o.ep, o.out), b, mab, mba);
    }
  }

  /** What a listener round sends and what it leaves alone. */
  lemma ListenEffect(a: Node)
    requires SendSide(a) && CanSend(a)
    ensures var o := SendBufferListener(a.ep);
            && o.Done? && o.ep == a.ep.(snd := o.ep.snd, sendBuf := o.ep.sendBuf, timer := o.ep.timer, prober := o.ep.prober)
            && NodeAfter(a, o.ep, o.out) == Grown(a, o.ep, o.out)
            && o.ep.snd.pkts == a.ep.snd.pkts + o.out
            && (forall i :: 0 <= i < |o.out| ==> !o.out[i].sync && o.out[i].size > 0)
  {
    var o := SendBufferListener(a.ep);
    if a.ep.snd.capacity == 0 || SW.FreeSpace(a.ep.snd) == 0 {
      assert a.ep.snd.pkts + [] == a.ep.snd.pkts;
    } else {
      var n := Min(SW.FreeSpace(a.ep.snd), |a.ep.sendBuf|);
      RoundAllSent(a, n);
      EmitConserves(a.ep, n);
      EmitSizes(a.ep, n);
    }
    GrownIsNodeAfter(a, o.ep, o.out);
  }

  lemma PairProber(a: Node, b: Node, mab: nat, mba: nat, prober: bool)
    requires Pair(a, b, mab, mba) && CanSend(a)
    ensures Pair(a.(ep := a.ep.(prober := prober)), b, mab, mba)
  {
    var a' := a.(ep := a.ep.(prober := prober));
    WindowFrame(a, b, mab, a');
    ReceiverFrame(a, b, mba, a');
  }

  /** A node whose log gains packet `p` and whose endpoint becomes `e` still has
      its sending half in order. */
  lemma GrownSendSide(a: Node, e: Endpoint, p: Packet)
    requires SendSide(a) && !HasFin(a.log)
    requires LogOk(a.iss, a.log + [p]) && Bytes(a.log + [p]) == Bytes(a.log)
    requires WindowOk(a.iss, a.log + [p], e.snd)
    requires StateOk(e.state, e.shutdown, e.timer, e.sendBuf, |e.snd.pkts|, a.log + [p])
    requires e.sendBuf == a.ep.sendBuf && e.prober == a.ep.prober && |e.snd.pkts| == |a.ep.snd.pkts| + 1
    ensures SendSide(Grown(a, e, [p]))
  {
  }

  /** SendFIN in a state that allows it. */
  lemma FinEffect(a: Node, p: Packet)
    requires SendSide(a) && CanSend(a) && a.ep.sendBuf == []
    requires a.ep.state == ESTABLISHED || a.ep.state == CLOSE_WAIT
    requires p == MakeFinPacket(Edge(a.iss, a.log, |a.log|))
    ensures var o := SendFIN(a.ep);
            && o.Done? && o.out == [p] && o.ep.snd.pkts == a.ep.snd.pkts + [p]
            && o.ep == a.ep.(snd := o.ep.snd, state := StateOnSendFIN(a.ep.state), timer := true)
            && WindowOk(a.iss, a.log + [p], o.ep.snd)
    ensures LogOk(a.iss, a.log + [p])
    ensures Bytes(a.log + [p]) == Bytes(a.log)
  {
    LogBytes(a.iss, a.log);
    WindowValid(a.iss, a.log, a.ep.snd);
    var w := a.ep.snd.(capacity := Wrap(a.ep.snd.size + 1));
    RegisterNext(a.iss, a.log, w, p);
    KindsGrow(a.iss, a.log, p);
    assert Bytes(a.log) + [] == Bytes(a.log);
  }

  lemma FinSendSide(a: Node)
    requires SendSide(a) && CanSend(a) && a.ep.sendBuf == []
    requires a.ep.state == ESTABLISHED || a.ep.state == CLOSE_WAIT
    ensures var p := MakeFinPacket(Edge(a.iss, a.log, |a.log|));
            var o := SendFIN(a.ep);
            && o.Done? && o.out == [p] && o.ep.snd.pkts == a.ep.snd.pkts + [p]
            && o.ep == a.ep.(snd := o.ep.snd, state := StateOnSendFIN(a.ep.state), timer := true)
            && SendSide(Grown(a, o.ep, [p]))
            && Bytes(a.log + [p]) == Bytes(a.log)
  {
    var p := MakeFinPacket(Edge(a.iss, a.log, |a.log|));
    FinEffect(a, p);
    GrownSendSide(a, SendFIN(a.ep).ep, p);
  }

  lemma FinishPair(a: Node, b: Node, mab: nat, mba: nat)
    requires Pair(a, b, mab, mba) && CanSend(a) && a.ep.sendBuf == []
    requires a.ep.state == ESTABLISHED || a.ep.state == CLOSE_WAIT
    ensures var o := SendFIN(a.ep);
            o.Done? && Pair(Grown(a, o.ep, o.out), b, mab, mba)
  {
    FinSendSide(a);
    var o := SendFIN(a.ep);
    PairRegister(a, b, mab, mba, o.out[0], Grown(a, o.ep, o.out));
  }

  ghost predicate Opening(p: Packet, iss: nat) {
    p.sync && !p.fin && p.size == 1 && p.payload == [] && p.seqNum == iss
  }

  /** The SYN of the client or the SYN-ACK of the server opens the log. */
  lemma OpenEffect(a: Node, p: Packet)
    requires SendSide(a) && a.log == [] && Opening(p, a.iss)
    ensures var r := SW.SendPacket(a.ep.snd, p);
            && r.Sent? && r.win.pkts == [p] && r.win.size == 1
            && WindowOk(a.iss, a.log + [p], r.win)
    ensures LogOk(a.iss, a.log + [p]) && Bytes(a.log + [p]) == []
  {
    RegisterNext(a.iss, a.log, a.ep.snd, p);
    OpenLog(a.iss, a.log, p);
  }

  lemma OpenLog(iss: nat, log: seq<Packet>, p: Packet)
    requires LogOk(iss, log) && log == [] && Opening(p, iss) && SeqLog(iss, log + [p])
    ensures LogOk(iss, log + [p]) && Bytes(log + [p]) == []
  {
    KindsGrow(iss, log, p);
    assert [] + [p] == [p];
  }

  lemma OpenSendSide(a: Node, p: Packet, state: TcpState, e: Endpoint)
    requires SendSide(a) && a.log == [] && Opening(p, a.iss) && Handshaking(state)
    requires SW.SendPacket(a.ep.snd, p).Sent?
    requires e == a.ep.(snd := SW.SendPacket(a.ep.snd, p).win, state := state, timer := true)
    ensures SendSide(Grown(a, e, [p])) && e.snd.pkts == [p] && e.snd.size == 1
    ensures Bytes(a.log + [p]) == []
  {
    OpenEffect(a, p);
    OpenState(state, a.ep.sendBuf, a.log + [p]);
    GrownSendSide(a, e, p);
  }

  lemma OpenState(state: TcpState, sendBuf: seq<byte>, log: seq<Packet>)
    requires |log| == 1 && !log[0].fin && Handshaking(state)
    ensures StateOk(state, false, true, sendBuf, 1, log)
  {
  }

  lemma OpenPair(a: Node, b: Node, mab: nat, mba: nat, p: Packet, state: TcpState)
    requires Pair(a, b, mab, mba) && a.log == [] && Opening(p, a.iss) && Handshaking(state)
    ensures var r := SW.SendPacket(a.ep.snd, p);
            && r.Sent? && r.win.pkts == [p] && r.win.size == 1
            && Pair(Grown(a, a.ep.(snd := r.win, state := state, timer := true), [p]), b, mab, mba)
  {
    OpenEffect(a, p);
    var e := a.ep.(snd := SW.SendPacket(a.ep.snd, p).win, state := state, timer := true);
    OpenSendSide(a, p, state, e);
    PairRegister(a, b, mab, mba, p, Grown(a, e, [p]));
  }
}
