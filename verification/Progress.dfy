/** Loss-free rounds of timeout, delivery and returning acknowledgement. */
module Progress {
  import opened Packets
  import opened Endpoints
  import opened Logs
  import opened Network
  import opened Invariants
  import opened PairSteps
  import opened DeliverSteps
  import opened Delivery
  import opened Safety
  import SW = SendWindows

  // ---------------------------------------------------------------------------
  // Runs

  /** The steps lead from `sys` to `sys'`; sealed like the invariant. */
  ghost predicate Leads(sys: System, steps: seq<Step>, sys': System) {
    forall k: nat :: Unseal(k) ==> IsRun(sys, steps) && Same(After(sys, steps), sys')
  }

  lemma LeadsIs(sys: System, steps: seq<Step>, sys': System)
    ensures Leads(sys, steps, sys') <==> IsRun(sys, steps) && Same(After(sys, steps), sys')
  {
    assert Unseal(0);
  }

  lemma LeadsNowhere(sys: System)
    ensures Leads(sys, [], sys)
  {
    LeadsIs(sys, [], sys);
  }

  lemma LeadsCons(sys: System, step: Step, sys1: System, rest: seq<Step>, sys2: System)
    requires Enabled(sys, step) && Same(Apply(sys, step), sys1) && Leads(sys1, rest, sys2)
    ensures Leads(sys, [step] + rest, sys2)
  {
    LeadsIs(sys1, rest, sys2);
    assert ([step] + rest)[1..] == rest;
    LeadsIs(sys, [step] + rest, sys2);
  }

  lemma LeadsFirst(sys: System, steps: seq<Step>, sys': System)
    requires Leads(sys, steps, sys') && steps != []
    ensures Enabled(sys, steps[0]) && Leads(Apply(sys, steps[0]), steps[1..], sys')
  {
    LeadsIs(sys, steps, sys');
    LeadsIs(Apply(sys, steps[0]), steps[1..], sys');
  }

  lemma {:induction false} LeadsAppend(sys: System, a: seq<Step>, sys1: System, b: seq<Step>, sys2: System)
    requires Leads(sys, a, sys1) && Leads(sys1, b, sys2)
    ensures Leads(sys, a + b, sys2)
    decreases |a|
  {
    if a == [] {
      LeadsIs(sys, a, sys1);
      assert a + b == b;
    } else {
      LeadsFirst(sys, a, sys1);
      LeadsAppend(Apply(sys, a[0]), a[1..], sys1, b, sys2);
      LeadsCons(sys, a[0], Apply(sys, a[0]), a[1..] + b, sys2);
      assert [a[0]] + (a[1..] + b) == a + b;
    }
  }

  // ---------------------------------------------------------------------------
  // One round between two nodes

  /** Nothing is in flight and both sides are up. */
  ghost predicate Quiescent(a: Node, b: Node) {
    a.out == [] && b.out == [] && !a.ep.shutdown && !b.ep.shutdown
  }

  /** The timeout puts the base packet in the empty channel. */
  function AfterTimeout(a: Node): Node
    requires a.ep.snd.pkts != []
  {
    a.(ep := a.ep.(snd := SW.MarkResent(a.ep.snd)), out := [a.ep.snd.pkts[0]])
  }

  lemma TimeoutRound(x: Side, a: Node, b: Node, live: bool, mc: nat, ms: nat)
    requires Sealed(x, a, b, live, mc, ms) && Quiescent(a, b) && a.ep.snd.pkts != []
    ensures Sealed(x, AfterTimeout(a), b, live, mc, ms)
  {
    assert a.out + [a.ep.snd.pkts[0]] == [a.ep.snd.pkts[0]];
    TimeoutView(x, a, b, live, mc, ms, AfterTimeout(a));
  }

  /** The base packet of a connected node: data or FIN, at or below the peer's
      receive base. */
  lemma BaseFacts(x: Side, a: Node, b: Node, live: bool, mc: nat, ms: nat)
    requires Sealed(x, a, b, live, mc, ms) && a.ep.snd.pkts != [] && !Handshaking(a.ep.state)
    ensures var p := a.ep.snd.pkts[0];
            && p.size > 0 && !p.sync && p.seqNum == a.ep.snd.base <= b.ep.rcv.base
            && (KindOf(p).Data? || KindOf(p).Fin?)
    ensures live
  {
    SealedView(x, a, b, live, mc, ms);
    var n := Acked(a);
    BaseNotSync(a);
    assert Same(a.ep.snd.pkts[0], a.log[n]);
    assert KindOk(a.log[n], n, |a.log|);
    EdgeOrder(a.iss, a.log, n, |a.log|);
    if n < Fwd(x, mc, ms) { EdgeOrder(a.iss, a.log, n, Fwd(x, mc, ms)); }
  }

  /** The peer takes the base packet; its answer is above the send base. */
  lemma DeliverRound(y: Side, b: Node, a: Node, live: bool, mc: nat, ms: nat, o: Outcome)
    returns (mc': nat, ms': nat)
    requires Sealed(y, b, a, live, mc, ms) && b.out == [] && !b.ep.shutdown
    requires |a.out| == 1 && a.out[0].size > 0 && !a.out[0].sync
    requires KindOf(a.out[0]).Data? || KindOf(a.out[0]).Fin?
    requires a.out[0].seqNum == a.ep.snd.base <= b.ep.rcv.base
    requires Same(o, Handler(KindOf(a.out[0]), b.ep, a.out[0]))
    ensures o.Done? && o.out == [AckOf(o.ep, o.ep.rcv.base)] && !o.ep.shutdown
    ensures Same(NodeAfter(b, o.ep, o.out), b.(ep := o.ep, out := o.out)) && o.ep.snd == b.ep.snd
    ensures Sealed(y, b.(ep := o.ep, out := o.out), Popped(a), live, mc', ms')
    ensures a.ep.snd.base < o.ep.rcv.base
  {
    var state := if KindOf(a.out[0]).Fin? then StateOnFIN(b.ep.state) else b.ep.state;
    assert Same(b.ep, b.ep.(state := b.ep.state));
    var m' := DataView(y, b, a, live, mc, ms, state, o);
    mc', ms' := if y.Client? then m' else mc, if y.Client? then ms else m';
    assert b.out + o.out == o.out;
    NewBaseAbove(y, b, a, live, mc, ms, b.(ep := o.ep, out := o.out), mc', ms');
  }

  /** If more was accepted, or more than the send base already was, the receive
      base lies above the send base. */
  lemma NewBaseAbove(y: Side, b: Node, a: Node, live: bool, mc: nat, ms: nat, b': Node, mc': nat, ms': nat)
    requires Sealed(y, b, a, live, mc, ms) && a.out != [] && Sealed(y, b', Popped(a), live, mc', ms')
    requires Bwd(y, mc, ms) <= Bwd(y, mc', ms')
    requires a.ep.snd.base == b.ep.rcv.base ==> Bwd(y, mc, ms) < Bwd(y, mc', ms')
    requires a.ep.snd.base <= b.ep.rcv.base
    ensures a.ep.snd.base < b'.ep.rcv.base
  {
    SealedBase(y, b, a, live, mc, ms);
    SealedBase(y, b', Popped(a), live, mc', ms');
    if Bwd(y, mc, ms) < Bwd(y, mc', ms') {
      EdgeOrder(a.iss, a.log, Bwd(y, mc, ms), Bwd(y, mc', ms'));
    }
  }

  /** Where the receive base stands in the peer's log. */
  lemma SealedBase(y: Side, b: Node, a: Node, live: bool, mc: nat, ms: nat)
    requires Sealed(y, b, a, live, mc, ms)
    ensures SeqLog(a.iss, a.log) && Bwd(y, mc, ms) <= |a.log|
    ensures b.ep.rcv.base == Edge(a.iss, a.log, Bwd(y, mc, ms))
  {
    SealedView(y, b, a, live, mc, ms);
  }

  /** The sender takes the acknowledgement: its window shrinks, its base moves. */
  lemma AckRound(x: Side, a: Node, b: Node, live: bool, mc: nat, ms: nat, o: Outcome)
    requires Sealed(x, a, b, live, mc, ms) && Present(x, live) && a.out == []
    requires |b.out| == 1 && PureAck(b.out[0]) && b.out[0].ackNum > a.ep.snd.base
    requires Same(o, HandleACK(a.ep, b.out[0]))
    ensures o.Done? && Same(NodeAfter(a, o.ep, o.out), a.(ep := o.ep))
    ensures Sealed(x, a.(ep := o.ep), b.(out := []), live, mc, ms)
    ensures |o.ep.snd.pkts| < |a.ep.snd.pkts| && o.ep.snd.base > a.ep.snd.base
    ensures o.ep.state == StateOnACK(a.ep.state, o.ep.snd.pkts == [])
    ensures o.ep.shutdown ==> a.ep.shutdown || o.ep.snd.pkts == []
  {
    AckView(x, a, b, live, mc, ms, o);
    assert a.out + o.out == [];
    assert b.out[1..] == [];
    assert Same(a.(ep := o.ep, out := a.out + o.out), a.(ep := o.ep));
    assert Same(Popped(b), b.(out := []));
  }

  // ---------------------------------------------------------------------------
  // One round of the system

  lemma TimeoutStep(sys: System, x: Side)
    requires !sys.aborted && Exists(sys, x) && Self(sys, x).ep.timer && !Self(sys, x).ep.shutdown
    requires Self(sys, x).ep.snd.pkts != [] && Self(sys, x).out == []
    ensures Enabled(sys, Timeout(x))
    ensures var sys' := Apply(sys, Timeout(x));
            && Same(Self(sys', x), AfterTimeout(Self(sys, x))) && Same(Self(sys', Peer(x)), Self(sys, Peer(x)))
            && sys'.live == sys.live && sys'.aborted == sys.aborted
  {
    var a := Self(sys, x);
    var o := TimeoutReTransmitter(a.ep);
    NothingRegistered(a, o.ep, o.out);
    assert a.out + o.out == o.out;
  }

  lemma DeliverStep(sys: System, x: Side, o: Outcome)
    requires !sys.aborted && Exists(sys, x) && Self(sys, Peer(x)).out != []
    requires Same(o, Handler(KindOf(Self(sys, Peer(x)).out[0]), Self(sys, x).ep, Self(sys, Peer(x)).out[0])) && o.Done?
    ensures Enabled(sys, Deliver(x))
    ensures var sys' := Apply(sys, Deliver(x));
            && Same(Self(sys', x), NodeAfter(Self(sys, x), o.ep, o.out))
            && Same(Self(sys', Peer(x)), Popped(Self(sys, Peer(x))))
            && sys'.live == sys.live && sys'.aborted == sys.aborted
  {
    DispatchIs(Self(sys, x).ep, Self(sys, Peer(x)).out[0]);
    assert Same(Apply(sys, Deliver(x)), DoDeliver(sys, x, o));
    assert Without(Self(sys, Peer(x)).out, 0) == Self(sys, Peer(x)).out[1..];
  }

  /** One loss-free exchange: the timer of `x` fires, its peer receives the base
      packet, `x` receives the answer. */
  function Round(x: Side): seq<Step> {
    [Timeout(x), Deliver(Peer(x)), Deliver(x)]
  }

  lemma LeadsThree(sys: System, s1: Step, sys1: System, s2: Step, sys2: System, s3: Step, sys3: System)
    requires Enabled(sys, s1) && Same(Apply(sys, s1), sys1)
    requires Enabled(sys1, s2) && Same(Apply(sys1, s2), sys2)
    requires Enabled(sys2, s3) && Same(Apply(sys2, s3), sys3)
    ensures Leads(sys, [s1, s2, s3], sys3)
  {
    LeadsNowhere(sys3);
    LeadsCons(sys2, s3, sys3, [], sys3);
    assert [s3] + [] == [s3];
    LeadsCons(sys1, s2, sys2, [s3], sys3);
    assert [s2] + [s3] == [s2, s3];
    LeadsCons(sys, s1, sys1, [s2, s3], sys3);
    assert [s1] + [s2, s3] == [s1, s2, s3];
  }

  /** A state from which rounds of side `x` can be run. */
  ghost predicate Ready(sys: System, x: Side) {
    && Inv(sys) && sys.live && Quiescent(Self(sys, x), Self(sys, Peer(x)))
    && !Handshaking(Self(sys, x).ep.state)
  }

  /** After the first two steps of a round the acknowledgement is on its way. */
  lemma HalfRound(sys: System, x: Side, mc: nat, ms: nat)
    returns (sys1: System, sys2: System, mc': nat, ms': nat)
    requires InvAt(sys, mc, ms) && Ready(sys, x) && Self(sys, x).ep.snd.pkts != []
    ensures Enabled(sys, Timeout(x)) && Same(Apply(sys, Timeout(x)), sys1)
    ensures Enabled(sys1, Deliver(Peer(x))) && Same(Apply(sys1, Deliver(Peer(x))), sys2)
    ensures InvAt(sys2, mc', ms') && sys2.live
    ensures var a, b := Self(sys2, x), Self(sys2, Peer(x));
            && a.out == [] && |b.out| == 1 && PureAck(b.out[0]) && KindOf(b.out[0]).Ack?
            && b.out[0].ackNum > a.ep.snd.base
            && a.ep.snd.pkts == Self(sys, x).ep.snd.pkts && a.ep.snd.base == Self(sys, x).ep.snd.base
            && a.ep.state == Self(sys, x).ep.state && !a.ep.shutdown && !b.ep.shutdown
  {
    var a, b := Self(sys, x), Self(sys, Peer(x));
    InvFrom(sys, x, mc, ms);
    TimerMeansUnacked(x, a, b, sys.live, mc, ms);
    BaseFacts(x, a, b, sys.live, mc, ms);
    TimeoutStep(sys, x);
    sys1 := Apply(sys, Timeout(x));
    var a1 := AfterTimeout(a);
    TimeoutRound(x, a, b, sys.live, mc, ms);
    InvFrom(sys1, x, mc, ms);
    InvFrom(sys1, Peer(x), mc, ms);
    var o := Handler(KindOf(a1.out[0]), b.ep, a1.out[0]);
    mc', ms' := DeliverRound(Peer(x), b, a1, sys.live, mc, ms, o);
    DeliverStep(sys1, Peer(x), o);
    sys2 := Apply(sys1, Deliver(Peer(x)));
    assert a1.out[1..] == [];
    InvFrom(sys2, Peer(x), mc', ms');
  }

  /** A round of a connected side, as a step between systems. */
  lemma RoundLeads(sys: System, x: Side) returns (sys3: System)
    requires Ready(sys, x) && Self(sys, x).ep.snd.pkts != []
    ensures Leads(sys, Round(x), sys3)
    ensures Self(sys, x).ep.snd.base < Self(sys3, x).ep.snd.base
    ensures |Self(sys3, x).ep.snd.pkts| < |Self(sys, x).ep.snd.pkts|
    ensures Inv(sys3) && (Self(sys3, x).ep.snd.pkts != [] ==> Ready(sys3, x))
  {
    var mc, ms :| InvAt(sys, mc, ms);
    var sys1, sys2, mc', ms' := HalfRound(sys, x, mc, ms);
    sys3 := OtherHalf(sys2, x, mc', ms');
    LeadsThree(sys, Timeout(x), sys1, Deliver(Peer(x)), sys2, Deliver(x), sys3);
  }

  /** The last step of a round: the acknowledgement comes back. */
  lemma OtherHalf(sys: System, x: Side, mc: nat, ms: nat) returns (sys': System)
    requires InvAt(sys, mc, ms) && sys.live && !Handshaking(Self(sys, x).ep.state)
    requires var a, b := Self(sys, x), Self(sys, Peer(x));
             && a.out == [] && |b.out| == 1 && PureAck(b.out[0]) && KindOf(b.out[0]).Ack?
             && b.out[0].ackNum > a.ep.snd.base && !a.ep.shutdown && !b.ep.shutdown
    ensures Enabled(sys, Deliver(x)) && Same(Apply(sys, Deliver(x)), sys')
    ensures Self(sys, x).ep.snd.base < Self(sys', x).ep.snd.base
    ensures |Self(sys', x).ep.snd.pkts| < |Self(sys, x).ep.snd.pkts|
    ensures Inv(sys') && (Self(sys', x).ep.snd.pkts != [] ==> Ready(sys', x))
  {
    var a, b := Self(sys, x), Self(sys, Peer(x));
    InvFrom(sys, x, mc, ms);
    var o := HandleACK(a.ep, b.out[0]);
    AckRound(x, a, b, true, mc, ms, o);
    DeliverStep(sys, x, o);
    sys' := Apply(sys, Deliver(x));
    assert b.out[1..] == [];
    InvFrom(sys', x, mc, ms);
  }

  function Rounds(x: Side, k: nat): seq<Step> {
    if k == 0 then [] else Round(x) + Rounds(x, k - 1)
  }

  lemma {:induction false} RoundsLead(sys: System, x: Side) returns (k: nat, sys': System)
    requires Inv(sys) && (Self(sys, x).ep.snd.pkts != [] ==> Ready(sys, x))
    ensures k <= |Self(sys, x).ep.snd.pkts|
    ensures Leads(sys, Rounds(x, k), sys') && Self(sys', x).ep.snd.pkts == []
    decreases |Self(sys, x).ep.snd.pkts|
  {
    if Self(sys, x).ep.snd.pkts == [] {
      k, sys' := 0, sys;
      LeadsNowhere(sys);
    } else {
      var sys3 := RoundLeads(sys, x);
      var n;
      n, sys' := RoundsLead(sys3, x);
      k := n + 1;
      LeadsMore(sys, x, sys3, n, sys', Rounds(x, k));
    }
  }

  lemma LeadsMore(sys: System, x: Side, sys1: System, n: nat, sys2: System, steps: seq<Step>)
    requires Leads(sys, Round(x), sys1) && Leads(sys1, Rounds(x, n), sys2) && Same(steps, Rounds(x, n + 1))
    ensures Leads(sys, steps, sys2)
  {
    LeadsAppend(sys, Round(x), sys1, Rounds(x, n), sys2);
    assert Same(steps, Round(x) + Rounds(x, n));
  }

  // ---------------------------------------------------------------------------
  // The handshake

  lemma OpeningFacts(x: Side, a: Node, b: Node, live: bool, mc: nat, ms: nat)
    requires Sealed(x, a, b, live, mc, ms) && Handshaking(a.ep.state)
    ensures |a.ep.snd.pkts| == 1 && a.ep.timer && a.ep.snd.base == a.iss
    ensures if x.Client? then KindOf(a.ep.snd.pkts[0]).Syn? && a.ep.state == SYN_SENT
            else KindOf(a.ep.snd.pkts[0]).SynAck? && live
  {
    SealedView(x, a, b, live, mc, ms);
    OpeningIs(a, a.ep.snd.pkts[0]);
    if x.Client? { assert SynOk(a.log[0], a.iss); } else { assert SynAckOk(a.log[0], b.iss + 1, Room(a)); }
  }

  /** The server answers a SYN with its SYN-ACK. */
  lemma SynAnswered(s: Node, c: Node, mc: nat, ms: nat, o: Outcome)
    requires Sealed(Server, s, c, true, mc, ms) && |c.out| > 0 && KindOf(c.out[0]).Syn? && s.out == []
    requires Same(o, HandleSYN(s.ep, c.out[0]))
    ensures o.Done? && |o.out| == 1 && KindOf(o.out[0]).SynAck?
    ensures var s' := NodeAfter(s, o.ep, o.out);
            s'.out == o.out && Sealed(Server, s', Popped(c), true, mc, 1) && s'.ep.shutdown == s.ep.shutdown
  {
    if s.log == [] {
      FirstSynView(s, c, mc, ms, o);
    } else {
      RepeatedSynView(s, c, mc, ms, o);
    }
    assert s.out + o.out == o.out;
  }

  /** The client answers a SYN-ACK with an acknowledgement of it. */
  lemma SynAckAnswered(c: Node, s: Node, live: bool, mc: nat, ms: nat, o: Outcome)
    requires Sealed(Client, c, s, live, mc, ms) && |s.out| > 0 && KindOf(s.out[0]).SynAck?
    requires Same(o, HandleACKSYN(c.ep, s.out[0]))
    ensures o.Done? && o.out == [AckOf(o.ep, s.iss + 1)]
    ensures var c' := NodeAfter(c, o.ep, o.out);
            c'.out == c.out + o.out && Sealed(Client, c', Popped(s), live, 1, ms)
    ensures c.ep.state == SYN_SENT ==> o.ep.state == ESTABLISHED && o.ep.snd.pkts == []
  {
    if c.ep.state == SYN_SENT {
      FirstSynAckView(c, s, live, mc, ms, o);
    } else {
      RepeatedSynAckView(c, s, live, mc, ms, o);
    }
  }

  /** A SYN is under way to a server that is there: it is answered, and the answer
      establishes the client's side. */
  lemma SynExchange(sys: System, mc: nat, ms: nat) returns (sys2: System, sys3: System)
    requires InvAt(sys, mc, ms) && sys.live && sys.c.ep.state == SYN_SENT && sys.s.out == []
    requires |sys.c.out| > 0 && KindOf(sys.c.out[0]).Syn?
    ensures Enabled(sys, Deliver(Server)) && Same(Apply(sys, Deliver(Server)), sys2)
    ensures Enabled(sys2, Deliver(Client)) && Same(Apply(sys2, Deliver(Client)), sys3)
    ensures sys3.c.ep.state == ESTABLISHED && sys3.c.ep.snd.pkts == [] && sys3.c.ep.snd.base > sys.c.iss
  {
    var c, s := sys.c, sys.s;
    SealedSwap(c, s, true, mc, ms);
    var o1 := HandleSYN(s.ep, c.out[0]);
    SynAnswered(s, c, mc, ms, o1);
    DeliverStep(sys, Server, o1);
    sys2 := Apply(sys, Deliver(Server));
    var s2 := NodeAfter(s, o1.ep, o1.out);
    SealedSwap(Popped(c), s2, true, mc, 1);
    var o2 := HandleACKSYN(Popped(c).ep, s2.out[0]);
    SynAckAnswered(Popped(c), s2, true, mc, 1, o2);
    DeliverStep(sys2, Client, o2);
    sys3 := Apply(sys2, Deliver(Client));
    EmptyIsAboveStart(Client, NodeAfter(Popped(c), o2.ep, o2.out), Popped(s2), true, 1, 1);
  }

  lemma EmptyIsAboveStart(x: Side, a: Node, b: Node, live: bool, mc: nat, ms: nat)
    requires Sealed(x, a, b, live, mc, ms) && a.ep.snd.pkts == [] && a.ep.state == ESTABLISHED
    ensures a.ep.snd.base > a.iss
  {
    SealedView(x, a, b, live, mc, ms);
    BaseAboveStart(a);
  }

  lemma BaseAboveStart(a: Node)
    requires SendSide(a) && a.log != [] && a.ep.snd.pkts == []
    ensures a.ep.snd.base > a.iss
  {
    EdgeOrder(a.iss, a.log, 0, |a.log|);
  }

  /** The client's timer sends the SYN again. */
  lemma SynAgain(sys: System, mc: nat, ms: nat) returns (sys1: System)
    requires InvAt(sys, mc, ms) && Quiescent(sys.c, sys.s) && sys.c.ep.state == SYN_SENT
    ensures Enabled(sys, Timeout(Client)) && Same(Apply(sys, Timeout(Client)), sys1)
    ensures InvAt(sys1, mc, ms) && sys1.live == sys.live && sys1.c.ep.state == SYN_SENT && sys1.c.iss == sys.c.iss
    ensures |sys1.c.out| == 1 && KindOf(sys1.c.out[0]).Syn? && sys1.s.out == [] && sys.c.ep.snd.base == sys.c.iss
    ensures |sys.c.ep.snd.pkts| == 1
  {
    OpeningFacts(Client, sys.c, sys.s, sys.live, mc, ms);
    TimeoutStep(sys, Client);
    sys1 := Apply(sys, Timeout(Client));
    TimeoutRound(Client, sys.c, sys.s, sys.live, mc, ms);
  }

  lemma SynLeads(sys: System, mc: nat, ms: nat) returns (sys3: System)
    requires InvAt(sys, mc, ms) && sys.live && Quiescent(sys.c, sys.s) && sys.c.ep.state == SYN_SENT
    ensures Leads(sys, Round(Client), sys3) && sys3.c.ep.state == ESTABLISHED && sys3.c.ep.snd.pkts == []
    ensures |sys.c.ep.snd.pkts| == 1 && sys.c.ep.snd.base < sys3.c.ep.snd.base
  {
    var sys1 := SynAgain(sys, mc, ms);
    var sys2;
    sys2, sys3 := SynExchange(sys1, mc, ms);
    LeadsThree(sys, Timeout(Client), sys1, Deliver(Server), sys2, Deliver(Client), sys3);
  }

  /** The round that finds no server yet: its host creates one. */
  const OpeningRound: seq<Step> := [Timeout(Client), Create, Deliver(Server), Deliver(Client)]

  lemma OpenLeads(sys: System, mc: nat, ms: nat) returns (sys4: System)
    requires InvAt(sys, mc, ms) && !sys.live && Quiescent(sys.c, sys.s) && sys.c.ep.state == SYN_SENT
    ensures Leads(sys, OpeningRound, sys4) && sys4.c.ep.state == ESTABLISHED && sys4.c.ep.snd.pkts == []
    ensures |sys.c.ep.snd.pkts| == 1 && sys.c.ep.snd.base < sys4.c.ep.snd.base
  {
    var sys1 := SynAgain(sys, mc, ms);
    var sys2 := CreateStep(sys1, mc, ms);
    var sys3;
    sys3, sys4 := SynExchange(sys2, mc, ms);
    LeadsThree(sys1, Create, sys2, Deliver(Server), sys3, Deliver(Client), sys4);
    LeadsCons(sys, Timeout(Client), sys1, [Create, Deliver(Server), Deliver(Client)], sys4);
    assert [Timeout(Client)] + [Create, Deliver(Server), Deliver(Client)] == OpeningRound;
  }

  lemma CreateStep(sys: System, mc: nat, ms: nat) returns (sys': System)
    requires InvAt(sys, mc, ms) && !sys.live && |sys.c.out| > 0 && KindOf(sys.c.out[0]).Syn?
    ensures Enabled(sys, Create) && Same(Apply(sys, Create), sys') && InvAt(sys', mc, ms) && sys'.live
    ensures sys'.c.ep == sys.c.ep && sys'.c.iss == sys.c.iss && sys'.s.out == sys.s.out
    ensures |sys'.c.out| > 0 && sys'.c.out[0] == sys.c.out[0]
  {
    KeepCreate(sys, mc, ms);
    sys' := Apply(sys, Create);
  }

  /** After the first two steps of the server's round the client's answer is on
      its way. */
  lemma SynAckHalf(sys: System, mc: nat, ms: nat) returns (sys1: System, sys2: System)
    requires InvAt(sys, mc, ms) && sys.live && Quiescent(sys.c, sys.s) && sys.s.ep.state == SYN_RCVD
    ensures Enabled(sys, Timeout(Server)) && Same(Apply(sys, Timeout(Server)), sys1)
    ensures Enabled(sys1, Deliver(Client)) && Same(Apply(sys1, Deliver(Client)), sys2)
    ensures Sealed(Server, sys2.s, sys2.c, true, 1, ms) && sys2.live && !sys2.aborted
    ensures sys2.s.out == [] && |sys2.c.out| == 1 && PureAck(sys2.c.out[0]) && KindOf(sys2.c.out[0]).Ack?
    ensures sys2.c.out[0].ackNum > sys2.s.ep.snd.base
    ensures sys2.s.ep.state == SYN_RCVD && |sys2.s.ep.snd.pkts| == 1
  {
    InvFrom(sys, Server, mc, ms);
    var s, c := sys.s, sys.c;
    OpeningFacts(Server, s, c, true, mc, ms);
    TimeoutStep(sys, Server);
    sys1 := Apply(sys, Timeout(Server));
    var s1 := AfterTimeout(s);
    TimeoutRound(Server, s, c, true, mc, ms);
    SealedSwap(c, s1, true, mc, ms);
    var o1 := HandleACKSYN(c.ep, s1.out[0]);
    SynAckAnswered(c, s1, true, mc, ms, o1);
    DeliverStep(sys1, Client, o1);
    sys2 := Apply(sys1, Deliver(Client));
    assert c.out + o1.out == o1.out && s1.out[1..] == [];
    SealedSwap(sys2.c, sys2.s, true, 1, ms);
  }

  lemma SynAckLeads(sys: System, mc: nat, ms: nat) returns (sys3: System)
    requires InvAt(sys, mc, ms) && sys.live && Quiescent(sys.c, sys.s) && sys.s.ep.state == SYN_RCVD
    ensures Leads(sys, Round(Server), sys3) && sys3.s.ep.state == ESTABLISHED && sys3.s.ep.snd.pkts == []
    ensures |sys.s.ep.snd.pkts| == 1 && sys.s.ep.snd.base < sys3.s.ep.snd.base
  {
    var sys1, sys2 := SynAckHalf(sys, mc, ms);
    var o := HandleACK(sys2.s.ep, sys2.c.out[0]);
    AckRound(Server, sys2.s, sys2.c, true, 1, ms, o);
    DeliverStep(sys2, Server, o);
    sys3 := Apply(sys2, Deliver(Server));
    LeadsThree(sys, Timeout(Server), sys1, Deliver(Client), sys2, Deliver(Server), sys3);
  }

  // ---------------------------------------------------------------------------
  // From any drained state

  /** A loss-free round of side `x`; without a server the first one creates it. */
  function RoundFrom(live: bool, x: Side): seq<Step> {
    if live then Round(x) else OpeningRound
  }

  /** `k` loss-free rounds. */
  function RoundsFrom(live: bool, x: Side, k: nat): seq<Step> {
    if k == 0 then [] else RoundFrom(live, x) + Rounds(x, k - 1)
  }

  /** A side in its handshake: a round acknowledges its only packet. */
  lemma HandshakeLeads(sys: System, x: Side) returns (sys': System)
    requires Inv(sys) && Quiescent(Self(sys, x), Self(sys, Peer(x))) && Handshaking(Self(sys, x).ep.state)
    ensures Leads(sys, RoundFrom(sys.live, x), sys')
    ensures |Self(sys, x).ep.snd.pkts| == 1 && Self(sys', x).ep.snd.pkts == []
    ensures Self(sys, x).ep.snd.base < Self(sys', x).ep.snd.base && Self(sys', x).ep.state == ESTABLISHED
  {
    var mc, ms :| InvAt(sys, mc, ms);
    InvFrom(sys, x, mc, ms);
    OpeningFacts(x, Self(sys, x), Self(sys, Peer(x)), sys.live, mc, ms);
    if x.Server? {
      HandshakeSide(sys, mc, ms);
      sys' := SynAckLeads(sys, mc, ms);
    } else if sys.live {
      sys' := SynLeads(sys, mc, ms);
    } else {
      sys' := OpenLeads(sys, mc, ms);
    }
  }

  lemma HandshakeSide(sys: System, mc: nat, ms: nat)
    requires InvAt(sys, mc, ms) && Handshaking(sys.s.ep.state)
    ensures sys.s.ep.state == SYN_RCVD
  {
    SealedView(Client, sys.c, sys.s, sys.live, mc, ms);
  }

  lemma AnyRoundLeads(sys: System, x: Side) returns (sys': System)
    requires Inv(sys) && Quiescent(Self(sys, x), Self(sys, Peer(x))) && Self(sys, x).ep.snd.pkts != []
    ensures Leads(sys, RoundFrom(sys.live, x), sys')
    ensures Self(sys, x).ep.snd.base < Self(sys', x).ep.snd.base
    ensures |Self(sys', x).ep.snd.pkts| < |Self(sys, x).ep.snd.pkts|
    ensures Inv(sys') && (Self(sys', x).ep.snd.pkts != [] ==> Ready(sys', x))
  {
    if Handshaking(Self(sys, x).ep.state) {
      sys' := HandshakeLeads(sys, x);
      LeadsKeeps(sys, RoundFrom(sys.live, x), sys');
    } else {
      ConnectedIsLive(sys, x);
      sys' := RoundLeads(sys, x);
    }
  }

  lemma ConnectedIsLive(sys: System, x: Side)
    requires Inv(sys) && Self(sys, x).ep.snd.pkts != [] && !Handshaking(Self(sys, x).ep.state)
    ensures sys.live
  {
    var mc, ms :| InvAt(sys, mc, ms);
    InvFrom(sys, x, mc, ms);
    BaseFacts(x, Self(sys, x), Self(sys, Peer(x)), sys.live, mc, ms);
  }

  /** A run without a late read keeps the invariant. */
  lemma LeadsKeeps(sys: System, steps: seq<Step>, sys': System)
    requires Inv(sys) && Leads(sys, steps, sys') && NoReads(steps)
    ensures Inv(sys')
  {
    LeadsIs(sys, steps, sys');
    RunKeepsRunning(sys, steps);
  }

  predicate NoReads(steps: seq<Step>) {
    forall k :: 0 <= k < |steps| ==> !steps[k].Read?
  }

  lemma {:induction false} RunKeepsRunning(sys: System, steps: seq<Step>)
    requires Inv(sys) && IsRun(sys, steps) && NoReads(steps)
    ensures Inv(After(sys, steps))
    decreases |steps|
  {
    if steps != [] {
      StepKeepsInv(sys, steps[0]);
      assert Same(Alive(Apply(sys, steps[0])), Apply(sys, steps[0]));
      RunKeepsRunning(Apply(sys, steps[0]), steps[1..]);
    }
  }

  /** From any reachable state with unacknowledged packets and drained channels, in
      the handshake or after it, before or after the server exists, a loss-free
      round strictly advances the send base and shrinks the window. */
  lemma RoundAdvances(sys: System, x: Side)
    requires Reachable(sys) && !sys.aborted && Quiescent(Self(sys, x), Self(sys, Peer(x)))
    requires Self(sys, x).ep.snd.pkts != []
    ensures IsRun(sys, RoundFrom(sys.live, x))
    ensures var w, w' := Self(sys, x).ep.snd, Self(After(sys, RoundFrom(sys.live, x)), x).ep.snd;
            w.base < w'.base && |w'.pkts| < |w.pkts|
  {
    ReachableInv(sys);
    var sys' := AnyRoundLeads(sys, x);
    LeadsIs(sys, RoundFrom(sys.live, x), sys');
  }

  /** From any reachable state with drained channels finitely many loss-free rounds,
      no more than there are unacknowledged packets, empty the window. */
  lemma RoundsEmptyWindow(sys: System, x: Side) returns (k: nat)
    requires Reachable(sys) && !sys.aborted && Quiescent(Self(sys, x), Self(sys, Peer(x)))
    ensures k <= |Self(sys, x).ep.snd.pkts|
    ensures IsRun(sys, RoundsFrom(sys.live, x, k)) && Self(After(sys, RoundsFrom(sys.live, x, k)), x).ep.snd.pkts == []
  {
    ReachableInv(sys);
    var sys';
    k, sys' := RoundsFromLead(sys, x);
    LeadsIs(sys, RoundsFrom(sys.live, x, k), sys');
  }

  lemma RoundsFromLead(sys: System, x: Side) returns (k: nat, sys': System)
    requires Inv(sys) && Quiescent(Self(sys, x), Self(sys, Peer(x)))
    ensures k <= |Self(sys, x).ep.snd.pkts|
    ensures Leads(sys, RoundsFrom(sys.live, x, k), sys') && Self(sys', x).ep.snd.pkts == []
  {
    if Self(sys, x).ep.snd.pkts == [] {
      k, sys' := 0, sys;
      LeadsNowhere(sys);
    } else {
      var sys1 := AnyRoundLeads(sys, x);
      var n;
      n, sys' := RoundsLead(sys1, x);
      k := n + 1;
      FirstRoundThenMore(sys, x, sys1, n, sys', RoundsFrom(sys.live, x, k));
    }
  }

  lemma FirstRoundThenMore(sys: System, x: Side, sys1: System, n: nat, sys2: System, steps: seq<Step>)
    requires Leads(sys, RoundFrom(sys.live, x), sys1) && Leads(sys1, Rounds(x, n), sys2)
    requires Same(steps, RoundsFrom(sys.live, x, n + 1))
    ensures Leads(sys, steps, sys2)
  {
    LeadsAppend(sys, RoundFrom(sys.live, x), sys1, Rounds(x, n), sys2);
    assert Same(steps, RoundFrom(sys.live, x) + Rounds(x, n));
  }

  /** A round of a side in its handshake establishes it: of a client in SYN_SENT,
      whether or not a server exists, and of a server in SYN_RCVD, whether or not
      the client had seen its SYN-ACK. */
  lemma HandshakeRound(sys: System, x: Side)
    requires Reachable(sys) && !sys.aborted && Quiescent(Self(sys, x), Self(sys, Peer(x)))
    requires Handshaking(Self(sys, x).ep.state)
    ensures IsRun(sys, RoundFrom(sys.live, x))
    ensures var e := Self(After(sys, RoundFrom(sys.live, x)), x).ep; e.state == ESTABLISHED && e.snd.pkts == []
  {
    ReachableInv(sys);
    var sys' := HandshakeLeads(sys, x);
    LeadsIs(sys, RoundFrom(sys.live, x), sys');
  }
}
