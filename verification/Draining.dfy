/** Deliveries come to an end: a measure that every delivery makes smaller, fast
    retransmissions included and whatever the duplicate threshold has become. */
module Draining {
  import opened Packets
  import opened Endpoints
  import opened Logs
  import opened Network
  import opened Invariants
  import opened DeliverSteps
  import opened Delivery
  import opened Safety
  import opened Progress

  /** How much can still follow from the delivery of `p`, when the send bases of its
      sender and receiver are `from` and `to`. A base packet is answered by an
      acknowledgement that is new; any other may be answered by a duplicate, and a
      duplicate may bring a base packet. */
  function Weight(p: Packet, from: nat, to: nat): nat {
    match KindOf(p)
    case Syn => 8
    case SynAck => 7
    case Ack => if p.ackNum == to then 4 else 1
    case _ => if p.size > 0 && p.seqNum == from then 2 else 5
  }

  function Weigh(ch: seq<Packet>, from: nat, to: nat): nat {
    if ch == [] then 0 else Weight(ch[0], from, to) + Weigh(ch[1..], from, to)
  }

  lemma {:induction false} WeighAppend(ch: seq<Packet>, ps: seq<Packet>, from: nat, to: nat)
    ensures Weigh(ch + ps, from, to) == Weigh(ch, from, to) + Weigh(ps, from, to)
  {
    if ch == [] {
      assert ch + ps == ps;
    } else {
      assert (ch + ps)[1..] == ch[1..] + ps;
      WeighAppend(ch[1..], ps, from, to);
    }
  }

  /** What the delivery of the head of `b`'s channel to `a` did: something was
      acknowledged, or the server opened, or the answer weighs less. */
  ghost predicate Lighter(a: Node, b: Node, o: Outcome)
    requires b.out != []
  {
    && o.Done? && |o.out| <= 1
    && (|| |o.ep.snd.pkts| < |a.ep.snd.pkts|
        || (a.log == [] && a.ep.snd.pkts == [] && |o.ep.snd.pkts| == 1)
        || LighterAnswer(a, b, o))
  }

  ghost predicate LighterAnswer(a: Node, b: Node, o: Outcome)
    requires b.out != [] && o.Done?
  {
    && |o.ep.snd.pkts| == |a.ep.snd.pkts| && o.ep.snd.base == a.ep.snd.base
    && (o.out != [] ==>
          Weight(o.out[0], a.ep.snd.base, b.ep.snd.base) < Weight(b.out[0], b.ep.snd.base, a.ep.snd.base))
  }

  /** An acknowledgement never weighs more than four. */
  lemma AckLighter(a: Node, b: Node, o: Outcome)
    requires b.out != [] && o.Done? && o.ep.snd == a.ep.snd && |o.out| == 1 && KindOf(o.out[0]).Ack?
    requires Weight(b.out[0], b.ep.snd.base, a.ep.snd.base) >= 5
    ensures Lighter(a, b, o)
  {
  }

  lemma BaseBelow(x: Side, a: Node, b: Node, live: bool, mc: nat, ms: nat)
    requires Sealed(x, a, b, live, mc, ms)
    ensures b.ep.snd.base <= a.ep.rcv.base
  {
    SealedView(x, a, b, live, mc, ms);
    BaseAtOrBelow(b, a, Bwd(x, mc, ms));
  }

  lemma BaseAtOrBelow(b: Node, a: Node, m: nat)
    requires SendSide(b) && Direction(b, a, m)
    ensures b.ep.snd.base <= a.ep.rcv.base
  {
    if Acked(b) < m { EdgeOrder(b.iss, b.log, Acked(b), m); }
  }

  /** Data or FIN: a base packet gets an acknowledgement above the send base. */
  lemma DataLighter(x: Side, a: Node, b: Node, live: bool, mc: nat, ms: nat, state: TcpState, o: Outcome)
    requires Sealed(x, a, b, live, mc, ms)
    requires b.out != [] && b.out[0].size > 0 && (KindOf(b.out[0]).Data? || KindOf(b.out[0]).Fin?)
    requires state == a.ep.state || state == StateOnFIN(a.ep.state)
    requires o == ReceiveAndAck(a.ep.(state := state), b.out[0])
    ensures Lighter(a, b, o)
  {
    var m' := DataView(x, a, b, live, mc, ms, state, o);
    if b.out[0].seqNum == b.ep.snd.base {
      BaseBelow(x, a, b, live, mc, ms);
      var mc', ms' := if x.Client? then m' else mc, if x.Client? then ms else m';
      NewBaseAbove(x, a, b, live, mc, ms, a.(ep := o.ep, out := a.out + o.out), mc', ms');
    }
  }

  /** A duplicate acknowledgement leaves the window as it is and brings at most the
      base packet. */
  lemma DuplicateAck(x: Side, a: Node, b: Node, live: bool, mc: nat, ms: nat, o: Outcome)
    requires Sealed(x, a, b, live, mc, ms) && Present(x, live) && b.out != [] && PureAck(b.out[0])
    requires b.out[0].ackNum == a.ep.snd.base && o == HandleACK(a.ep, b.out[0])
    ensures o.Done? && o.ep.snd.pkts == a.ep.snd.pkts && o.ep.snd.base == a.ep.snd.base
    ensures !Handshaking(a.ep.state)
    ensures o.out == [] || (a.ep.snd.pkts != [] && o.out == [a.ep.snd.pkts[0]])
  {
    var e, o' := AckFacts(x, a, b, live, mc, ms);
    AckAboveStart(x, a, b, live, mc, ms);
  }

  lemma AckAboveStart(x: Side, a: Node, b: Node, live: bool, mc: nat, ms: nat)
    requires Sealed(x, a, b, live, mc, ms) && b.out != [] && PureAck(b.out[0])
    ensures a.ep.snd.base <= b.out[0].ackNum
    ensures b.out[0].ackNum == a.ep.snd.base ==> !Handshaking(a.ep.state)
  {
    SealedView(x, a, b, live, mc, ms);
    AckAtOrAbove(a, b, Fwd(x, mc, ms));
  }

  lemma AckAtOrAbove(a: Node, b: Node, m: nat)
    requires SendSide(a) && Direction(a, b, m) && b.out != [] && PureAck(b.out[0])
    ensures a.ep.snd.base <= b.out[0].ackNum
    ensures b.out[0].ackNum == a.ep.snd.base ==> !Handshaking(a.ep.state)
  {
    var k := AckHead(a, b, m);
    if Acked(a) < k { EdgeOrder(a.iss, a.log, Acked(a), k); }
  }

  lemma AckedLighter(x: Side, a: Node, b: Node, live: bool, mc: nat, ms: nat, o: Outcome)
    requires Sealed(x, a, b, live, mc, ms) && Present(x, live) && b.out != [] && KindOf(b.out[0]).Ack?
    requires o == HandleACK(a.ep, b.out[0])
    ensures Lighter(a, b, o)
  {
    AckAboveStart(x, a, b, live, mc, ms);
    if b.out[0].ackNum == a.ep.snd.base {
      DuplicateAck(x, a, b, live, mc, ms, o);
      if o.out != [] { BaseFacts(x, a, b, live, mc, ms); }
    } else {
      AckView(x, a, b, live, mc, ms, o);
    }
  }

  /** Every delivery leaves less to follow. */
  lemma DeliverLighter(x: Side, a: Node, b: Node, live: bool, mc: nat, ms: nat, o: Outcome)
    requires Sealed(x, a, b, live, mc, ms) && b.out != [] && Present(x, live)
    requires Same(o, Handler(KindOf(b.out[0]), a.ep, b.out[0]))
    ensures Lighter(a, b, o)
  {
    HeadKind(x, a, b, live, mc, ms);
    match KindOf(b.out[0])
    case Syn =>
      if a.log == [] {
        var synAck := FirstSynFacts(a, b, mc, ms, o);
      } else {
        RepeatedSynView(a, b, mc, ms, o);
      }
    case SynAck =>
      if a.ep.state == SYN_SENT {
        OpeningFacts(x, a, b, live, mc, ms);
        FirstSynAckView(a, b, live, mc, ms, o);
      } else {
        RepeatedSynAckView(a, b, live, mc, ms, o);
      }
    case Fin => DataLighter(x, a, b, live, mc, ms, StateOnFIN(a.ep.state), o);
    case Data =>
      assert Same(a.ep, a.ep.(state := a.ep.state));
      DataLighter(x, a, b, live, mc, ms, a.ep.state, o);
    case Ack => AckedLighter(x, a, b, live, mc, ms, o);
    case Prober => AckLighter(a, b, o);
  }

  // ---------------------------------------------------------------------------
  // The measure of a system

  /** Packets still to be acknowledged, counting a server that has yet to open. */
  function Unacked(sys: System): nat {
    |sys.c.ep.snd.pkts| + |sys.s.ep.snd.pkts| + if sys.s.log == [] then 2 else 0
  }

  function Load(sys: System): nat {
    Weigh(sys.c.out, sys.c.ep.snd.base, sys.s.ep.snd.base) + Weigh(sys.s.out, sys.s.ep.snd.base, sys.c.ep.snd.base)
  }

  /** How many packets the channels carry. */
  function Carried(sys: System): nat {
    |sys.c.out| + |sys.s.out|
  }

  ghost predicate Less(z: System, sys: System) {
    Unacked(z) < Unacked(sys) || (Unacked(z) == Unacked(sys) && Load(z) < Load(sys))
  }

  /** The two channels when `a` has answered the head of `b`'s. */
  lemma AnswerWeighs(a: Node, b: Node, o: Outcome)
    requires b.out != [] && o.Done? && |o.out| <= 1 && LighterAnswer(a, b, o)
    ensures var u, v := a.ep.snd.base, b.ep.snd.base;
            Weigh(a.out + o.out, u, v) + Weigh(b.out[1..], v, u) < Weigh(a.out, u, v) + Weigh(b.out, v, u)
  {
    WeighAppend(a.out, o.out, a.ep.snd.base, b.ep.snd.base);
    if o.out != [] { assert o.out[1..] == []; }
  }

  lemma MeasureDrops(sys: System, x: Side, o: Outcome, z: System)
    requires Self(sys, Peer(x)).out != [] && Lighter(Self(sys, x), Self(sys, Peer(x)), o)
    requires Same(Self(z, x), NodeAfter(Self(sys, x), o.ep, o.out))
    requires Same(Self(z, Peer(x)), Popped(Self(sys, Peer(x))))
    requires x.Client? ==> Self(sys, x).log != []
    ensures Less(z, sys) && Carried(z) <= Carried(sys)
  {
    var a, b := Self(sys, x), Self(sys, Peer(x));
    assert |o.ep.snd.pkts| <= |a.ep.snd.pkts| ==> a.log + [] == a.log;
    if |o.ep.snd.pkts| == |a.ep.snd.pkts| && LighterAnswer(a, b, o) { AnswerWeighs(a, b, o); }
  }

  /** Every delivery that is possible is a step that keeps the invariant and makes
      the measure smaller. */
  lemma DeliveryDrops(sys: System, x: Side) returns (z: System)
    requires Inv(sys) && Exists(sys, x) && Self(sys, Peer(x)).out != []
    ensures Enabled(sys, Deliver(x)) && Same(Apply(sys, Deliver(x)), z) && Inv(z) && Less(z, sys) && Carried(z) <= Carried(sys)
  {
    var mc, ms :| InvAt(sys, mc, ms);
    var a, b := Self(sys, x), Self(sys, Peer(x));
    InvFrom(sys, x, mc, ms);
    var o := Handler(KindOf(b.out[0]), a.ep, b.out[0]);
    DeliverLighter(x, a, b, sys.live, mc, ms, o);
    ClientOpen(sys, mc, ms);
    z := Apply(sys, Deliver(x));
    DeliverStep(sys, x, o);
    MeasureDrops(sys, x, o, z);
    StepKeepsInv(sys, Deliver(x));
    assert Same(Alive(z), z);
  }

  lemma ClientOpen(sys: System, mc: nat, ms: nat)
    requires InvAt(sys, mc, ms) && (sys.live || sys.s.out != [])
    ensures sys.c.log != []
  {
    SealedView(Client, sys.c, sys.s, sys.live, mc, ms);
  }

  // ---------------------------------------------------------------------------
  // Runs of deliveries

  lemma {:induction false} WeighBound(ch: seq<Packet>, from: nat, to: nat)
    ensures Weigh(ch, from, to) <= 8 * |ch|
  {
    if ch != [] { WeighBound(ch[1..], from, to); }
  }

  lemma LoadBound(sys: System)
    ensures Load(sys) <= 8 * Carried(sys)
  {
    WeighBound(sys.c.out, sys.c.ep.snd.base, sys.s.ep.snd.base);
    WeighBound(sys.s.out, sys.s.ep.snd.base, sys.c.ep.snd.base);
  }

  /** How many deliveries can follow when at most `n` packets are in flight. */
  function Budget(sys: System, n: nat): nat {
    Unacked(sys) * (8 * n + 1) + Load(sys)
  }

  lemma BudgetDrops(u: nat, w: nat, u': nat, w': nat, n: nat)
    requires u' < u || (u' == u && w' < w)
    requires w' <= 8 * n
    ensures u' * (8 * n + 1) + w' < u * (8 * n + 1) + w
  {
    if u' < u {
      assert (u' + 1) * (8 * n + 1) == u' * (8 * n + 1) + 8 * n + 1;
      Monotone(u' + 1, u, 8 * n + 1);
    }
  }

  lemma Monotone(a: nat, b: nat, k: nat)
    requires a <= b
    ensures a * k <= b * k
  {
  }

  predicate AllDeliveries(steps: seq<Step>) {
    forall k :: 0 <= k < |steps| ==> steps[k].Deliver?
  }

  lemma {:induction false} DeliveriesBounded(sys: System, steps: seq<Step>, n: nat)
    requires Inv(sys) && IsRun(sys, steps) && AllDeliveries(steps) && Carried(sys) <= n
    ensures |steps| <= Budget(sys, n) && Inv(After(sys, steps))
    decreases |steps|
  {
    if steps != [] {
      var z := DeliveryDrops(sys, steps[0].to);
      LoadBound(z);
      BudgetDrops(Unacked(sys), Load(sys), Unacked(z), Load(z), n);
      DeliveriesBounded(z, steps[1..], n);
    }
  }

  /** Every run of deliveries from a reachable state is bounded by a number fixed by
      that state, and it cannot go on exactly when the channels are drained (but
      for SYNs to a server that has not been created). */
  lemma DeliveriesEnd(sys: System, steps: seq<Step>)
    requires Reachable(sys) && !sys.aborted && IsRun(sys, steps) && AllDeliveries(steps)
    ensures |steps| <= Budget(sys, Carried(sys))
    ensures var z := After(sys, steps);
            (forall x :: !Enabled(z, Deliver(x))) <==> z.s.out == [] && (z.live ==> z.c.out == [])
  {
    ReachableInv(sys);
    DeliveriesBounded(sys, steps, Carried(sys));
    var z := After(sys, steps);
    if forall x :: !Enabled(z, Deliver(x)) {
      assert !Enabled(z, Deliver(Client)) && !Enabled(z, Deliver(Server));
    }
  }
}
