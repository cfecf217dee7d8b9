/** From every reachable state a loss-free run delivers everything that was
    written. */
module Liveness {
  import opened Packets
  import opened Endpoints
  import opened Network
  import opened Invariants
  import opened SenderLemmas
  import opened Delivery
  import opened Safety
  import opened Theorems
  import opened Progress
  import opened FinStates
  import opened Draining
  import opened Packetizing
  import SW = SendWindows

  // ---------------------------------------------------------------------------
  // Loss-free runs

  /** The steps that need nobody's good will but the applications' reading. */
  predicate Fair(step: Step) {
    step.Timeout? || step.Create? || step.Deliver? || step.Listen? || step.Probe? || step.Read?
  }

  predicate LossFree(steps: seq<Step>) {
    forall k :: 0 <= k < |steps| ==> Fair(steps[k])
  }

  ghost predicate Reaches(sys: System, z: System) {
    exists steps :: LossFree(steps) && Leads(sys, steps, z)
  }

  lemma ReachesSelf(sys: System)
    ensures Reaches(sys, sys)
  {
    LeadsNowhere(sys);
    assert LossFree([]);
  }

  lemma ReachesBy(sys: System, steps: seq<Step>, z: System)
    requires LossFree(steps) && Leads(sys, steps, z)
    ensures Reaches(sys, z)
  {
  }

  lemma ReachesTrans(sys: System, sys1: System, z: System)
    requires Reaches(sys, sys1) && Reaches(sys1, z)
    ensures Reaches(sys, z)
  {
    var a :| LossFree(a) && Leads(sys, a, sys1);
    var b :| LossFree(b) && Leads(sys1, b, z);
    LeadsAppend(sys, a, sys1, b, z);
    ReachesBy(sys, a + b, z);
  }

  lemma ReachesStep(sys: System, step: Step, z: System)
    requires Enabled(sys, step) && Fair(step) && Same(Apply(sys, step), z)
    ensures Reaches(sys, z)
  {
    LeadsNowhere(z);
    LeadsCons(sys, step, z, [], z);
    assert [step] + [] == [step];
    ReachesBy(sys, [step], z);
  }

  // ---------------------------------------------------------------------------
  // What such runs leave alone

  /** Not one acknowledgement away from being shut down. */
  predicate Awake(e: Endpoint) {
    !e.shutdown && e.state != LAST_ACK
  }

  /** The side itself has not lost or gained what it has to send, and has not gone
      to sleep. */
  predicate Calm(e: Endpoint, e': Endpoint) {
    e'.sendBuf == e.sendBuf && e'.recvCap == e.recvCap && (Awake(e) ==> Awake(e'))
  }

  lemma ArrivalCalm(e: Endpoint, p: Packet)
    requires HandleReceivedPacket(e, p).Done?
    ensures Calm(e, HandleReceivedPacket(e, p).ep)
  {
    if p.fin && !p.sync {
      ReceiveAndAckFin(e.(state := StateOnFIN(e.state)), p);
    } else if !p.sync && !p.ack && p.size > 0 {
      ReceiveAndAckFin(e, p);
    }
  }

  /** Both sides are calm, and the histories of what was written and read stand. */
  ghost predicate Steady(sys: System, z: System) {
    forall x :: SteadySide(sys, z, x)
  }

  ghost predicate SteadySide(sys: System, z: System, x: Side) {
    && Calm(Self(sys, x).ep, Self(z, x).ep)
    && Self(z, x).written == Self(sys, x).written && Self(z, x).read == Self(sys, x).read
    && (Self(sys, x).log != [] ==> |Self(z, x).ep.snd.pkts| <= |Self(sys, x).ep.snd.pkts| && Self(z, x).log != [])
  }

  lemma SteadyTrans(sys: System, sys1: System, z: System)
    requires Steady(sys, sys1) && Steady(sys1, z)
    ensures Steady(sys, z)
  {
    forall x ensures SteadySide(sys, z, x) {
      assert SteadySide(sys, sys1, x) && SteadySide(sys1, z, x);
    }
  }

  /** Timers, creation, deliveries and probes are steady. */
  predicate Passive(step: Step) {
    step.Timeout? || step.Create? || step.Deliver? || step.Probe?
  }

  lemma StepSteady(sys: System, step: Step)
    requires Inv(sys) && Enabled(sys, step) && Passive(step)
    ensures Steady(sys, Apply(sys, step)) && Inv(Apply(sys, step))
  {
    StepKeepsInv(sys, step);
    assert Same(Alive(Apply(sys, step)), Apply(sys, step));
    forall x ensures SteadySide(sys, Apply(sys, step), x) {
      match step
      case Timeout(y) => ActSteady(sys, y, TimeoutReTransmitter(Self(sys, y).ep), x);
      case Probe(y) => ActSteady(sys, y, ProbeWindowSize(Self(sys, y).ep), x);
      case Create =>
      case Deliver(y) => DeliverSteady(sys, y, HandleReceivedPacket(Self(sys, y).ep, Self(sys, Peer(y)).out[0]), x);
    }
  }

  lemma ActSteady(sys: System, y: Side, o: Outcome, x: Side)
    requires o.Done? && Calm(Self(sys, y).ep, o.ep) && |o.ep.snd.pkts| <= |Self(sys, y).ep.snd.pkts|
    ensures SteadySide(sys, Act(sys, y, o), x)
  {
    assert Self(sys, y).log + [] == Self(sys, y).log;
  }

  lemma DeliverSteady(sys: System, y: Side, o: Outcome, x: Side)
    requires Inv(sys) && Exists(sys, y) && Self(sys, Peer(y)).out != []
    requires o == HandleReceivedPacket(Self(sys, y).ep, Self(sys, Peer(y)).out[0])
    ensures SteadySide(sys, DoDeliver(sys, y, o), x)
  {
    var mc, ms :| InvAt(sys, mc, ms);
    var a, b := Self(sys, y), Self(sys, Peer(y));
    InvFrom(sys, y, mc, ms);
    DispatchIs(a.ep, b.out[0]);
    DeliverLighter(y, a, b, sys.live, mc, ms, o);
    ArrivalCalm(a.ep, b.out[0]);
    assert a.log + [] == a.log;
  }

  predicate AllPassive(steps: seq<Step>) {
    forall k :: 0 <= k < |steps| ==> Passive(steps[k])
  }

  lemma {:induction false} PassiveRun(sys: System, steps: seq<Step>, z: System)
    requires Inv(sys) && Leads(sys, steps, z) && AllPassive(steps)
    ensures Steady(sys, z) && Inv(z)
    decreases |steps|
  {
    if steps == [] {
      LeadsIs(sys, steps, z);
      forall x ensures SteadySide(sys, z, x) { }
    } else {
      LeadsFirst(sys, steps, z);
      StepSteady(sys, steps[0]);
      PassiveRun(Apply(sys, steps[0]), steps[1..], z);
      SteadyTrans(sys, Apply(sys, steps[0]), z);
    }
  }

  lemma {:induction false} RoundsPassive(x: Side, k: nat)
    ensures AllPassive(Rounds(x, k))
  {
    if k > 0 { RoundsPassive(x, k - 1); }
  }

  lemma RoundsFromPassive(live: bool, x: Side, k: nat)
    ensures AllPassive(RoundsFrom(live, x, k)) && LossFree(RoundsFrom(live, x, k))
  {
    if k > 0 { RoundsPassive(x, k - 1); }
    PassiveIsFair(RoundsFrom(live, x, k));
  }

  lemma PassiveIsFair(steps: seq<Step>)
    requires AllPassive(steps)
    ensures LossFree(steps)
  {
  }

  // ---------------------------------------------------------------------------
  // Draining the channels

  predicate Drained(sys: System) {
    sys.c.out == [] && sys.s.out == []
  }

  lemma OnlySynsBeforeServer(sys: System)
    requires Inv(sys) && !sys.live && sys.c.out != []
    ensures sys.c.out[0].sync && Enabled(sys, Create)
  {
    var mc, ms :| InvAt(sys, mc, ms);
    SealedView(Client, sys.c, sys.s, sys.live, mc, ms);
  }

  /** One more step towards drained channels. */
  lemma DrainStep(sys: System) returns (step: Step, z: System)
    requires Inv(sys) && !Drained(sys)
    ensures Passive(step) && Enabled(sys, step) && Same(Apply(sys, step), z) && Inv(z) && Steady(sys, z)
    ensures (sys.live ==> z.live) && if step.Create? then !sys.live && z.live else Less(z, sys)
  {
    if sys.s.out != [] {
      step := Deliver(Client);
      z := DeliveryDrops(sys, Client);
    } else if sys.live {
      step := Deliver(Server);
      z := DeliveryDrops(sys, Server);
    } else {
      OnlySynsBeforeServer(sys);
      step := Create;
      z := Apply(sys, Create);
    }
    StepSteady(sys, step);
    if sys.live { LiveStays(sys, step); }
  }

  lemma LiveStays(sys: System, step: Step)
    requires Inv(sys) && Enabled(sys, step) && Passive(step) && sys.live
    ensures Apply(sys, step).live
  {
    var mc, ms :| InvAt(sys, mc, ms);
    var mc', ms' := StepAdvances(sys, step, mc, ms);
  }

  lemma {:induction false} Drain(sys: System) returns (z: System)
    requires Inv(sys)
    ensures Reaches(sys, z) && Inv(z) && Steady(sys, z) && Drained(z)
    decreases if sys.live then 0 else 1, Unacked(sys), Load(sys)
  {
    if Drained(sys) {
      z := sys;
      ReachesSelf(sys);
      forall x ensures SteadySide(sys, z, x) { }
    } else {
      var step, sys1 := DrainStep(sys);
      z := Drain(sys1);
      ReachesStep(sys, step, sys1);
      ReachesTrans(sys, sys1, z);
      SteadyTrans(sys, sys1, z);
    }
  }

  // ---------------------------------------------------------------------------
  // Getting everything sent acknowledged

  predicate Asleep(sys: System) {
    sys.c.ep.shutdown || sys.s.ep.shutdown
  }

  /** Drain, let side `y` send again what is unacknowledged, drain. */
  lemma SettleOne(sys: System, y: Side) returns (z: System)
    requires Inv(sys) && Self(sys, y).log != []
    ensures Reaches(sys, z) && Inv(z) && Steady(sys, z) && Drained(z)
    ensures Asleep(z) || Self(z, y).ep.snd.pkts == []
  {
    var sys1 := Drain(sys);
    assert SteadySide(sys, sys1, y);
    if Asleep(sys1) {
      z := sys1;
    } else {
      var sys2 := Resend(sys1, y);
      z := Drain(sys2);
      assert SteadySide(sys1, sys2, y) && SteadySide(sys2, z, y);
      ReachesTrans(sys, sys1, sys2);
      ReachesTrans(sys, sys2, z);
      SteadyTrans(sys, sys1, sys2);
      SteadyTrans(sys, sys2, z);
    }
  }

  lemma Resend(sys: System, y: Side) returns (z: System)
    requires Inv(sys) && Drained(sys) && !Asleep(sys)
    ensures Reaches(sys, z) && Inv(z) && Steady(sys, z) && Self(z, y).ep.snd.pkts == []
  {
    var k;
    k, z := RoundsFromLead(sys, y);
    RoundsFromPassive(sys.live, y, k);
    PassiveRun(sys, RoundsFrom(sys.live, y, k), z);
    ReachesBy(sys, RoundsFrom(sys.live, y, k), z);
  }

  /** When the client's SYN is acknowledged the server is open. */
  lemma BothOpen(sys: System)
    requires Inv(sys) && sys.c.log != [] && sys.c.ep.snd.pkts == []
    ensures sys.live && sys.s.log != []
  {
    var mc, ms :| InvAt(sys, mc, ms);
    SealedView(Client, sys.c, sys.s, sys.live, mc, ms);
  }

  /** A side that has shut down has nothing left to do. */
  lemma AsleepIsDone(sys: System, x: Side)
    requires Inv(sys) && Self(sys, x).ep.shutdown
    ensures Self(sys, x).ep.snd.pkts == [] && Self(sys, x).ep.sendBuf == [] && Self(sys, x).log != [] && sys.live
  {
    var mc, ms :| InvAt(sys, mc, ms);
    InvFrom(sys, x, mc, ms);
    SealedView(x, Self(sys, x), Self(sys, Peer(x)), sys.live, mc, ms);
  }

  /** Side `x` has everything acknowledged that it sent. */
  ghost predicate Settled(sys: System, x: Side) {
    && Inv(sys) && Drained(sys) && sys.live
    && Self(sys, x).log != [] && Self(sys, x).ep.snd.pkts == []
    && (Self(sys, x).ep.shutdown ==> Self(sys, x).ep.sendBuf == [])
  }

  lemma Settle(sys: System, x: Side) returns (z: System)
    requires Inv(sys) && sys.c.log != [] && Awake(Self(sys, Peer(x)).ep)
    ensures Reaches(sys, z) && Steady(sys, z) && Settled(z, x)
  {
    z := SettleOne(sys, Client);
    assert SteadySide(sys, z, Client) && SteadySide(sys, z, Peer(x));
    if Asleep(z) {
      AsleepIsDone(z, x);
    } else {
      BothOpen(z);
      var sys1 := z;
      z := SettleOne(sys1, x);
      ReachesTrans(sys, sys1, z);
      SteadyTrans(sys, sys1, z);
      SettledAgain(sys1, z, x);
    }
  }

  lemma SettledAgain(sys: System, z: System, x: Side)
    requires Inv(sys) && Inv(z) && Steady(sys, z) && Drained(z) && sys.live && Awake(Self(sys, Peer(x)).ep)
    requires sys.c.log != [] && sys.s.log != [] && sys.c.ep.snd.pkts == []
    requires Asleep(z) || Self(z, x).ep.snd.pkts == []
    ensures Settled(z, x)
  {
    assert SteadySide(sys, z, x) && SteadySide(sys, z, Peer(x)) && SteadySide(sys, z, Client);
    BothOpen(z);
    if Self(z, x).ep.shutdown { AsleepIsDone(z, x); }
  }

  // ---------------------------------------------------------------------------
  // The last read

  lemma AllAccepted(sys: System, x: Side)
    requires Settled(sys, x) && Self(sys, x).ep.sendBuf == []
    ensures var a, b := Self(sys, x), Self(sys, Peer(x));
            b.read + b.ep.recvBuf == a.written && (b.ep.pipe == EOF_CONSUMED ==> b.ep.recvBuf == [])
  {
    var mc, ms :| InvAt(sys, mc, ms);
    InvFrom(sys, x, mc, ms);
    var a, b, m := Self(sys, x), Self(sys, Peer(x)), Fwd(x, mc, ms);
    SealedView(x, a, b, sys.live, mc, ms);
    assert a.log[..m] == a.log && a.written + [] == a.written;
    assert Bytes(a.log) + [] == Bytes(a.log);
  }

  /** The application of `y` reads all there is. */
  lemma ReadAll(sys: System, y: Side) returns (z: System)
    requires Inv(sys) && Exists(sys, y) && !Self(sys, y).ep.shutdown
    requires Self(sys, y).ep.pipe == EOF_CONSUMED ==> Self(sys, y).ep.recvBuf == []
    ensures Reaches(sys, z) && Inv(z) && Self(z, Peer(y)) == Self(sys, Peer(y)) && z.live == sys.live
    ensures var b, b' := Self(sys, y), Self(z, y);
            && b'.read == b.read + b.ep.recvBuf && b'.out == b.out && b'.log == b.log
            && b'.ep == b.ep.(recvBuf := [])
  {
    var b := Self(sys, y);
    if b.ep.recvBuf == [] {
      z := sys;
      ReachesSelf(sys);
      assert b.read + b.ep.recvBuf == b.read;
    } else {
      var step := Read(y, |b.ep.recvBuf|);
      z := Apply(sys, step);
      StepKeepsInv(sys, step);
      assert Same(Alive(z), z);
      ReachesStep(sys, step, z);
      assert b.ep.recvBuf[..|b.ep.recvBuf|] == b.ep.recvBuf;
    }
  }

  lemma Finale(sys: System, x: Side) returns (z: System)
    requires Settled(sys, x) && Self(sys, x).ep.sendBuf == [] && Awake(Self(sys, Peer(x)).ep)
    ensures Reaches(sys, z) && Self(z, Peer(x)).read == Self(sys, x).written
  {
    AllAccepted(sys, x);
    z := ReadAll(sys, Peer(x));
  }

  // ---------------------------------------------------------------------------
  // A closed window

  /** The prober's round: an empty packet, its acknowledgement, the new window. */
  function ProbeRound(x: Side): seq<Step> {
    [Probe(x), Deliver(Peer(x)), Deliver(x)]
  }

  /** The probe leaves. */
  lemma ProbeLeaves(sys: System, x: Side, mc: nat, ms: nat) returns (sys1: System)
    requires InvAt(sys, mc, ms) && Drained(sys) && Exists(sys, x)
    requires Self(sys, x).ep.prober && !Self(sys, x).ep.shutdown && Self(sys, x).ep.snd.capacity == 0
    ensures Enabled(sys, Probe(x)) && Same(Apply(sys, Probe(x)), sys1) && InvAt(sys1, mc, ms) && sys1.live == sys.live
    ensures var a, a1 := Self(sys, x), Self(sys1, x);
            a1.ep == a.ep && |a1.out| == 1 && KindOf(a1.out[0]).Prober? && IsProbe(a1.out[0])
    ensures Self(sys1, Peer(x)) == Self(sys, Peer(x))
  {
    var o := ProbeWindowSize(Self(sys, x).ep);
    ProbeAdvances(sys, x, mc, ms, o);
    sys1 := Apply(sys, Probe(x));
    NothingToRegister(Self(sys, x), o.out);
  }

  lemma NothingToRegister(a: Node, out: seq<Packet>)
    requires a.out == []
    ensures NodeAfter(a, a.ep, out) == a.(out := out)
  {
    assert a.log + [] == a.log && [] + out == out;
  }

  /** The peer answers it with its window. */
  lemma ProbeAnswered(sys: System, x: Side, mc: nat, ms: nat) returns (sys2: System)
    requires InvAt(sys, mc, ms) && sys.live
    requires var a, b := Self(sys, x), Self(sys, Peer(x)); |a.out| == 1 && IsProbe(a.out[0]) && b.out == []
    ensures Enabled(sys, Deliver(Peer(x))) && Same(Apply(sys, Deliver(Peer(x))), sys2)
    ensures InvAt(sys2, mc, ms) && sys2.live
    ensures var a, a2, b, b2 := Self(sys, x), Self(sys2, x), Self(sys, Peer(x)), Self(sys2, Peer(x));
            a2.ep == a.ep && a2.out == [] && b2.ep == b.ep && b2.out == [AckOf(b.ep, b.ep.rcv.base)]
  {
    var y := Peer(x);
    var b, a := Self(sys, y), Self(sys, x);
    var o := Done(b.ep, [AckOf(b.ep, b.ep.rcv.base)]);
    InvFrom(sys, y, mc, ms);
    ProbeTakenView(y, b, a, true, mc, ms, o);
    DeliverStep(sys, y, o);
    sys2 := Apply(sys, Deliver(y));
    NothingToRegister(b, o.out);
    assert a.out[1..] == [];
    InvFrom(sys2, y, mc, ms);
  }

  /** The window takes what the acknowledgement says. */
  lemma WindowTold(sys: System, x: Side, mc: nat, ms: nat) returns (sys3: System)
    requires InvAt(sys, mc, ms) && sys.live && |Self(sys, Peer(x)).out| == 1 && KindOf(Self(sys, Peer(x)).out[0]).Ack?
    ensures Enabled(sys, Deliver(x)) && Same(Apply(sys, Deliver(x)), sys3)
    ensures Self(sys3, x).ep.snd.capacity == Self(sys, Peer(x)).out[0].window
    ensures Self(sys3, Peer(x)).ep == Self(sys, Peer(x)).ep && Self(sys3, Peer(x)).out == [] && sys3.live
    ensures Self(sys, x).ep.snd.pkts == [] ==> Self(sys3, x).out == Self(sys, x).out
  {
    var a, b := Self(sys, x), Self(sys, Peer(x));
    var o := HandleACK(a.ep, b.out[0]);
    InvFrom(sys, x, mc, ms);
    var e, o' := AckFacts(x, a, b, true, mc, ms);
    assert a.out + [] == a.out;
    AckView(x, a, b, true, mc, ms, o);
    DeliverStep(sys, x, o);
    sys3 := Apply(sys, Deliver(x));
  }

  lemma ProbeLeads(sys: System, x: Side) returns (z: System)
    requires Inv(sys) && Drained(sys) && sys.live
    requires Self(sys, x).ep.prober && !Self(sys, x).ep.shutdown && Self(sys, x).ep.snd.capacity == 0
    ensures Leads(sys, ProbeRound(x), z)
    ensures Self(z, x).ep.snd.capacity == RecvFree(Self(sys, Peer(x)).ep) % U16
    ensures Self(z, Peer(x)).ep == Self(sys, Peer(x)).ep && z.live && Self(z, Peer(x)).out == []
    ensures Self(sys, x).ep.snd.pkts == [] ==> Self(z, x).out == []
  {
    var mc, ms :| InvAt(sys, mc, ms);
    var sys1 := ProbeLeaves(sys, x, mc, ms);
    var sys2 := ProbeAnswered(sys1, x, mc, ms);
    z := WindowTold(sys2, x, mc, ms);
    LeadsThree(sys, Probe(x), sys1, Deliver(Peer(x)), sys2, Deliver(x), z);
  }

  /** With drained channels and a closed window, the prober's round opens the window
      if and only if the peer's free space is not a multiple of 65536: a buffer
      that is offers nothing for ever. */
  lemma ProbeOpensExactly(sys: System, x: Side)
    requires Reachable(sys) && !sys.aborted && Drained(sys) && sys.live
    requires Self(sys, x).ep.prober && !Self(sys, x).ep.shutdown && Self(sys, x).ep.snd.capacity == 0
    ensures IsRun(sys, ProbeRound(x))
    ensures Self(After(sys, ProbeRound(x)), x).ep.snd.capacity > 0 <==> RecvFree(Self(sys, Peer(x)).ep) % U16 != 0
    ensures RecvFree(Self(sys, Peer(x)).ep) % U16 != 0 <==>
              |Self(sys, Peer(x)).ep.recvBuf| < OfferedCap(Self(sys, Peer(x)).ep)
  {
    ReachableInv(sys);
    var z := ProbeLeads(sys, x);
    LeadsIs(sys, ProbeRound(x), z);
    FlowControl(sys, x);
  }

  // ---------------------------------------------------------------------------
  // Sending more

  /** A settled side with something to send: what its listener needs. */
  lemma CanListen(sys: System, x: Side)
    requires Settled(sys, x) && Self(sys, x).ep.sendBuf != []
    ensures var e := Self(sys, x).ep;
            && Enabled(sys, Listen(x)) && SW.ValidWin(e.snd) && e.snd.size == 0
            && Self(sys, Peer(x)).ep.pipe == OPEN
  {
    var mc, ms :| InvAt(sys, mc, ms);
    InvFrom(sys, x, mc, ms);
    var a, b := Self(sys, x), Self(sys, Peer(x));
    SealedView(x, a, b, sys.live, mc, ms);
    WindowValid(a.iss, a.log, a.ep.snd);
  }

  /** A round of the listener: it starts the prober, or takes bytes. */
  lemma ListenTakes(sys: System, x: Side) returns (z: System)
    requires Settled(sys, x) && Self(sys, x).ep.sendBuf != []
    ensures Reaches(sys, z) && Inv(z) && z.live && Self(z, Peer(x)) == Self(sys, Peer(x))
    ensures Self(z, x).written == Self(sys, x).written && Self(z, x).log != []
    ensures var e, e' := Self(sys, x).ep, Self(z, x).ep;
            if e.snd.capacity == 0 then Self(z, x) == Self(sys, x).(ep := e.(prober := true))
            else |e'.sendBuf| < |e.sendBuf|
  {
    CanListen(sys, x);
    var a := Self(sys, x);
    var o := SendBufferListener(a.ep);
    RoundConserves(a.ep);
    z := Apply(sys, Listen(x));
    StepKeepsInv(sys, Listen(x));
    assert Same(Alive(z), z);
    ReachesStep(sys, Listen(x), z);
    assert Same(z, Act(sys, x, o));
    assert a.log + [] == a.log && a.out + [] == a.out;
  }

  /** A closed window is opened by the prober. */
  lemma OpenWindow(sys: System, x: Side) returns (z: System)
    requires Settled(sys, x) && Self(sys, x).ep.sendBuf != [] && Self(sys, x).ep.snd.capacity == 0
    requires Awake(Self(sys, Peer(x)).ep) && Self(sys, Peer(x)).ep.recvBuf == []
    requires OfferedCap(Self(sys, Peer(x)).ep) > 0
    ensures Reaches(sys, z) && Steady(sys, z) && Settled(z, x) && Self(z, x).ep.snd.capacity > 0
  {
    CanListen(sys, x);
    var sys1 := ListenTakes(sys, x);
    forall y ensures SteadySide(sys, sys1, y) { }
    var sys2 := ProbeLeads(sys1, x);
    PassiveRun(sys1, ProbeRound(x), sys2);
    PassiveIsFair(ProbeRound(x));
    ReachesBy(sys1, ProbeRound(x), sys2);
    ReachesTrans(sys, sys1, sys2);
    SteadyTrans(sys, sys1, sys2);
    z := sys2;
    assert SteadySide(sys, z, x);
    OfferOfEmpty(Self(sys, Peer(x)).ep);
    if Self(z, x).ep.shutdown { AsleepIsDone(z, x); }
  }

  lemma OfferOfEmpty(e: Endpoint)
    requires e.recvBuf == []
    ensures RecvFree(e) % U16 == OfferedCap(e)
  {
  }

  /** As long as there is something to send, some of it can be sent. */
  lemma SendSome(sys: System, x: Side) returns (z: System)
    requires Settled(sys, x) && Self(sys, x).ep.sendBuf != []
    requires Awake(Self(sys, Peer(x)).ep) && OfferedCap(Self(sys, Peer(x)).ep) > 0
    ensures Reaches(sys, z) && Inv(z) && z.c.log != [] && Self(z, x).written == Self(sys, x).written
    ensures |Self(z, x).ep.sendBuf| < |Self(sys, x).ep.sendBuf|
    ensures Awake(Self(z, Peer(x)).ep) && Self(z, Peer(x)).ep.recvCap == Self(sys, Peer(x)).ep.recvCap
  {
    CanListen(sys, x);
    var sys1 := ReadAll(sys, Peer(x));
    z := sys1;
    assert Peer(Peer(x)) == x;
    if Self(sys1, x).ep.snd.capacity == 0 {
      z := OpenWindow(sys1, x);
      assert SteadySide(sys1, z, x) && SteadySide(sys1, z, Peer(x));
      ReachesTrans(sys, sys1, z);
    }
    var sys2 := z;
    z := ListenTakes(sys2, x);
    ReachesTrans(sys, sys2, z);
    ClientLogStays(z);
  }

  lemma ClientLogStays(sys: System)
    requires Inv(sys) && sys.live
    ensures sys.c.log != []
  {
    var mc, ms :| InvAt(sys, mc, ms);
    SealedView(Client, sys.c, sys.s, sys.live, mc, ms);
  }

  /** Send, deliver, read, until nothing is left. */
  lemma {:induction false} DeliverAll(sys: System, x: Side) returns (z: System)
    requires Inv(sys) && sys.c.log != [] && Awake(Self(sys, Peer(x)).ep) && OfferedCap(Self(sys, Peer(x)).ep) > 0
    ensures Reaches(sys, z) && Self(z, Peer(x)).read == Self(sys, x).written
    decreases |Self(sys, x).ep.sendBuf|
  {
    var sys1 := Settle(sys, x);
    assert SteadySide(sys, sys1, x) && SteadySide(sys, sys1, Peer(x));
    if Self(sys1, x).ep.sendBuf == [] {
      z := Finale(sys1, x);
    } else {
      var sys2 := SendSome(sys1, x);
      z := DeliverAll(sys2, x);
      ReachesTrans(sys1, sys2, z);
    }
    ReachesTrans(sys, sys1, z);
  }

  /** End-to-end delivery: a loss-free run after which the reader has read it all. */
  ghost predicate Deliverable(sys: System, x: Side) {
    exists steps :: LossFree(steps) && IsRun(sys, steps) && Self(After(sys, steps), Peer(x)).read == Self(sys, x).written
  }

  lemma EverythingCanBeDelivered(sys: System, x: Side)
    requires Reachable(sys) && !sys.aborted && sys.c.log != []
    requires Awake(Self(sys, Peer(x)).ep) && OfferedCap(Self(sys, Peer(x)).ep) > 0
    ensures Deliverable(sys, x)
  {
    ReachableInv(sys);
    var z := DeliverAll(sys, x);
    var steps :| LossFree(steps) && Leads(sys, steps, z);
    LeadsIs(sys, steps, z);
  }

  // ---------------------------------------------------------------------------
  // A buffer that offers nothing

  lemma ActReads(sys: System, z: Side, o: Outcome, y: Side)
    ensures Self(Act(sys, z, o), y).read == Self(sys, y).read
  {
  }

  /** Only a read reads, no more than is buffered, and nothing after shutdown. */
  lemma OnlyReadsRead(sys: System, step: Step, y: Side)
    requires Enabled(sys, step)
    ensures Self(sys, y).ep.recvBuf == [] || Self(sys, y).ep.shutdown ==>
              Self(Apply(sys, step), y).read == Self(sys, y).read
  {
    match step
    case Connect => ActReads(sys, Client, TryConnect(sys.c.ep), y);
    case Create =>
    case Deliver(z) =>
      ActReads(Lose(sys, Peer(z), 0), z, HandleReceivedPacket(Self(sys, z).ep, Self(sys, Peer(z)).out[0]), y);
    case Drop(z, i) =>
    case Listen(z) => ActReads(sys, z, SendBufferListener(Self(sys, z).ep), y);
    case Finish(z) => ActReads(sys, z, SendFIN(Self(sys, z).ep), y);
    case Timeout(z) => ActReads(sys, z, TimeoutReTransmitter(Self(sys, z).ep), y);
    case Probe(z) => ActReads(sys, z, ProbeWindowSize(Self(sys, z).ep), y);
    case PushUp(z) => ActReads(sys, z, Done(PushOverflow(Self(sys, z).ep), []), y);
    case Read(z, size) => assert Self(sys, y).read + [] == Self(sys, y).read;
    case Write(z, data) =>
  }

  /** A side whose buffer is a multiple of 65536 bytes never reads anything. */
  lemma {:induction false} NothingIsRead(sys: System, steps: seq<Step>, y: Side)
    requires Reachable(sys) && IsRun(sys, steps) && OfferedCap(Self(sys, y).ep) == 0 && Self(sys, y).read == []
    ensures Self(After(sys, steps), y).read == [] && OfferedCap(Self(After(sys, steps), y).ep) == 0
    decreases |steps|
  {
    if steps != [] {
      FlowControl(sys, Peer(y));
      assert Peer(Peer(y)) == y;
      OnlyReadsRead(sys, steps[0], y);
      StepStates(sys, steps[0], y);
      ReachableStep(sys, steps[0]);
      NothingIsRead(Apply(sys, steps[0]), steps[1..], y);
    }
  }

  lemma NothingEverRead(sys: System, y: Side)
    requires Reachable(sys) && OfferedCap(Self(sys, y).ep) == 0
    ensures Self(sys, y).read == []
  {
    var g: Config, steps: seq<Step> :| ReachedBy(g, steps, sys);
    assert ReachedBy(g, [], Init(g));
    RunKeepsCap(Init(g), steps, y);
    NothingIsRead(Init(g), steps, y);
  }

  lemma {:induction false} RunKeepsCap(sys: System, steps: seq<Step>, y: Side)
    requires Reachable(sys) && IsRun(sys, steps)
    ensures Self(After(sys, steps), y).ep.recvCap == Self(sys, y).ep.recvCap
    decreases |steps|
  {
    if steps != [] {
      StepStates(sys, steps[0], y);
      ReachableStep(sys, steps[0]);
      RunKeepsCap(Apply(sys, steps[0]), steps[1..], y);
    }
  }

  // ---------------------------------------------------------------------------
  // A reader that is closed or closing

  /** A side that is shut down stays so and reads nothing more, over any run. */
  lemma {:induction false} ShutReadsNothing(sys: System, steps: seq<Step>, y: Side)
    requires Reachable(sys) && IsRun(sys, steps) && Self(sys, y).ep.shutdown
    ensures Self(After(sys, steps), y).read == Self(sys, y).read && Self(After(sys, steps), y).ep.shutdown
    decreases |steps|
  {
    if steps != [] {
      OnlyReadsRead(sys, steps[0], y);
      LifecycleIsMonotone(sys, steps[0], y);
      StepStates(sys, steps[0], y);
      ReachableStep(sys, steps[0]);
      ShutReadsNothing(Apply(sys, steps[0]), steps[1..], y);
    }
  }

  /** Once the stream has ended all of it can be read, unless the reader is shut. */
  lemma EndedCanBeRead(sys: System, x: Side)
    requires Reachable(sys) && !sys.aborted && !Self(sys, Peer(x)).ep.shutdown && Self(sys, Peer(x)).ep.pipe != OPEN
    ensures Deliverable(sys, x) && Self(sys, Peer(x)).read + Self(sys, Peer(x)).ep.recvBuf == Self(sys, x).written
  {
    ReachableInv(sys);
    WholeStream(sys, x);
    var z := ReadAll(sys, Peer(x));
    var steps :| LossFree(steps) && Leads(sys, steps, z);
    LeadsIs(sys, steps, z);
  }

  lemma WholeStream(sys: System, x: Side)
    requires Reachable(sys) && Self(sys, Peer(x)).ep.pipe != OPEN
    ensures var b := Self(sys, Peer(x));
            && b.read + b.ep.recvBuf == Self(sys, x).written && Exists(sys, Peer(x))
            && (b.ep.pipe == EOF_CONSUMED ==> b.ep.recvBuf == [])
  {
    var mc, ms := ReachableView(sys, x);
    StreamOf(Self(sys, x), Self(sys, Peer(x)), Fwd(x, mc, ms));
  }

  // ---------------------------------------------------------------------------
  // The exact condition

  /** From every running reachable state in which the client has connected: a
      loss-free run of timers, creation, deliveries, listener rounds, probes and
      reads makes what is read equal to what was written, if and only if the
      reader's buffer is not a multiple of 65536 bytes or nothing was written; of a
      reader that is shut down, if and only if it has read everything already. The
      one state left is LAST_ACK with the stream still open: there a run may close
      the reader short (`EarlyClose.ClosesShortExactly`). */
  lemma DeliverableExactly(sys: System, x: Side)
    requires Reachable(sys) && !sys.aborted && sys.c.log != []
    requires Self(sys, Peer(x)).ep.state == LAST_ACK ==> Self(sys, Peer(x)).ep.pipe != OPEN
    ensures var b := Self(sys, Peer(x));
            Deliverable(sys, x) <==>
              if b.ep.shutdown then b.read == Self(sys, x).written
              else OfferedCap(b.ep) > 0 || Self(sys, x).written == []
  {
    var b := Self(sys, Peer(x));
    if b.ep.shutdown {
      ShutDeliverable(sys, x);
    } else if b.ep.state == LAST_ACK {
      EndedCanBeRead(sys, x);
      if OfferedCap(b.ep) == 0 {
        NothingEverRead(sys, Peer(x));
        FlowControl(sys, x);
      }
    } else {
      AwakeDeliverable(sys, x);
    }
  }

  lemma ShutDeliverable(sys: System, x: Side)
    requires Reachable(sys) && Self(sys, Peer(x)).ep.shutdown
    ensures Deliverable(sys, x) <==> Self(sys, Peer(x)).read == Self(sys, x).written
  {
    if Self(sys, Peer(x)).read == Self(sys, x).written {
      assert LossFree([]) && IsRun(sys, []);
    }
    if Deliverable(sys, x) {
      var steps :| LossFree(steps) && IsRun(sys, steps) && Self(After(sys, steps), Peer(x)).read == Self(sys, x).written;
      ShutReadsNothing(sys, steps, Peer(x));
    }
  }

  lemma AwakeDeliverable(sys: System, x: Side)
    requires Reachable(sys) && !sys.aborted && sys.c.log != [] && Awake(Self(sys, Peer(x)).ep)
    ensures Deliverable(sys, x) <==> OfferedCap(Self(sys, Peer(x)).ep) > 0 || Self(sys, x).written == []
  {
    var y := Peer(x);
    if OfferedCap(Self(sys, y).ep) > 0 {
      EverythingCanBeDelivered(sys, x);
    } else {
      NothingEverRead(sys, y);
      if Self(sys, x).written == [] {
        assert LossFree([]) && IsRun(sys, []);
      }
      if Deliverable(sys, x) {
        var steps :| LossFree(steps) && IsRun(sys, steps) && Self(After(sys, steps), y).read == Self(sys, x).written;
        NothingIsRead(sys, steps, y);
      }
    }
  }
}
