/** Karn's rule between the two parties: over any run, the flag that invalidates
    round-trip times is set as long as a packet sent twice is unacknowledged. */
module KarnRuns {
  import opened Packets
  import opened Endpoints
  import opened Logs
  import opened Network
  import opened Invariants
  import opened SenderLemmas
  import opened Safety
  import opened Theorems
  import opened Packetizing
  import opened HandlerLaws
  import SW = SendWindows

  // ---------------------------------------------------------------------------
  // What one step does about a packet

  /** The packets a step appended to the channel that leaves the node. */
  function SentBetween(a: Node, a': Node): seq<Packet> {
    if |a'.out| > |a.out| then a'.out[|a.out|..] else []
  }

  /** New packets are registered and sent. */
  ghost predicate Sends(w: SW.SendWin, w': SW.SendWin, out: seq<Packet>) {
    w'.pkts == w.pkts + out && w'.hasRetransmitted == w.hasRetransmitted
  }

  /** Something is sent again. */
  ghost predicate Resends(w: SW.SendWin, w': SW.SendWin) {
    w'.pkts == w.pkts && w'.hasRetransmitted
  }

  /** Packets leave the window at its front, and nothing but empty packets is sent. */
  ghost predicate Moves(w: SW.SendWin, w': SW.SendWin, out: seq<Packet>) {
    && |w'.pkts| <= |w.pkts| && w'.pkts == w.pkts[|w.pkts| - |w'.pkts|..]
    && (w.hasRetransmitted && w'.pkts != [] ==> w'.hasRetransmitted)
    && (forall i :: 0 <= i < |out| ==> out[i].size == 0)
  }

  ghost predicate OneOfThree(e: Endpoint, o: Outcome) {
    o.Done? ==> Sends(e.snd, o.ep.snd, o.out) || Resends(e.snd, o.ep.snd) || Moves(e.snd, o.ep.snd, o.out)
  }

  lemma AckIsOneOfThree(e: Endpoint, p: Packet)
    ensures OneOfThree(e, HandleACK(e, p))
  {
  }

  lemma SynAckIsOneOfThree(e: Endpoint, p: Packet)
    ensures OneOfThree(e, HandleACKSYN(e, p))
  {
  }

  lemma SynIsOneOfThree(e: Endpoint, p: Packet)
    requires e.snd.size == 0 <==> e.snd.pkts == []
    ensures OneOfThree(e, HandleSYN(e, p))
  {
    assert e.snd.pkts + [] == e.snd.pkts;
  }

  /** So does whatever arrives. */
  lemma ArrivalIsOneOfThree(e: Endpoint, p: Packet)
    requires e.snd.size == 0 <==> e.snd.pkts == []
    ensures OneOfThree(e, HandleReceivedPacket(e, p))
  {
    if p.sync {
      if p.ack { SynAckIsOneOfThree(e, p); } else { SynIsOneOfThree(e, p); }
    } else if p.ack && !p.fin {
      AckIsOneOfThree(e, p);
    } else if HandleReceivedPacket(e, p).Done? {
      ArrivalAnswered(e, p);
    }
  }

  lemma ConnectIsOneOfThree(e: Endpoint)
    ensures OneOfThree(e, TryConnect(e))
  {
    assert e.snd.pkts + [] == e.snd.pkts;
  }

  lemma FinishIsOneOfThree(e: Endpoint)
    requires e.state == ESTABLISHED || e.state == CLOSE_WAIT
    ensures OneOfThree(e, SendFIN(e))
  {
  }

  lemma ListenIsOneOfThree(e: Endpoint)
    requires SW.ValidWin(e.snd)
    ensures OneOfThree(e, SendBufferListener(e))
  {
    RoundConserves(e);
  }

  lemma TimersAreOneOfThree(e: Endpoint)
    ensures OneOfThree(e, TimeoutReTransmitter(e)) && OneOfThree(e, ProbeWindowSize(e))
    ensures OneOfThree(e, Done(PushOverflow(e), []))
  {
    PushKeeps(e);
  }

  // ---------------------------------------------------------------------------
  // On the log

  /** A packet that has left the window never comes back, the flag stays set as
      long as the packet is in the window. */
  ghost predicate KarnStep(a: Node, a': Node, p: Packet) {
    && (p in a.log ==> p in a'.log)
    && (p in a.log && p !in a.ep.snd.pkts ==> p !in a'.ep.snd.pkts)
    && (p in a.ep.snd.pkts && p in a'.ep.snd.pkts && a.ep.snd.hasRetransmitted ==> a'.ep.snd.hasRetransmitted)
  }

  ghost predicate ResendFlags(a: Node, a': Node, p: Packet) {
    p in a.ep.snd.pkts && p in SentBetween(a, a') ==> a'.ep.snd.hasRetransmitted
  }

  /** What a log gains is new. */
  lemma NewIsNew(iss: nat, log: seq<Packet>, added: seq<Packet>, p: Packet)
    requires SeqLog(iss, log + added) && p in log
    ensures p !in added
  {
    var l := log + added;
    var j :| 0 <= j < |log| && log[j] == p;
    forall k | 0 <= k < |added| ensures added[k] != p {
      assert l[j] == p && l[|log| + k] == added[k];
      EdgeOrder(iss, l, j, |log| + k);
      assert l[|log| + k].seqNum == Edge(iss, l, |log| + k);
    }
  }

  lemma InWindow(a: Node, p: Packet)
    requires SendSide(a) && p in a.ep.snd.pkts
    ensures p in a.log && p.size > 0
  {
    var i :| 0 <= i < |a.ep.snd.pkts| && a.ep.snd.pkts[i] == p;
    var k := |a.log| - |a.ep.snd.pkts| + i;
    assert Same(a.log[k], p) && KindOk(a.log[k], k, |a.log|);
    assert a.log[k].seqNum == Edge(a.iss, a.log, k);
  }

  lemma ActKarn(a: Node, o: Outcome, a': Node, p: Packet)
    requires o.Done? && OneOfThree(a.ep, o) && Same(a', NodeAfter(a, o.ep, o.out))
    requires SendSide(a) && SendSide(a')
    ensures KarnStep(a, a', p) && ResendFlags(a, a', p)
  {
    var w, w' := a.ep.snd, o.ep.snd;
    if p in w.pkts { InWindow(a, p); }
    assert SentBetween(a, a') == o.out;
    if Sends(w, w', o.out) {
      assert Registered(a.ep, o.ep) == o.out;
      if p in a.log { NewIsNew(a.iss, a.log, o.out, p); }
    }
  }

  // ---------------------------------------------------------------------------
  // Steps and runs

  /** Nothing has happened to the sending half but a loss on its channel. */
  ghost predicate Untouched(a: Node, a': Node) {
    a'.ep.snd == a.ep.snd && a'.log == a.log && |a'.out| <= |a.out|
  }

  lemma UntouchedKarn(a: Node, a': Node, p: Packet)
    requires Untouched(a, a')
    ensures KarnStep(a, a', p) && ResendFlags(a, a', p)
  {
  }

  lemma Sides(sys: System, x: Side)
    requires Reachable(sys)
    ensures SendSide(Self(sys, x)) && SW.ValidWin(Self(sys, x).ep.snd)
    ensures Self(sys, x).ep.snd.size == 0 <==> Self(sys, x).ep.snd.pkts == []
  {
    var mc, ms := ReachableView(sys, x);
    var a := Self(sys, x);
    WindowValid(a.iss, a.log, a.ep.snd);
  }

  /** Side `y` acts on its own, or on a packet that `sys` no longer holds. */
  lemma SideActs(sys: System, y: Side, o: Outcome, x: Side, p: Packet)
    requires SendSide(Self(sys, y)) && SendSide(Self(Act(sys, y, o), y)) && OneOfThree(Self(sys, y).ep, o)
    ensures KarnStep(Self(sys, x), Self(Act(sys, y, o), x), p) && ResendFlags(Self(sys, x), Self(Act(sys, y, o), x), p)
  {
    if y == x && o.Done? {
      ActKarn(Self(sys, y), o, Self(Act(sys, y, o), y), p);
    } else {
      UntouchedKarn(Self(sys, x), Self(Act(sys, y, o), x), p);
    }
  }

  lemma DeliverKarn(sys: System, y: Side, o: Outcome, x: Side, p: Packet)
    requires Reachable(sys) && Enabled(sys, Deliver(y)) && Reachable(Apply(sys, Deliver(y)))
    requires Same(o, HandleReceivedPacket(Self(sys, y).ep, Self(sys, Peer(y)).out[0]))
    ensures var sys' := DoDeliver(sys, y, o);
            KarnStep(Self(sys, x), Self(sys', x), p) && ResendFlags(Self(sys, x), Self(sys', x), p)
  {
    Sides(sys, y);
    Sides(Apply(sys, Deliver(y)), y);
    ArrivalIsOneOfThree(Self(sys, y).ep, Self(sys, Peer(y)).out[0]);
    if y == x {
      SideActs(Lose(sys, Peer(y), 0), y, o, x, p);
    } else {
      UntouchedKarn(Self(sys, x), Self(DoDeliver(sys, y, o), x), p);
    }
  }

  lemma OwnKarn(sys: System, step: Step, y: Side, o: Outcome, x: Side, p: Packet)
    requires Reachable(sys) && Enabled(sys, step) && Reachable(Apply(sys, step))
    requires Same(Apply(sys, step), Act(sys, y, o)) && OneOfThree(Self(sys, y).ep, o)
    ensures var sys' := Apply(sys, step);
            KarnStep(Self(sys, x), Self(sys', x), p) && ResendFlags(Self(sys, x), Self(sys', x), p)
  {
    Sides(sys, y);
    Sides(Apply(sys, step), y);
    SideActs(sys, y, o, x, p);
  }

  /** Steps that leave every sending half alone. */
  lemma PassiveKarn(sys: System, step: Step, x: Side, p: Packet)
    requires Enabled(sys, step) && (step.Drop? || step.Read? || step.Write?)
    ensures var sys' := Apply(sys, step);
            KarnStep(Self(sys, x), Self(sys', x), p) && ResendFlags(Self(sys, x), Self(sys', x), p)
  {
    UntouchedKarn(Self(sys, x), Self(Apply(sys, step), x), p);
  }

  function Actor(step: Step): Side {
    match step
    case Listen(y) => y
    case Finish(y) => y
    case Timeout(y) => y
    case Probe(y) => y
    case PushUp(y) => y
    case _ => Client
  }

  /** What a side does of its own accord. */
  lemma OwnIsOneOfThree(sys: System, step: Step, y: Side) returns (o: Outcome)
    requires Reachable(sys) && Enabled(sys, step)
    requires step in {Listen(y), Finish(y), Timeout(y), Probe(y), PushUp(y)} || (step.Connect? && y.Client?)
    ensures Same(Apply(sys, step), Act(sys, y, o)) && OneOfThree(Self(sys, y).ep, o)
  {
    var e := Self(sys, y).ep;
    match step
    case Connect => o := TryConnect(e); ConnectIsOneOfThree(e);
    case Listen(_) => o := SendBufferListener(e); Sides(sys, y); ListenIsOneOfThree(e);
    case Finish(_) => o := SendFIN(e); FinishIsOneOfThree(e);
    case Timeout(_) => o := TimeoutReTransmitter(e); TimersAreOneOfThree(e);
    case Probe(_) => o := ProbeWindowSize(e); TimersAreOneOfThree(e);
    case PushUp(_) => o := Done(PushOverflow(e), []); TimersAreOneOfThree(e);
  }

  /** The host doubles the first SYN; that is no retransmission. */
  lemma StepKarn(sys: System, step: Step, x: Side, p: Packet)
    requires Reachable(sys) && Enabled(sys, step)
    ensures KarnStep(Self(sys, x), Self(Apply(sys, step), x), p)
    ensures !step.Create? ==> ResendFlags(Self(sys, x), Self(Apply(sys, step), x), p)
  {
    ReachableStep(sys, step);
    match step
    case Create =>
    case Deliver(y) =>
      DeliverKarn(sys, y, HandleReceivedPacket(Self(sys, y).ep, Self(sys, Peer(y)).out[0]), x, p);
    case Drop(_, _) => PassiveKarn(sys, step, x, p);
    case Read(_, _) => PassiveKarn(sys, step, x, p);
    case Write(_, _) => PassiveKarn(sys, step, x, p);
    case _ =>
      var y := Actor(step);
      var o := OwnIsOneOfThree(sys, step, y);
      OwnKarn(sys, step, y, o, x, p);
  }

  lemma {:induction false} GoneForGood(sys: System, steps: seq<Step>, x: Side, p: Packet)
    requires Reachable(sys) && IsRun(sys, steps)
    requires p in Self(sys, x).log && p !in Self(sys, x).ep.snd.pkts
    ensures p !in Self(After(sys, steps), x).ep.snd.pkts
    decreases |steps|
  {
    if steps != [] {
      StepKarn(sys, steps[0], x, p);
      ReachableStep(sys, steps[0]);
      GoneForGood(Apply(sys, steps[0]), steps[1..], x, p);
    }
  }

  lemma {:induction false} FlagStays(sys: System, steps: seq<Step>, x: Side, p: Packet)
    requires Reachable(sys) && IsRun(sys, steps)
    requires p in Self(sys, x).log && Self(sys, x).ep.snd.hasRetransmitted
    ensures p in Self(After(sys, steps), x).ep.snd.pkts ==> Self(After(sys, steps), x).ep.snd.hasRetransmitted
    decreases |steps|
  {
    if p !in Self(sys, x).ep.snd.pkts {
      GoneForGood(sys, steps, x, p);
    } else if steps != [] {
      StepKarn(sys, steps[0], x, p);
      ReachableStep(sys, steps[0]);
      if p in Self(Apply(sys, steps[0]), x).ep.snd.pkts {
        FlagStays(Apply(sys, steps[0]), steps[1..], x, p);
      } else {
        GoneForGood(Apply(sys, steps[0]), steps[1..], x, p);
      }
    }
  }

  lemma NothingMeasured(w: SW.SendWin)
    requires w.hasRetransmitted
    ensures forall ackNum {:trigger SW.NewAckedPacket(w, ackNum)} ::
              SW.NewAckedPacket(w, ackNum).Acked? ==> SW.NewAckedPacket(w, ackNum).result.rtt == SW.NoRtt
  {
  }

  lemma ResendSetsFlag(sys: System, step: Step, x: Side, p: Packet)
    requires Reachable(sys) && Enabled(sys, step) && !step.Create?
    requires p in Self(sys, x).ep.snd.pkts && p in SentBetween(Self(sys, x), Self(Apply(sys, step), x))
    ensures p in Self(Apply(sys, step), x).log && Self(Apply(sys, step), x).ep.snd.hasRetransmitted
    ensures Reachable(Apply(sys, step))
  {
    Sides(sys, x);
    InWindow(Self(sys, x), p);
    StepKarn(sys, step, x, p);
    ReachableStep(sys, step);
  }

  /** A step of any run sends a packet that is in the window already: because the
      timer expired, because a SYN came again, or because of three duplicates.
      However the run goes on, as long as the packet is unacknowledged the flag is
      set and no acknowledgement measures a round-trip time. */
  lemma KarnOverRuns(sys: System, step: Step, steps: seq<Step>, x: Side, p: Packet)
    requires Reachable(sys) && Enabled(sys, step) && !step.Create? && IsRun(Apply(sys, step), steps)
    requires p in Self(sys, x).ep.snd.pkts && p in SentBetween(Self(sys, x), Self(Apply(sys, step), x))
    ensures var w := Self(After(Apply(sys, step), steps), x).ep.snd;
            p in w.pkts ==>
              && w.hasRetransmitted
              && forall ackNum {:trigger SW.NewAckedPacket(w, ackNum)} ::
                   SW.NewAckedPacket(w, ackNum).Acked? ==> SW.NewAckedPacket(w, ackNum).result.rtt == SW.NoRtt
  {
    ResendSetsFlag(sys, step, x, p);
    FlagStays(Apply(sys, step), steps, x, p);
    var w := Self(After(Apply(sys, step), steps), x).ep.snd;
    if w.hasRetransmitted { NothingMeasured(w); }
  }
}
