/** The last acknowledgement may close a side before its peer's data has come: when
    that can happen. */
module EarlyClose {
  import opened Packets
  import opened Endpoints
  import opened Logs
  import opened Network
  import opened Invariants
  import opened SenderLemmas
  import opened PairSteps
  import opened DeliverSteps
  import opened Delivery
  import opened Safety
  import opened Theorems
  import opened Progress
  import opened FinStates
  import opened LastAcks
  import opened Draining
  import opened Pipeline
  import SW = SendWindows

  // ---------------------------------------------------------------------------
  // What is missing

  /** A side in LAST_ACK whose stream is still open lacks bytes of its peer. */
  lemma LastAckLacks(sys: System, y: Side)
    requires Reachable(sys) && Self(sys, y).ep.state == LAST_ACK && Self(sys, y).ep.pipe == OPEN
    ensures |Self(sys, y).read + Self(sys, y).ep.recvBuf| < |Self(sys, Peer(y)).written|
  {
    StatesAreGenuine(sys, y);
    var mc, ms := ReachableView(sys, y);
    BufferedFinLacks(Self(sys, Peer(y)), Self(sys, y), Bwd(y, mc, ms));
  }

  /** Its peer is up. */
  lemma LastAckPeerUp(sys: System, y: Side)
    requires Reachable(sys) && Self(sys, y).ep.pipe == OPEN
    ensures !Self(sys, Peer(y)).ep.shutdown
  {
    assert Peer(Peer(y)) == y;
    StateOf(sys, Peer(y));
    if Self(sys, Peer(y)).ep.shutdown { CloseMeansDelivered(sys, Peer(y)); }
  }

  lemma StateOf(sys: System, x: Side)
    requires Reachable(sys)
    ensures StateFacts(Self(sys, x).ep, Self(sys, x).log)
  {
    ReachableInv(sys);
    var mc, ms :| InvAt(Alive(sys), mc, ms);
    InvState(Alive(sys), mc, ms, x);
  }

  lemma InvState(sys: System, mc: nat, ms: nat, x: Side)
    requires InvAt(sys, mc, ms)
    ensures StateFacts(Self(sys, x).ep, Self(sys, x).log)
  {
    InvFrom(sys, x, mc, ms);
    SealedState(x, Self(sys, x), Self(sys, Peer(x)), sys.live, mc, ms);
  }

  lemma BufferedFinLacks(a: Node, b: Node, m: nat)
    requires SendSide(a) && Direction(a, b, m) && 0 < m && HoldsFin(b.ep.rcv.list)
    ensures |b.read + b.ep.recvBuf| < |a.written|
  {
    var i :| 0 <= i < |b.ep.rcv.list| && b.ep.rcv.list[i].fin;
    var p, k := b.ep.rcv.list[i], |a.log| - 1;
    FinIsLast(a, p);
    EdgeOrder(a.iss, a.log, k, |a.log|);
    MoreBytes(a.iss, a.log, m);
  }

  /** The packet after the first `m`, if it is not the last, carries bytes. */
  lemma MoreBytes(iss: nat, log: seq<Packet>, m: nat)
    requires LogOk(iss, log) && 0 < m && m + 1 < |log|
    ensures |Bytes(log[..m])| < |Bytes(log)|
  {
    EdgeOrder(iss, log, m, |log|);
    assert KindOk(log[m], m, |log|);
    PrefixBytesLe(log, m, m + 1);
    PrefixBytesLe(log, m + 1, |log|);
    assert log[m..m + 1] == [log[m]] && [log[m]][1..] == [] && log[..|log|] == log;
  }

  // ---------------------------------------------------------------------------
  // Runs in which side `y` gets nothing but acknowledgements

  predicate Segment(p: Packet) {
    KindOf(p).Data? || KindOf(p).Fin?
  }

  /** Side `y` waits for its last acknowledgement, or has had it; only segments of
      its own and acknowledgements of its peer are in flight. */
  ghost predicate OneWay(sys: System, y: Side) {
    && (Self(sys, y).ep.state == LAST_ACK || (Self(sys, y).ep.state == CLOSED && Self(sys, y).ep.shutdown))
    && (forall i :: 0 <= i < |Self(sys, y).out| ==> Segment(Self(sys, y).out[i]))
    && (forall i :: 0 <= i < |Self(sys, Peer(y)).out| ==> KindOf(Self(sys, Peer(y)).out[i]).Ack?)
  }

  /** What side `y` has received, and what its peer has written, is the same. */
  ghost predicate NothingCame(sys: System, z: System, y: Side) {
    && Self(z, y).read == Self(sys, y).read && Self(z, y).ep.recvBuf == Self(sys, y).ep.recvBuf
    && Self(z, Peer(y)).written == Self(sys, Peer(y)).written
  }

  lemma BaseIsSegment(sys: System, y: Side)
    requires Inv(sys) && OneWay(sys, y) && Self(sys, y).ep.snd.pkts != []
    ensures Segment(Self(sys, y).ep.snd.pkts[0])
  {
    var mc, ms :| InvAt(sys, mc, ms);
    InvFrom(sys, y, mc, ms);
    BaseFacts(y, Self(sys, y), Self(sys, Peer(y)), sys.live, mc, ms);
  }

  lemma OneWayTimeout(sys: System, y: Side)
    requires Inv(sys) && OneWay(sys, y) && Enabled(sys, Timeout(y))
    ensures var z := Apply(sys, Timeout(y)); OneWay(z, y) && NothingCame(sys, z, y)
  {
    if Self(sys, y).ep.snd.pkts != [] { BaseIsSegment(sys, y); }
    assert Same(Self(Apply(sys, Timeout(y)), Peer(y)), Self(sys, Peer(y)));
  }

  /** The peer answers a segment with an acknowledgement. */
  lemma OneWayOut(sys: System, y: Side)
    requires Inv(sys) && OneWay(sys, y) && Enabled(sys, Deliver(Peer(y)))
    ensures var z := Apply(sys, Deliver(Peer(y))); OneWay(z, y) && NothingCame(sys, z, y)
  {
    var x := Peer(y);
    var mc, ms :| InvAt(sys, mc, ms);
    InvFrom(sys, x, mc, ms);
    assert Peer(x) == y;
    var a, b := Self(sys, x), Self(sys, y);
    var o := Handler(KindOf(b.out[0]), a.ep, b.out[0]);
    SegmentAnswered(x, a, b, sys.live, mc, ms, o);
    DeliverStep(sys, x, o);
  }

  lemma SegmentAnswered(x: Side, a: Node, b: Node, live: bool, mc: nat, ms: nat, o: Outcome)
    requires Sealed(x, a, b, live, mc, ms) && b.out != [] && Segment(b.out[0])
    requires o == Handler(KindOf(b.out[0]), a.ep, b.out[0])
    ensures o.Done? && |o.out| == 1 && KindOf(o.out[0]).Ack?
  {
    HeadKind(x, a, b, live, mc, ms);
    assert Same(a.ep, a.ep.(state := a.ep.state));
    var state := if KindOf(b.out[0]).Fin? then StateOnFIN(a.ep.state) else a.ep.state;
    var m' := DataView(x, a, b, live, mc, ms, state, o);
  }

  /** Side `y` takes an acknowledgement. */
  lemma OneWayBack(sys: System, y: Side)
    requires Inv(sys) && OneWay(sys, y) && Enabled(sys, Deliver(y))
    ensures var z := Apply(sys, Deliver(y)); OneWay(z, y) && NothingCame(sys, z, y)
  {
    var mc, ms :| InvAt(sys, mc, ms);
    InvFrom(sys, y, mc, ms);
    var a, b := Self(sys, y), Self(sys, Peer(y));
    var o := HandleACK(a.ep, b.out[0]);
    AckTakenQuietly(y, a, b, sys.live, mc, ms, o);
    if o.out != [] { BaseIsSegment(sys, y); }
    DeliverStep(sys, y, o);
  }

  lemma AckTakenQuietly(y: Side, a: Node, b: Node, live: bool, mc: nat, ms: nat, o: Outcome)
    requires Sealed(y, a, b, live, mc, ms) && Present(y, live) && b.out != [] && KindOf(b.out[0]).Ack?
    requires a.ep.state == LAST_ACK || (a.ep.state == CLOSED && a.ep.shutdown)
    requires o == HandleACK(a.ep, b.out[0])
    ensures o.Done? && o.ep.recvBuf == a.ep.recvBuf
    ensures o.ep.state == LAST_ACK || (o.ep.state == CLOSED && o.ep.shutdown)
    ensures o.out == [] || (a.ep.snd.pkts != [] && o.out == [a.ep.snd.pkts[0]])
  {
    var e, o' := AckFacts(y, a, b, live, mc, ms);
    AckAboveStart(y, a, b, live, mc, ms);
    if b.out[0].ackNum == a.ep.snd.base {
      DuplicateAck(y, a, b, live, mc, ms, o);
    } else {
      AckView(y, a, b, live, mc, ms, o);
    }
  }

  predicate OneWayStep(step: Step, y: Side) {
    step == Timeout(y) || step == Deliver(Peer(y)) || step == Deliver(y)
  }

  lemma {:induction false} OneWayRun(sys: System, steps: seq<Step>, z: System, y: Side)
    requires Inv(sys) && OneWay(sys, y) && Leads(sys, steps, z)
    requires forall k :: 0 <= k < |steps| ==> OneWayStep(steps[k], y)
    ensures Inv(z) && OneWay(z, y) && NothingCame(sys, z, y)
    decreases |steps|
  {
    if steps == [] {
      LeadsIs(sys, steps, z);
    } else {
      LeadsFirst(sys, steps, z);
      var sys1 := Apply(sys, steps[0]);
      StepKeepsInv(sys, steps[0]);
      assert Same(Alive(sys1), sys1);
      if steps[0] == Timeout(y) {
        OneWayTimeout(sys, y);
      } else if steps[0] == Deliver(y) {
        OneWayBack(sys, y);
      } else {
        OneWayOut(sys, y);
      }
      OneWayRun(sys1, steps[1..], z, y);
    }
  }

  // ---------------------------------------------------------------------------
  // Losing everything in flight

  lemma {:induction false} NoneSurvive<T>(batch: seq<T>, keep: seq<bool>)
    requires |keep| == |batch| && forall i :: 0 <= i < |keep| ==> !keep[i]
    ensures Survivors(batch, keep) == []
  {
    if batch != [] { NoneSurvive(batch[1..], keep[1..]); }
  }

  /** The channel of side `x` loses all it holds. */
  lemma LoseAll(sys: System, x: Side) returns (steps: seq<Step>, z: System)
    requires Inv(sys)
    ensures Leads(sys, steps, z) && Inv(z) && Same(z, With(sys, x, Self(sys, x).(out := [])))
  {
    var out := Self(sys, x).out;
    var keep := seq(|out|, i => false);
    assert [] + out + [] == out;
    steps := LossIsDrops(sys, x, [], out, keep, []);
    NoneSurvive(out, keep);
    assert [] + Survivors(out, keep) + [] == Survivors(out, keep);
    z := After(sys, steps);
    LeadsIs(sys, steps, z);
    LeadsKeeps(sys, steps, z);
  }

  // ---------------------------------------------------------------------------
  // The exact condition

  /** Side `y` is closed and lacks bytes that its peer wrote. */
  ghost predicate ClosedShort(z: System, y: Side) {
    Self(z, y).ep.shutdown && Self(z, y).read + Self(z, y).ep.recvBuf != Self(z, Peer(y)).written
  }

  ghost predicate MayCloseShort(sys: System, y: Side) {
    exists steps :: IsRun(sys, steps) && ClosedShort(After(sys, steps), y)
  }

  lemma {:induction false} ReachableRun(sys: System, steps: seq<Step>)
    requires Reachable(sys) && IsRun(sys, steps)
    ensures Reachable(After(sys, steps))
    decreases |steps|
  {
    if steps != [] {
      ReachableStep(sys, steps[0]);
      ReachableRun(Apply(sys, steps[0]), steps[1..]);
    }
  }

  /** An ended stream stays whole. */
  lemma EndedStaysWhole(sys: System, steps: seq<Step>, y: Side)
    requires Reachable(sys) && IsRun(sys, steps) && Self(sys, y).ep.pipe != OPEN
    ensures !ClosedShort(After(sys, steps), y)
  {
    var z := After(sys, steps);
    RunsOnlyAdvance(sys, steps, y);
    ReachableRun(sys, steps);
    var mc, ms := ReachableView(z, y);
    StreamOf(Self(z, Peer(y)), Self(z, y), Bwd(y, mc, ms));
  }

  /** Lose what is in flight, let `y` send its segments again and take the
      acknowledgements: its last one closes it. */
  lemma CloseShort(sys: System, y: Side) returns (steps: seq<Step>, z: System)
    requires Reachable(sys) && !sys.aborted && Self(sys, y).ep.state == LAST_ACK && Self(sys, y).ep.pipe == OPEN
    ensures Leads(sys, steps, z) && Self(z, y).ep.shutdown && NothingCame(sys, z, y)
  {
    ReachableInv(sys);
    LastAckPeerUp(sys, y);
    StateOf(sys, y);
    StatesAreGenuine(sys, y);
    ConnectedIsLive(sys, y);
    var s1, sys1 := LoseAll(sys, y);
    var s2, sys2 := LoseAll(sys1, Peer(y));
    var s3;
    s3, z := AcknowledgeAll(sys2, y);
    LeadsAppend(sys, s1, sys1, s2, sys2);
    LeadsAppend(sys, s1 + s2, sys2, s3, z);
    steps := s1 + s2 + s3;
    LeadsIs(sys, steps, z);
    ReachableRun(sys, steps);
    StatesAreGenuine(z, y);
  }

  lemma AcknowledgeAll(sys: System, y: Side) returns (steps: seq<Step>, z: System)
    requires Inv(sys) && OneWay(sys, y) && sys.live && Quiescent(Self(sys, y), Self(sys, Peer(y)))
    ensures Leads(sys, steps, z) && OneWay(z, y) && NothingCame(sys, z, y) && Self(z, y).ep.snd.pkts == []
  {
    var k;
    k, z := RoundsFromLead(sys, y);
    steps := RoundsFrom(true, y, k);
    if k > 0 { RoundsOneWay(y, k - 1); }
    OneWayRun(sys, steps, z, y);
  }

  lemma {:induction false} RoundsOneWay(y: Side, k: nat)
    ensures forall i :: 0 <= i < |Rounds(y, k)| ==> OneWayStep(Rounds(y, k)[i], y)
  {
    if k > 0 { RoundsOneWay(y, k - 1); }
  }

  /** For every running reachable state with side `y` in LAST_ACK: some run closes
      `y` with bytes of its peer missing, if and only if the stream it receives has
      not ended yet. */
  lemma ClosesShortExactly(sys: System, y: Side)
    requires Reachable(sys) && !sys.aborted && Self(sys, y).ep.state == LAST_ACK
    ensures MayCloseShort(sys, y) <==> Self(sys, y).ep.pipe == OPEN
  {
    if Self(sys, y).ep.pipe == OPEN {
      LastAckLacks(sys, y);
      var steps, z := CloseShort(sys, y);
      LeadsIs(sys, steps, z);
      assert ClosedShort(After(sys, steps), y);
    } else if steps :| IsRun(sys, steps) && ClosedShort(After(sys, steps), y) {
      EndedStaysWhole(sys, steps, y);
    }
  }
}
