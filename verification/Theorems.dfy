/** What every run of the two endpoints guarantees. Each statement is about a
    side `x` and its peer; `a` is always the sender of the stream in question. */
module Theorems {
  import opened Packets
  import opened Endpoints
  import opened Logs
  import opened Network
  import opened Invariants
  import opened SenderLemmas
  import opened ReceiverLemmas
  import opened Safety
  import SW = SendWindows
  import RW = RecvWindows

  lemma ReachableView(sys: System, x: Side) returns (mc: nat, ms: nat)
    requires Reachable(sys)
    ensures InvAt(Alive(sys), mc, ms) && View(x, Self(sys, x), Self(sys, Peer(x)), sys.live, mc, ms)
  {
    ReachableInv(sys);
    mc, ms :| InvAt(Alive(sys), mc, ms);
    InvFrom(Alive(sys), x, mc, ms);
    SealedView(x, Self(sys, x), Self(sys, Peer(x)), sys.live, mc, ms);
  }

  // ---------------------------------------------------------------------------
  // When a check trips

  /** In every reachable state an enabled step runs to its end, with no sanity
      check failing, nothing logged as fatal and no loop spinning, if and only if
      it is not a read after the end of the stream was consumed. */
  lemma AbortsExactly(sys: System, step: Step)
    requires Reachable(sys) && Enabled(sys, step)
    ensures Apply(sys, step).aborted <==> ReadsPastEnd(sys, step)
  {
    ReachableInv(sys);
    StepKeepsInv(sys, step);
  }

  // ---------------------------------------------------------------------------
  // The byte stream

  /** Bytes handed over by the receiver's position in sequence space. */
  function AcceptedBytes(iss: nat, base: nat, pipe: PipeState): int {
    if base == iss then 0 else base - iss - 1 - (if pipe == OPEN then 0 else 1)
  }

  lemma StreamOf(a: Node, b: Node, m: nat)
    requires SendSide(a) && Direction(a, b, m)
    ensures b.read + b.ep.recvBuf <= a.written
    ensures |b.read| + |b.ep.recvBuf| == AcceptedBytes(a.iss, b.ep.rcv.base, b.ep.pipe)
    ensures b.ep.pipe != OPEN ==> b.read + b.ep.recvBuf == a.written
  {
    PrefixBytesLe(a.log, m, |a.log|);
    assert a.log[..|a.log|] == a.log;
    if m > 0 {
      EdgeOrder(a.iss, a.log, 0, m);
      PrefixBytes(a.iss, a.log, m);
      assert KindOk(a.log[m - 1], m - 1, |a.log|);
    }
    if b.ep.pipe != OPEN {
      assert a.written + [] == a.written;
    }
  }

  /** End-to-end stream correctness. What the application at `b` has read and
      what waits in its receive buffer is a prefix of what the application at
      `a` wrote, and its length is fixed by the receive base: nothing is lost,
      duplicated or reordered. */
  lemma EndToEndStream(sys: System, x: Side)
    requires Reachable(sys)
    ensures var a, b := Self(sys, x), Self(sys, Peer(x));
            && b.read + b.ep.recvBuf <= a.written
            && |b.read| + |b.ep.recvBuf| == AcceptedBytes(a.iss, b.ep.rcv.base, b.ep.pipe)
  {
    var mc, ms := ReachableView(sys, x);
    StreamOf(Self(sys, x), Self(sys, Peer(x)), Fwd(x, mc, ms));
  }

  lemma EofOf(a: Node, b: Node, m: nat, size: nat)
    requires SendSide(a) && Direction(a, b, m) && ReadData(b.ep, size).DidRead? && ReadData(b.ep, size).ret == 0
    ensures b.read == a.written <==> size > 0 || b.ep.recvBuf == []
  {
    StreamOf(a, b, m);
    if b.ep.recvBuf == [] { assert b.read + [] == b.read; }
  }

  /** A read that returns zero has returned, together with the reads before it,
      everything the peer ever wrote, if and only if it asked for at least one
      byte or found nothing in the buffer. */
  lemma EofMeansEverythingRead(sys: System, x: Side, size: nat)
    requires Reachable(sys)
    requires ReadData(Self(sys, Peer(x)).ep, size).DidRead? && ReadData(Self(sys, Peer(x)).ep, size).ret == 0
    ensures Self(sys, Peer(x)).read == Self(sys, x).written <==> size > 0 || Self(sys, Peer(x)).ep.recvBuf == []
  {
    var mc, ms := ReachableView(sys, x);
    EofOf(Self(sys, x), Self(sys, Peer(x)), Fwd(x, mc, ms), size);
  }

  /** Once the end of the stream was consumed, the writer has nothing more to
      come: what was read stays equal to what was written for ever. */
  lemma ConsumedMeansComplete(sys: System, x: Side)
    requires Reachable(sys) && Self(sys, Peer(x)).ep.pipe == EOF_CONSUMED
    ensures Self(sys, Peer(x)).read == Self(sys, x).written
  {
    var mc, ms := ReachableView(sys, x);
    var b := Self(sys, Peer(x));
    StreamOf(Self(sys, x), b, Fwd(x, mc, ms));
    assert b.read + [] == b.read;
  }

  // ---------------------------------------------------------------------------
  // Flow control

  /** The right edge that an acknowledgement sent now would carry. */
  function AdvertisedEdge(b: Node): nat {
    AckEdgeOf(AckOf(b.ep, b.ep.rcv.base))
  }

  /** It is the edge of the room offered so far. */
  lemma EdgeIsRoom(a: Node, b: Node, m: nat)
    requires SendSide(a) && Direction(a, b, m)
    ensures AdvertisedEdge(b) == a.iss + Room(b) + (if m > 0 then 1 else 0) + (if b.ep.pipe != OPEN then 1 else 0)
    ensures b.ep.pipe != OPEN ==> m == |a.log| && HasFin(a.log)
    ensures |b.ep.recvBuf| + RecvFree(b.ep) % U16 == OfferedCap(b.ep)
  {
    StreamOf(a, b, m);
    BytesOffered(a.log, b, m);
    WindowIsRest(b.ep.recvCap, |b.ep.recvBuf|);
    if m > 0 { EdgeOrder(a.iss, a.log, 0, m); }
  }

  lemma BytesOffered(log: seq<Packet>, b: Node, m: nat)
    requires Streamed(log, m, b.ep, b.read) && |Bytes(log)| <= Room(b)
    ensures |b.ep.recvBuf| <= OfferedCap(b.ep)
  {
    PrefixBytesLe(log, m, |log|);
    assert log[..|log|] == log;
  }

  /** Flow control. Once its SYN is acknowledged and until its FIN is registered, a
      sender has no more unacknowledged than its window takes, and its window never
      reaches beyond the right edge its peer advertises; and nothing ever goes to
      the overflow queue. */
  lemma FlowControl(sys: System, x: Side)
    requires Reachable(sys)
    ensures var a, b := Self(sys, x), Self(sys, Peer(x));
            && b.ep.overflow == []
            && |b.ep.recvBuf| + RecvFree(b.ep) % U16 == OfferedCap(b.ep)
            && (Acked(a) > 0 && !HasFin(a.log) ==>
                  a.ep.snd.size <= a.ep.snd.capacity && a.ep.snd.base + a.ep.snd.capacity <= AdvertisedEdge(b))
  {
    var mc, ms := ReachableView(sys, x);
    EdgeIsRoom(Self(sys, x), Self(sys, Peer(x)), Fwd(x, mc, ms));
  }

  /** The right edges in flight. Of two acknowledgements the later one never carries
      a smaller right edge, none lies beyond what the receiver advertises now, and
      none takes back any of the window the sender has. */
  lemma EdgesInFlight(sys: System, x: Side)
    requires Reachable(sys)
    ensures var a, b := Self(sys, x), Self(sys, Peer(x));
            && (forall i, j :: 0 <= i < j < |b.out| && PureAck(b.out[i]) && PureAck(b.out[j]) ==>
                  AckEdgeOf(b.out[i]) <= AckEdgeOf(b.out[j]))
            && (forall i :: 0 <= i < |b.out| && PureAck(b.out[i]) ==>
                  && AckEdgeOf(b.out[i]) <= AdvertisedEdge(b)
                  && (Acked(a) > 0 && !HasFin(a.log) ==> a.ep.snd.base + a.ep.snd.capacity <= AckEdgeOf(b.out[i])))
  {
    var mc, ms := ReachableView(sys, x);
    var a, b, m := Self(sys, x), Self(sys, Peer(x)), Fwd(x, mc, ms);
    EdgeIsRoom(a, b, m);
    forall i | 0 <= i < |b.out| && PureAck(b.out[i]) ensures AckEdgeOf(b.out[i]) <= AdvertisedEdge(b) {
      assert AckOk(a.iss, a.log, Acked(a), m, b.out[i].ackNum);
    }
  }

  lemma LaterEdge(iss: nat, log: seq<Packet>, log': seq<Packet>, m: nat, m': nat)
    requires SeqLog(iss, log') && log <= log' && m <= m' <= |log'| && m <= |log|
    ensures Edge(iss, log, m) <= Edge(iss, log', m')
  {
    assert m > 0 ==> log[m - 1] == log'[m - 1];
    if m < m' { EdgeOrder(iss, log', m, m'); }
  }

  /** One direction of the invariant, under seal. */
  ghost predicate Stream(a: Node, b: Node, m: nat) {
    forall k :: Unseal(k) ==> SendSide(a) && Direction(a, b, m)
  }

  lemma SealedStream(x: Side, a: Node, b: Node, live: bool, mc: nat, ms: nat)
    requires Sealed(x, a, b, live, mc, ms)
    ensures Stream(a, b, Fwd(x, mc, ms))
  {
    SealedView(x, a, b, live, mc, ms);
  }

  /** One direction before and after a step. */
  lemma ReceiverAdvances(a: Node, b: Node, m: nat, a': Node, b': Node, m': nat)
    requires Stream(a, b, m) && Stream(a', b', m')
    requires Later(a, a') && Later(b, b') && m <= m'
    ensures b.ep.rcv.base <= b'.ep.rcv.base
    ensures AdvertisedEdge(b) <= AdvertisedEdge(b')
    ensures b.ep.pipe != OPEN ==> b'.ep.pipe != OPEN
  {
    assert Unseal(0);
    LaterEdge(a.iss, a.log, a'.log, m, m');
    EdgeIsRoom(a, b, m);
    EdgeIsRoom(a', b', m');
    if b.ep.pipe != OPEN { NothingAfterFin(a, a'); }
  }

  /** The FIN is the last packet a node ever registers. */
  lemma NothingAfterFin(a: Node, a': Node)
    requires SendSide(a) && SendSide(a') && Later(a, a') && HasFin(a.log)
    ensures a'.log == a.log
  {
    var k := |a.log| - 1;
    assert a'.log[k] == a.log[k];
    assert KindOk(a'.log[k], k, |a'.log|);
  }

  lemma ViewAdvances(x: Side, a: Node, b: Node, live: bool, mc: nat, ms: nat,
                     a': Node, b': Node, live': bool, mc': nat, ms': nat)
    requires Sealed(x, a, b, live, mc, ms) && Sealed(x, a', b', live', mc', ms')
    requires Later(a, a') && Later(b, b') && mc <= mc' && ms <= ms'
    ensures b.ep.rcv.base <= b'.ep.rcv.base
    ensures AdvertisedEdge(b) <= AdvertisedEdge(b')
    ensures b.ep.pipe != OPEN ==> b'.ep.pipe != OPEN
  {
    SealedStream(x, a, b, live, mc, ms);
    SealedStream(x, a', b', live', mc', ms');
    ReceiverAdvances(a, b, Fwd(x, mc, ms), a', b', Fwd(x, mc', ms'));
  }

  /** Along every step of every run the receive base never moves back, the right
      edge a receiver could advertise never moves left, and an end of stream is
      never unrecorded. A repeated SYN or SYN-ACK is no exception. */
  lemma RightEdgeNeverMovesLeft(sys: System, step: Step, x: Side)
    requires Reachable(sys) && Enabled(sys, step)
    ensures var b, b' := Self(sys, x), Self(Apply(sys, step), x);
            && b.ep.rcv.base <= b'.ep.rcv.base
            && AdvertisedEdge(b) <= AdvertisedEdge(b')
            && (b.ep.pipe != OPEN ==> b'.ep.pipe != OPEN)
  {
    ReachableInv(sys);
    if ReadsPastEnd(sys, step) {
      LateReadStops(sys, step);
    } else {
      var mc, ms :| InvAt(sys, mc, ms);
      var mc', ms' := StepAdvances(sys, step, mc, ms);
      SystemAdvances(sys, mc, ms, Apply(sys, step), mc', ms', x);
    }
  }

  lemma SystemAdvances(sys: System, mc: nat, ms: nat, sys': System, mc': nat, ms': nat, x: Side)
    requires InvAt(sys, mc, ms) && InvAt(sys', mc', ms') && BothLater(sys, sys') && mc <= mc' && ms <= ms'
    ensures Self(sys, x).ep.rcv.base <= Self(sys', x).ep.rcv.base
    ensures AdvertisedEdge(Self(sys, x)) <= AdvertisedEdge(Self(sys', x))
    ensures Self(sys, x).ep.pipe != OPEN ==> Self(sys', x).ep.pipe != OPEN
  {
    if x.Client? {
      SealedSwap(sys.c, sys.s, sys.live, mc, ms);
      SealedSwap(sys'.c, sys'.s, sys'.live, mc', ms');
      ViewAdvances(Server, sys.s, sys.c, sys.live, mc, ms, sys'.s, sys'.c, sys'.live, mc', ms');
    } else {
      ViewAdvances(Client, sys.c, sys.s, sys.live, mc, ms, sys'.c, sys'.s, sys'.live, mc', ms');
    }
  }

  // ---------------------------------------------------------------------------
  // Life cycle

  /** How far along the life of a connection is. */
  function Rank(e: Endpoint): nat {
    match e.state
    case CLOSED => if e.shutdown then 6 else 0
    case SYN_SENT => 1
    case SYN_RCVD => 1
    case ESTABLISHED => 2
    case FIN_WAIT_1 => 3
    case CLOSE_WAIT => 3
    case FIN_WAIT_2 => 4
    case CLOSING => 4
    case LAST_ACK => 4
    case TIME_WAIT => 5
  }

  /** What the log says about the state. */
  ghost predicate StateFacts(e: Endpoint, log: seq<Packet>) {
    && (e.shutdown ==> e.state == CLOSED && |log| >= 2)
    && (e.state == CLOSED && !e.shutdown <==> log == [])
    && (Handshaking(e.state) ==> |log| == 1)
  }

  lemma SealedState(x: Side, a: Node, b: Node, live: bool, mc: nat, ms: nat)
    requires Sealed(x, a, b, live, mc, ms)
    ensures StateFacts(a.ep, a.log)
  {
    SealedView(x, a, b, live, mc, ms);
    if a.ep.shutdown { assert KindOk(a.log[|a.log| - 1], |a.log| - 1, |a.log|); }
  }

  lemma RankClimbs(a: Node, a': Node)
    requires StateFacts(a.ep, a.log) && StateFacts(a'.ep, a'.log) && Later(a, a')
    ensures Rank(a.ep) <= Rank(a'.ep) && (Rank(a.ep) == Rank(a'.ep) ==> a'.ep.state == a.ep.state)
  {
  }

  /** Every state change of every run is an edge of the state diagram, and the
      diagram is climbed: no step, not even a repeated SYN, leads back. */
  lemma LifecycleIsMonotone(sys: System, step: Step, x: Side)
    requires Reachable(sys) && Enabled(sys, step)
    ensures var e, e' := Self(sys, x).ep, Self(Apply(sys, step), x).ep;
            && ForwardOrSame(e.state, e'.state)
            && Rank(e) <= Rank(e') && (Rank(e) == Rank(e') ==> e'.state == e.state)
  {
    StepStates(sys, step, x);
    RankClimbs(Self(sys, x), Self(Apply(sys, step), x));
  }

  /** What is known of the state before and after a step. */
  lemma StepStates(sys: System, step: Step, x: Side)
    requires Reachable(sys) && Enabled(sys, step)
    ensures var a, a' := Self(sys, x), Self(Apply(sys, step), x);
            StateFacts(a.ep, a.log) && StateFacts(a'.ep, a'.log) && Later(a, a')
  {
    ReachableInv(sys);
    var mc, ms :| InvAt(sys, mc, ms);
    if ReadsPastEnd(sys, step) {
      LateReadStops(sys, step);
      SystemStates(sys, mc, ms, sys, mc, ms, x);
    } else {
      var mc', ms' := StepAdvances(sys, step, mc, ms);
      SystemStates(sys, mc, ms, Apply(sys, step), mc', ms', x);
    }
  }

  lemma SystemStates(sys: System, mc: nat, ms: nat, sys': System, mc': nat, ms': nat, x: Side)
    requires InvAt(sys, mc, ms) && InvAt(sys', mc', ms') && BothLater(sys, sys')
    ensures var a, a' := Self(sys, x), Self(sys', x);
            StateFacts(a.ep, a.log) && StateFacts(a'.ep, a'.log) && Later(a, a')
  {
    InvFrom(sys, x, mc, ms);
    InvFrom(sys', x, mc', ms');
    SealedState(x, Self(sys, x), Self(sys, Peer(x)), sys.live, mc, ms);
    SealedState(x, Self(sys', x), Self(sys', Peer(x)), sys'.live, mc', ms');
  }

  // ---------------------------------------------------------------------------
  // Whole runs

  lemma {:induction false} RunExtends(sys: System, steps: seq<Step>, step: Step)
    requires IsRun(sys, steps) && Enabled(After(sys, steps), step)
    ensures IsRun(sys, steps + [step]) && Same(After(sys, steps + [step]), Apply(After(sys, steps), step))
    decreases |steps|
  {
    if steps == [] {
      assert steps + [step] == [step] && [step][1..] == [];
    } else {
      RunExtends(Apply(sys, steps[0]), steps[1..], step);
      assert (steps + [step])[1..] == steps[1..] + [step];
    }
  }

  lemma ReachableStep(sys: System, step: Step)
    requires Reachable(sys) && Enabled(sys, step)
    ensures Reachable(Apply(sys, step))
  {
    var g: Config, steps: seq<Step> :| ReachedBy(g, steps, sys);
    RunExtends(Init(g), steps, step);
    assert ReachedBy(g, steps + [step], Apply(sys, step));
  }

  /** From any reachable state on, over any run: the receive base, the right edge
      and the place in the life cycle of either side never go back. */
  lemma {:induction false} RunsOnlyAdvance(sys: System, steps: seq<Step>, x: Side)
    requires Reachable(sys) && IsRun(sys, steps)
    ensures var b, b' := Self(sys, x), Self(After(sys, steps), x);
            && b.ep.rcv.base <= b'.ep.rcv.base && AdvertisedEdge(b) <= AdvertisedEdge(b')
            && Rank(b.ep) <= Rank(b'.ep) && (b.ep.pipe != OPEN ==> b'.ep.pipe != OPEN)
    decreases |steps|
  {
    if steps != [] {
      RightEdgeNeverMovesLeft(sys, steps[0], x);
      LifecycleIsMonotone(sys, steps[0], x);
      ReachableStep(sys, steps[0]);
      RunsOnlyAdvance(Apply(sys, steps[0]), steps[1..], x);
    }
  }

  // ---------------------------------------------------------------------------
  // Repeated handshake packets

  lemma FirstEdge(iss: nat, log: seq<Packet>)
    requires LogOk(iss, log) && log != []
    ensures Edge(iss, log, 1) == iss + 1
  {
    EdgeOrder(iss, log, 0, 1);
    assert KindOk(log[0], 0, |log|);
  }

  /** Once the server has registered its SYN-ACK, every further SYN that is about
      to be delivered finds its receive base at one above the SYN: the window
      ignores it and the check on the base passes. */
  lemma RepeatedSynHarmless(sys: System)
    requires Reachable(sys) && sys.s.log != [] && sys.c.out != [] && sys.c.out[0].sync
    ensures var p, w := sys.c.out[0], sys.s.ep.rcv;
            && p.seqNum == sys.c.iss && w.base == Wrap(p.seqNum + 1)
            && RW.ReceivePacket(w, p) == RW.Received(w, w.base, [])
  {
    var mc, ms := ReachableView(sys, Client);
    FirstEdge(sys.c.iss, sys.c.log);
    SynIsOld(sys.c, sys.s.ep.rcv);
  }

  lemma SynIsOld(c: Node, w: RW.RecvWin)
    requires SeqUse(c) < U32 && c.out != [] && c.out[0].sync && SynOk(c.out[0], c.iss) && w.base == c.iss + 1
    ensures c.out[0].seqNum == c.iss && w.base == Wrap(c.out[0].seqNum + 1)
    ensures RW.ReceivePacket(w, c.out[0]) == RW.Received(w, w.base, [])
  {
  }

  /** Once the client is connected, every SYN-ACK still in flight overwrites its
      receive base with the value it has, and nothing is buffered above it. */
  lemma RepeatedSynAckHarmless(sys: System, i: nat)
    requires Reachable(sys) && sys.c.ep.state != SYN_SENT && i < |sys.s.out| && sys.s.out[i].sync
    ensures sys.c.ep.rcv == RW.RecvWin(Wrap(sys.s.out[i].seqNum + 1), [])
  {
    var mc, ms := ReachableView(sys, Client);
    SynAckIsTaken(sys.c, sys.s, mc, ms, sys.live, i);
  }

  lemma SynAckIsTaken(c: Node, s: Node, mc: nat, ms: nat, live: bool, i: nat)
    requires SendSide(s) && Direction(s, c, mc) && Handshake(c, s, live, mc, ms) && SendSide(c)
    requires c.ep.state != SYN_SENT && i < |s.out| && s.out[i].sync
    ensures c.ep.rcv == RW.RecvWin(Wrap(s.out[i].seqNum + 1), [])
  {
    assert SynAckOk(s.out[i], c.iss + 1, Room(s)) && Shape(s.log, Acked(s), s.out[i]);
    FirstEdge(s.iss, s.log);
  }

  // ---------------------------------------------------------------------------
  // Packets and acknowledgements in flight

  /** Above the receive base there is at most one copy of every packet, counting
      the channel and the receive list, and every copy is the packet that was
      registered under its sequence number: no two packets in the channel share a
      number above the base, none shares one with the list, and the list has none
      twice. */
  lemma NoDuplicateAboveBase(sys: System, x: Side)
    requires Reachable(sys)
    ensures var a, b := Self(sys, x), Self(sys, Peer(x));
            var ch, list := a.out, b.ep.rcv.list;
            && (forall i :: 0 <= i < |ch| && ch[i].size > 0 ==> ch[i] in a.log)
            && (forall i, j :: 0 <= i < j < |ch| && ch[i].size > 0 && ch[j].size > 0 && ch[i].seqNum > b.ep.rcv.base ==>
                  ch[i].seqNum != ch[j].seqNum)
            && (forall i, k :: 0 <= i < |ch| && 0 <= k < |list| && ch[i].size > 0 ==> ch[i].seqNum != list[k].seqNum)
            && (forall k :: 0 <= k < |list| ==> list[k] in a.log && list[k].seqNum > b.ep.rcv.base)
            && (forall k, l :: 0 <= k < l < |list| ==> list[k].seqNum != list[l].seqNum)
  {
    var mc, ms := ReachableView(sys, x);
    var a := Self(sys, x);
    forall i | 0 <= i < |a.out| && a.out[i].size > 0 ensures a.out[i] in a.log {
      assert Shape(a.log, Acked(a), a.out[i]);
    }
  }

  /** Every acknowledgement in flight is at or above the send base and at or
      below the next number to send, acknowledges whole packets of the window,
      and the window takes it without tripping a check. */
  lemma AcksNeverStale(sys: System, x: Side, i: nat)
    requires Reachable(sys)
    requires i < |Self(sys, Peer(x)).out| && PureAck(Self(sys, Peer(x)).out[i])
    ensures var w, ackNum := Self(sys, x).ep.snd, Self(sys, Peer(x)).out[i].ackNum;
            && w.base <= ackNum <= SW.NextSeqNumberToSend(w)
            && !SW.AckOverflow(w, ackNum)
            && SW.NewAckedPacket(w, ackNum).Acked?
            && (ackNum == w.base || exists j :: SW.AcksPrefix(w, ackNum, j))
  {
    var mc, ms := ReachableView(sys, x);
    var a, b := Self(sys, x), Self(sys, Peer(x));
    var ackNum := b.out[i].ackNum;
    assert AckOk(a.iss, a.log, Acked(a), Fwd(x, mc, ms), ackNum);
    var k :| 1 <= k <= Fwd(x, mc, ms) && Acked(a) <= k && k <= |a.log| && ackNum == Edge(a.iss, a.log, k);
    AckAtEdge(a.iss, a.log, a.ep.snd, k);
  }

  lemma AckAtEdge(iss: nat, log: seq<Packet>, w: SW.SendWin, k: nat)
    requires SeqLog(iss, log) && WindowOk(iss, log, w) && |log| - |w.pkts| <= k <= |log|
    ensures var ackNum := Edge(iss, log, k);
            && w.base <= ackNum <= SW.NextSeqNumberToSend(w)
            && !SW.AckOverflow(w, ackNum)
            && SW.NewAckedPacket(w, ackNum).Acked?
            && (ackNum == w.base || exists j :: SW.AcksPrefix(w, ackNum, j))
  {
    var n := |log| - |w.pkts|;
    AckEdge(iss, log, w, k);
    WindowValid(iss, log, w);
    if k < |log| { EdgeOrder(iss, log, k, |log|); }
    if n < k {
      EdgeOrder(iss, log, n, k);
      PrefixSize(iss, log, w.pkts, n, k - n);
      assert SW.AcksPrefix(w, Edge(iss, log, k), k - n);
    }
  }

  // ---------------------------------------------------------------------------
  // Close, timers

  /** A completed close means delivery: a side that reached FIN_WAIT_2, or was
      closed by the acknowledgement it waited for in LAST_ACK, knows that its
      peer has accepted every byte it wrote and recorded the end of the stream. */
  lemma CloseMeansDelivered(sys: System, x: Side)
    requires Reachable(sys)
    requires Self(sys, x).ep.state == FIN_WAIT_2 || (Self(sys, x).ep.state == CLOSED && Self(sys, x).ep.shutdown)
    ensures var a, b := Self(sys, x), Self(sys, Peer(x));
            b.read + b.ep.recvBuf == a.written && b.ep.pipe != OPEN && a.ep.sendBuf == []
  {
    var mc, ms := ReachableView(sys, x);
    StreamOf(Self(sys, x), Self(sys, Peer(x)), Fwd(x, mc, ms));
  }

  /** At every step boundary of every run the retransmission timer runs exactly
      when there are unacknowledged packets. */
  lemma TimerCoversWindow(sys: System, x: Side)
    requires Reachable(sys)
    ensures Self(sys, x).ep.timer <==> Self(sys, x).ep.snd.pkts != []
  {
    var mc, ms := ReachableView(sys, x);
  }
}
