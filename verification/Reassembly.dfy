/** Feeding a receive window with the packets of a log, in any order. */
module Reassembly {
  import opened Packets
  import opened RecvWindows
  import opened Logs

  ghost predicate AllIn(list: seq<Packet>, log: seq<Packet>) {
    forall i :: 0 <= i < |list| ==> list[i] in log
  }

  ghost predicate Sorted(list: seq<Packet>) {
    forall i, j :: 0 <= i < j < |list| ==> list[i].seqNum < list[j].seqNum
  }

  ghost predicate AllAbove(list: seq<Packet>, base: nat) {
    forall i :: 0 <= i < |list| ==> list[i].seqNum > base
  }

  /** The window has accepted the first `m` packets of the log and buffers some
      later ones, strictly sorted. */
  ghost predicate RecvOk(iss: nat, log: seq<Packet>, m: nat, w: RecvWin) {
    && m <= |log| && w.base == Edge(iss, log, m)
    && AllIn(w.list, log) && AllAbove(w.list, w.base) && Sorted(w.list)
  }

  /** An acknowledged packet changes nothing. */
  lemma ReceiveOld(iss: nat, log: seq<Packet>, m: nat, w: RecvWin, k: nat)
    requires SeqLog(iss, log) && RecvOk(iss, log, m, w) && k < m
    ensures ReceivePacket(w, log[k]) == Received(w, w.base, [])
  {
    EdgeOrder(iss, log, k, m);
  }

  /** A second copy of a buffered packet trips the overlap check. */
  lemma ReceiveBufferedAborts(iss: nat, log: seq<Packet>, m: nat, w: RecvWin, p: Packet)
    requires SeqLog(iss, log) && RecvOk(iss, log, m, w) && p in w.list
    ensures ReceivePacket(w, p) == RecvAbort
  {
    var i := Position(w.list, p.seqNum);
    var k :| 0 <= k < |w.list| && w.list[k] == p;
    LogUnique(iss, log, p, p);
    assert i <= k && w.list[i].seqNum <= p.seqNum;
  }

  lemma NewPacketFits(iss: nat, log: seq<Packet>, m: nat, w: RecvWin, p: Packet)
    requires SeqLog(iss, log) && RecvOk(iss, log, m, w)
    requires p in log && p !in w.list
    ensures Fits(w.list, p)
    ensures Position(w.list, p.seqNum) < |w.list| ==> p.seqNum < w.list[Position(w.list, p.seqNum)].seqNum
  {
    var i := Position(w.list, p.seqNum);
    forall k | 0 <= k < |w.list|
      ensures w.list[k].seqNum != p.seqNum
      ensures w.list[k].seqNum < p.seqNum ==> End(w.list[k]) <= p.seqNum
      ensures p.seqNum < w.list[k].seqNum ==> End(p) <= w.list[k].seqNum
    {
      LogUnique(iss, log, w.list[k], p);
      LogUnique(iss, log, p, w.list[k]);
    }
  }

  lemma InsertSorted(list: seq<Packet>, p: Packet)
    requires Sorted(list)
    requires forall k :: 0 <= k < |list| ==> list[k].seqNum != p.seqNum
    ensures var l := Insert(list, p);
            && Sorted(l)
            && Adds(l, list, p)
  {
    var i := Position(list, p.seqNum);
    InsertAdds(list, i, p);
  }

  /** An out-of-order packet is filed away. */
  lemma ReceiveAhead(iss: nat, log: seq<Packet>, m: nat, w: RecvWin, p: Packet)
    requires SeqLog(iss, log) && RecvOk(iss, log, m, w)
    requires p in log && p !in w.list && p.seqNum > w.base
    ensures var w' := RecvWin(w.base, Insert(w.list, p));
            && ReceivePacket(w, p) == Received(w', w.base, [])
            && RecvOk(iss, log, m, w')
            && Adds(w'.list, w.list, p)
  {
    NewPacketFits(iss, log, m, w, p);
    forall k | 0 <= k < |w.list| ensures w.list[k].seqNum != p.seqNum {
      LogUnique(iss, log, w.list[k], p);
    }
    InsertSorted(w.list, p);
  }

  /** The packet after `log[m]` in a sorted list continues the log, or starts
      above a gap; the code's contiguity test tells which. */
  lemma RunStep(iss: nat, log: seq<Packet>, m: nat, q: Packet)
    requires SeqLog(iss, log) && m < |log| && q in log && log[m].seqNum < q.seqNum
    ensures if End(log[m]) == q.seqNum then m + 1 < |log| && Same(q, log[m + 1])
            else q.seqNum > Edge(iss, log, m + 1)
  {
    EdgeOrder(iss, log, m, |log|);
    LogUnique(iss, log, log[m], q);
    if End(log[m]) == q.seqNum {
      LogAtEdge(iss, log, q, m + 1);
    }
  }

  /** The run through packet `i` of a sorted list whose first packets are those
      of the log from `m` on is a stretch of the log, and the packet that ends
      the run starts above it. */
  lemma {:induction false} RunIsLog(iss: nat, log: seq<Packet>, m: nat, list: seq<Packet>, i: nat)
    requires SeqLog(iss, log) && i < |list| && m + i < |log|
    requires AllIn(list, log) && Sorted(list)
    requires IsStretch(list[..i + 1], log, m)
    ensures var n := RunEnd(list, i);
            && IsStretch(list[..n], log, m)
            && End(list[n - 1]) == Edge(iss, log, m + n)
            && (n < |list| ==> list[n].seqNum > Edge(iss, log, m + n))
    decreases |list| - i
  {
    StretchEnd(iss, log, m, list, i + 1);
    if i + 1 < |list| {
      RunStep(iss, log, m + i, list[i + 1]);
      if End(list[i]) == list[i + 1].seqNum {
        StretchMore(list, log, m, i + 1);
        RunIsLog(iss, log, m, list, i + 1);
      }
    }
  }

  /** The expected packet is accepted together with everything that follows it
      without a gap; nothing that remains starts at the new base. */
  lemma ReceiveNext(iss: nat, log: seq<Packet>, m: nat, w: RecvWin) returns (m': nat)
    requires SeqLog(iss, log) && RecvOk(iss, log, m, w) && m < |log|
    ensures m < m' <= |log|
    ensures var r := ReceivePacket(w, log[m]);
            && r.Received? && m' == m + |r.chain| && IsStretch(r.chain, log, m) && r.ackNum == r.win.base
            && RecvOk(iss, log, m', r.win)
            && Adds(r.chain + r.win.list, w.list, log[m])
            && (m' < |log| ==> log[m'] !in r.win.list)
  {
    var list := ReceiveNextIs(iss, log, m, w);
    var n := CutOff(iss, log, m, list);
    m' := m + n;
    NotAtBase(iss, log, m', list[n..]);
  }

  /** Cutting the run off a sorted list that starts with `log[m]`. */
  lemma CutOff(iss: nat, log: seq<Packet>, m: nat, list: seq<Packet>) returns (n: nat)
    requires SeqLog(iss, log) && m < |log| && list != [] && Same(list[0], log[m])
    requires AllIn(list, log) && Sorted(list)
    ensures n == RunEnd(list, 0) && m + n <= |log|
    ensures IsStretch(list[..n], log, m) && End(list[n - 1]) == Edge(iss, log, m + n)
    ensures RecvOk(iss, log, m + n, RecvWin(Edge(iss, log, m + n), list[n..]))
  {
    n := RunEnd(list, 0);
    FirstStretch(list, log, m);
    RunIsLog(iss, log, m, list, 0);
    DrainRest(iss, log, list, n, m + n);
  }

  lemma NotAtBase(iss: nat, log: seq<Packet>, m: nat, list: seq<Packet>)
    requires SeqLog(iss, log) && m <= |log| && AllAbove(list, Edge(iss, log, m))
    ensures m < |log| ==> log[m] !in list
  {
    if m < |log| {
      EdgeOrder(iss, log, m, |log|);
    }
  }

  /** What the code returns for the expected packet: it goes to the front of the
      list, and the run through it is cut off. */
  lemma ReceiveNextIs(iss: nat, log: seq<Packet>, m: nat, w: RecvWin) returns (list: seq<Packet>)
    requires SeqLog(iss, log) && RecvOk(iss, log, m, w) && m < |log|
    ensures list != [] && Same(list[0], log[m]) && AllIn(list, log) && Sorted(list)
    ensures var n := RunEnd(list, 0);
            && ReceivePacket(w, log[m]) ==
                 Received(RecvWin(End(list[n - 1]), list[n..]), End(list[n - 1]), list[..n])
            && Adds(list[..n] + list[n..], w.list, log[m])
  {
    list := [log[m]] + w.list;
    EdgeOrder(iss, log, m, |log|);
    NewPacketFits(iss, log, m, w, log[m]);
    assert Insert(w.list, log[m]) == list;
    SplitAdds(w.list, RunEnd(list, 0), log[m]);
  }

  lemma FirstStretch<T>(list: seq<T>, log: seq<T>, m: nat)
    requires m < |log| && list != [] && Same(list[0], log[m])
    ensures IsStretch(list[..1], log, m)
  {
  }

  lemma StretchEnd(iss: nat, log: seq<Packet>, m: nat, list: seq<Packet>, n: nat)
    requires SeqLog(iss, log) && 1 <= n <= |list| && IsStretch(list[..n], log, m)
    ensures list[n - 1] == log[m + n - 1] && End(list[n - 1]) == Edge(iss, log, m + n)
  {
    assert list[..n][n - 1] == list[n - 1];
    EdgeOrder(iss, log, m + n - 1, |log|);
  }

  lemma DrainRest(iss: nat, log: seq<Packet>, list: seq<Packet>, n: nat, m': nat)
    requires AllIn(list, log) && Sorted(list) && n <= |list| && m' <= |log|
    requires n < |list| ==> list[n].seqNum > Edge(iss, log, m')
    ensures RecvOk(iss, log, m', RecvWin(Edge(iss, log, m'), list[n..]))
  {
    forall i | 0 <= i < |list[n..]| ensures list[n..][i] in log && list[n..][i].seqNum > Edge(iss, log, m') {
      assert list[n..][i] == list[n + i];
    }
  }

  // ---------------------------------------------------------------------------
  // Arrival order

  datatype FeedOutcome = FeedAbort | Fed(win: RecvWin, delivered: seq<Packet>)

  /** The packets of the log with the given indices arrive one by one. */
  function Feed(iss: nat, log: seq<Packet>, arrivals: seq<nat>): FeedOutcome
    requires forall i :: 0 <= i < |arrivals| ==> arrivals[i] < |log|
  {
    if arrivals == [] then Fed(RecvWin(iss, []), [])
    else
      var n := |arrivals| - 1;
      match Feed(iss, log, arrivals[..n])
      case FeedAbort => FeedAbort
      case Fed(w, delivered) =>
        match ReceivePacket(w, log[arrivals[n]])
        case RecvAbort => FeedAbort
        case Received(w', _, chain) => Fed(w', delivered + chain)
  }

  /** Every index up to `k` is among the arrivals: packet `k` has been released. */
  ghost predicate AllUpTo(arrivals: seq<nat>, k: nat) {
    forall i {:trigger i in arrivals} :: 0 <= i <= k ==> i in arrivals
  }

  /** No packet arrives a second time while it is still buffered: a repeated
      arrival is one of a packet that was already acknowledged. */
  ghost predicate OnlyAckedRepeats(arrivals: seq<nat>) {
    forall n :: 0 <= n < |arrivals| ==>
      (arrivals[n] in arrivals[..n] ==> AllUpTo(arrivals[..n], arrivals[n]))
  }

  /** Packet `k` was accepted or is buffered. */
  ghost predicate Has(log: seq<Packet>, m: nat, w: RecvWin, k: nat)
    requires k < |log|
  {
    k < m || log[k] in w.list
  }

  /** What the window holds after the arrivals is fixed by which packets came. */
  ghost predicate HoldsArrivals(iss: nat, log: seq<Packet>, arrivals: seq<nat>, m: nat, w: RecvWin) {
    && RecvOk(iss, log, m, w)
    && (forall k {:trigger Has(log, m, w, k)} {:trigger k in arrivals} ::
          0 <= k < |log| ==> (k in arrivals <==> Has(log, m, w, k)))
  }

  lemma NextNotBuffered(iss: nat, log: seq<Packet>, m: nat, w: RecvWin, k: nat)
    requires SeqLog(iss, log) && RecvOk(iss, log, m, w) && k < |log| && k <= m
    ensures log[k] !in w.list
  {
    if k < m { EdgeOrder(iss, log, k, m); } else { EdgeOrder(iss, log, k, |log|); }
  }

  lemma Distinct(iss: nat, log: seq<Packet>, i: nat, j: nat)
    requires SeqLog(iss, log) && i < |log| && j < |log| && i != j
    ensures !Same(log[i], log[j])
  {
    if i < j { EdgeOrder(iss, log, i, j); EdgeOrder(iss, log, j, |log|); }
    else { EdgeOrder(iss, log, j, i); EdgeOrder(iss, log, i, |log|); }
  }

  lemma ArrivalOld(iss: nat, log: seq<Packet>, arrivals: seq<nat>, m: nat, w: RecvWin, k: nat)
    requires SeqLog(iss, log) && HoldsArrivals(iss, log, arrivals, m, w) && k < |log| && k < m
    ensures AllUpTo(arrivals, k)
    ensures ReceivePacket(w, log[k]) == Received(w, w.base, [])
    ensures HoldsArrivals(iss, log, arrivals + [k], m, w)
  {
    ReceiveOld(iss, log, m, w, k);
    assert forall i :: 0 <= i <= k ==> Has(log, m, w, i);
    assert k in arrivals;
    assert forall i :: i in arrivals + [k] <==> i in arrivals || i == k;
  }

  lemma ArrivalRepeated(iss: nat, log: seq<Packet>, arrivals: seq<nat>, m: nat, w: RecvWin, k: nat)
    requires SeqLog(iss, log) && HoldsArrivals(iss, log, arrivals, m, w) && k < |log| && log[k] in w.list
    ensures k in arrivals && !AllUpTo(arrivals, k)
    ensures ReceivePacket(w, log[k]) == RecvAbort
  {
    ReceiveBufferedAborts(iss, log, m, w, log[k]);
    assert Has(log, m, w, k);
    if k <= m { NextNotBuffered(iss, log, m, w, k); }
    NextNotBuffered(iss, log, m, w, m);
    assert !Has(log, m, w, m);
  }

  lemma ArrivalAhead(iss: nat, log: seq<Packet>, arrivals: seq<nat>, m: nat, w: RecvWin, k: nat)
    requires SeqLog(iss, log) && HoldsArrivals(iss, log, arrivals, m, w)
    requires m < k < |log| && log[k] !in w.list
    ensures k !in arrivals
    ensures var r := ReceivePacket(w, log[k]);
            && r.Received? && r.chain == []
            && HoldsArrivals(iss, log, arrivals + [k], m, r.win)
  {
    EdgeOrder(iss, log, m, k);
    EdgeOrder(iss, log, k, |log|);
    ReceiveAhead(iss, log, m, w, log[k]);
    assert !Has(log, m, w, k);
    var w' := ReceivePacket(w, log[k]).win;
    forall i | 0 <= i < |log| ensures i in arrivals + [k] <==> Has(log, m, w', i) {
      assert i in arrivals <==> Has(log, m, w, i);
      if i != k { Distinct(iss, log, i, k); }
    }
  }

  lemma ArrivalNext(iss: nat, log: seq<Packet>, arrivals: seq<nat>, m: nat, w: RecvWin) returns (m': nat)
    requires SeqLog(iss, log) && HoldsArrivals(iss, log, arrivals, m, w) && m < |log|
    ensures m !in arrivals
    ensures var r := ReceivePacket(w, log[m]);
            && r.Received? && m' == m + |r.chain| && IsStretch(r.chain, log, m)
            && HoldsArrivals(iss, log, arrivals + [m], m', r.win)
  {
    NextNotBuffered(iss, log, m, w, m);
    assert !Has(log, m, w, m);
    m' := ReceiveNext(iss, log, m, w);
    var r := ReceivePacket(w, log[m]);
    forall i | 0 <= i < |log| ensures i in arrivals + [m] <==> Has(log, m', r.win, i) {
      assert i in arrivals <==> Has(log, m, w, i);
      NextHolds(iss, log, m, w, m', r.win, r.chain, i);
    }
  }

  lemma NextHolds(iss: nat, log: seq<Packet>, m: nat, w: RecvWin, m': nat, w': RecvWin, chain: seq<Packet>, i: nat)
    requires SeqLog(iss, log) && RecvOk(iss, log, m, w) && RecvOk(iss, log, m', w')
    requires m < m' <= |log| && i < |log|
    requires m' == m + |chain| && IsStretch(chain, log, m) && Adds(chain + w'.list, w.list, log[m])
    ensures Has(log, m', w', i) <==> Has(log, m, w, i) || i == m
  {
    if i != m { Distinct(iss, log, i, m); }
    if i < m' { NextNotBuffered(iss, log, m', w', i); }
    if m <= i < m' {
      assert chain[i - m] == log[i];
      assert log[i] in chain + w'.list;
    } else {
      forall k | 0 <= k < |chain| ensures !Same(chain[k], log[i]) {
        Distinct(iss, log, m + k, i);
      }
      assert log[i] !in chain;
      assert log[i] in chain + w'.list <==> log[i] in w'.list;
    }
  }

  /** One more arrival: it aborts exactly when it repeats a buffered packet. */
  lemma ArrivalStep(iss: nat, log: seq<Packet>, arrivals: seq<nat>, m: nat, w: RecvWin, k: nat) returns (m': nat)
    requires SeqLog(iss, log) && k < |log|
    requires HoldsArrivals(iss, log, arrivals, m, w)
    ensures var r := ReceivePacket(w, log[k]);
            && (r == RecvAbort <==> k in arrivals && !AllUpTo(arrivals, k))
            && (r.Received? ==> m' == m + |r.chain| && IsStretch(r.chain, log, m)
                                && HoldsArrivals(iss, log, arrivals + [k], m', r.win))
  {
    m' := m;
    if k < m {
      ArrivalOld(iss, log, arrivals, m, w, k);
    } else if log[k] in w.list {
      ArrivalRepeated(iss, log, arrivals, m, w, k);
    } else if k > m {
      ArrivalAhead(iss, log, arrivals, m, w, k);
    } else {
      m' := ArrivalNext(iss, log, arrivals, m, w);
    }
  }

  /** After any arrivals: the feed aborts exactly when some packet was repeated
      while buffered; otherwise the window holds exactly the arrivals. */
  lemma {:induction false} FeedExact(iss: nat, log: seq<Packet>, arrivals: seq<nat>) returns (m: nat)
    requires SeqLog(iss, log)
    requires forall i :: 0 <= i < |arrivals| ==> arrivals[i] < |log|
    ensures Feed(iss, log, arrivals).Fed? <==> OnlyAckedRepeats(arrivals)
    ensures var r := Feed(iss, log, arrivals);
            r.Fed? ==> HoldsArrivals(iss, log, arrivals, m, r.win) && r.delivered == log[..m]
    decreases |arrivals|
  {
    m := 0;
    if arrivals != [] {
      var n := |arrivals| - 1;
      var front := arrivals[..n];
      m := FeedExact(iss, log, front);
      RepeatsGrow(arrivals);
      var r := Feed(iss, log, front);
      if r.Fed? {
        m := FeedMore(iss, log, front, m, r.win, r.delivered, arrivals[n]);
      }
    }
  }

  lemma RepeatsGrow(arrivals: seq<nat>)
    requires arrivals != []
    ensures var n := |arrivals| - 1;
            && arrivals == arrivals[..n] + [arrivals[n]]
            && (OnlyAckedRepeats(arrivals) <==>
                  && OnlyAckedRepeats(arrivals[..n])
                  && (arrivals[n] in arrivals[..n] ==> AllUpTo(arrivals[..n], arrivals[n])))
  {
    var n := |arrivals| - 1;
    assert forall i :: 0 <= i < n ==> arrivals[..n][..i] == arrivals[..i];
  }

  lemma FeedMore(iss: nat, log: seq<Packet>, front: seq<nat>, m: nat, w: RecvWin, delivered: seq<Packet>, k: nat) returns (m': nat)
    requires SeqLog(iss, log) && k < |log| && HoldsArrivals(iss, log, front, m, w) && delivered == log[..m]
    ensures var r := ReceivePacket(w, log[k]);
            && (r == RecvAbort <==> k in front && !AllUpTo(front, k))
            && (r.Received? ==> HoldsArrivals(iss, log, front + [k], m', r.win) && delivered + r.chain == log[..m'])
  {
    m' := ArrivalStep(iss, log, front, m, w, k);
    var r := ReceivePacket(w, log[k]);
    if r.Received? { StretchIsSlice(r.chain, log, m); }
  }

  lemma {:induction false} SortedUnique(a: seq<Packet>, b: seq<Packet>)
    requires Sorted(a) && Sorted(b)
    requires forall q :: q in a <==> q in b
    ensures a == b
    decreases |a|
  {
    if a == [] {
      assert forall i :: 0 <= i < |b| ==> b[i] in a;
    } else {
      assert a[0] in b && b != [];
      assert b[0] in a;
      assert a[0] == b[0];
      forall q ensures q in a[1..] <==> q in b[1..] {
        if q in a[1..] {
          var i :| 0 <= i < |a| - 1 && a[1..][i] == q;
          assert a[i + 1] == q && q in b && q != b[0];
        }
        if q in b[1..] {
          var i :| 0 <= i < |b| - 1 && b[1..][i] == q;
          assert b[i + 1] == q && q in a && q != a[0];
        }
      }
      SortedUnique(a[1..], b[1..]);
      assert a == [a[0]] + a[1..] && b == [b[0]] + b[1..];
    }
  }

  /** Whatever order the packets come in, and however many copies of already
      acknowledged ones come in between, the window ends in the same state and
      has delivered the same packets. */
  lemma ArrivalOrderIndependence(iss: nat, log: seq<Packet>, a: seq<nat>, b: seq<nat>)
    requires SeqLog(iss, log)
    requires forall i :: 0 <= i < |a| ==> a[i] < |log|
    requires forall i :: 0 <= i < |b| ==> b[i] < |log|
    requires OnlyAckedRepeats(a) && OnlyAckedRepeats(b)
    requires forall k :: k in a <==> k in b
    ensures Feed(iss, log, a).Fed? && Feed(iss, log, a) == Feed(iss, log, b)
    ensures Bytes(Feed(iss, log, a).delivered) == Bytes(Feed(iss, log, b).delivered)
  {
    var m := FeedExact(iss, log, a);
    var m' := FeedExact(iss, log, b);
    var w, w' := Feed(iss, log, a).win, Feed(iss, log, b).win;
    SameReach(iss, log, a, b, m, w, m', w');
    SameReach(iss, log, b, a, m', w', m, w);
    forall q ensures q in w.list <==> q in w'.list {
      if q in log {
        var k :| 0 <= k < |log| && log[k] == q;
        assert Has(log, m, w, k) <==> Has(log, m', w', k);
        if k < m { NextNotBuffered(iss, log, m, w, k); NextNotBuffered(iss, log, m', w', k); }
      }
    }
    SortedUnique(w.list, w'.list);
  }

  lemma SameReach(iss: nat, log: seq<Packet>, a: seq<nat>, b: seq<nat>, m: nat, w: RecvWin, m': nat, w': RecvWin)
    requires SeqLog(iss, log) && HoldsArrivals(iss, log, a, m, w) && HoldsArrivals(iss, log, b, m', w')
    requires forall k :: k in a <==> k in b
    ensures m' <= m
  {
    if m < m' {
      assert Has(log, m', w', m);
      NextNotBuffered(iss, log, m, w, m);
      assert false;
    }
  }

  /** Once all packets of a log have come, all have been delivered, in order. */
  lemma AllArrivedAllDelivered(iss: nat, log: seq<Packet>, a: seq<nat>)
    requires SeqLog(iss, log) && OnlyAckedRepeats(a)
    requires forall i :: 0 <= i < |a| ==> a[i] < |log|
    requires forall k :: 0 <= k < |log| ==> k in a
    ensures Feed(iss, log, a) == Fed(RecvWin(Edge(iss, log, |log|), []), log)
  {
    var m := FeedExact(iss, log, a);
    var w := Feed(iss, log, a).win;
    AllReached(iss, log, a, m, w);
    assert log[..|log|] == log;
    NothingAbove(iss, log, w.list);
  }

  lemma AllReached(iss: nat, log: seq<Packet>, a: seq<nat>, m: nat, w: RecvWin)
    requires SeqLog(iss, log) && HoldsArrivals(iss, log, a, m, w)
    requires forall k :: 0 <= k < |log| ==> k in a
    ensures m == |log|
  {
    if m < |log| {
      assert m in a;
      NextNotBuffered(iss, log, m, w, m);
    }
  }

  lemma NothingAbove(iss: nat, log: seq<Packet>, list: seq<Packet>)
    requires SeqLog(iss, log) && AllIn(list, log)
    requires AllAbove(list, Edge(iss, log, |log|))
    ensures list == []
  {
    if list != [] {
      LogUnique(iss, log, list[0], list[0]);
      var k :| 0 <= k < |log| && log[k] == list[0];
      EdgeOrder(iss, log, k, |log|);
      assert false;
    }
  }
}
