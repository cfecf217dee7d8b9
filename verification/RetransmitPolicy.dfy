/** What the send window promises about retransmission over whole runs of its
    operations: Karn's rule for round-trip times (section 3 of RFC 6298), and
    how rarely duplicate acknowledgements trigger a fast retransmit. */
module RetransmitPolicy {
  import opened Packets
  import opened SendWindows

  // ---------------------------------------------------------------------------
  // Karn's rule

  datatype Op = Send(pkt: Packet) | Ack(ackNum: nat) | Resend | SetCapacity(capacity: nat)

  /** A window together with a history: which queued packets were sent again. */
  datatype Tracked = Stopped | Tracked(win: SendWin, resent: seq<bool>)

  function Perform(t: Tracked, op: Op): Tracked {
    if t.Stopped? || |t.resent| != |t.win.pkts| then Stopped
    else match op
      case Send(p) => (
        match SendPacket(t.win, p)
        case SendAbort => Stopped
        case Refused => t
        case Sent(w) => Tracked(w, t.resent + [false]))
      case Ack(a) => (
        match NewAckedPacket(t.win, a)
        case AckAbort => Stopped
        case Acked(w, _) =>
          Tracked(w, t.resent[|t.resent| - |w.pkts|..]))
      case Resend =>
        if t.win.pkts == [] then t else Tracked(MarkResent(t.win), t.resent[0 := true])
      case SetCapacity(c) => Tracked(t.win.(capacity := c), t.resent)
  }

  ghost predicate Karn(t: Tracked) {
    t.Tracked? ==>
      && |t.resent| == |t.win.pkts|
      && ((exists i :: 0 <= i < |t.resent| && t.resent[i]) ==> t.win.hasRetransmitted)
  }

  lemma KarnStep(t: Tracked, op: Op)
    requires Karn(t)
    ensures Karn(Perform(t, op))
  {
    if t.Tracked? && op.Ack? && Perform(t, op).Tracked? {
      var t' := Perform(t, op);
      if i :| 0 <= i < |t'.resent| && t'.resent[i] {
        assert t.resent[|t.resent| - |t'.win.pkts| + i];
      }
    }
  }

  function PerformAll(t: Tracked, ops: seq<Op>): Tracked
    decreases |ops|
  {
    if ops == [] then t else PerformAll(Perform(t, ops[0]), ops[1..])
  }

  lemma {:induction false} KarnAlways(t: Tracked, ops: seq<Op>)
    requires Karn(t)
    ensures Karn(PerformAll(t, ops))
    decreases |ops|
  {
    if ops != [] {
      KarnStep(t, ops[0]);
      KarnAlways(Perform(t, ops[0]), ops[1..]);
    }
  }

  /** After any sequence of sends, acknowledgements, retransmissions and
      capacity changes, an acknowledgement reports a round-trip time only for a
      packet of the window that was sent once, and then no packet of the window
      had been sent twice. */
  lemma KarnRule(base: nat, capacity: nat, ops: seq<Op>, ackNum: nat)
    ensures var t := PerformAll(Tracked(NewSendWin(base, capacity), []), ops);
            t.Tracked? ==>
              var r := NewAckedPacket(t.win, ackNum);
              r.Acked? && r.result.rtt.Measured? ==>
                && (forall i :: 0 <= i < |t.resent| ==> !t.resent[i])
                && r.result.rtt.pkt in t.win.pkts
  {
    KarnAlways(Tracked(NewSendWin(base, capacity), []), ops);
  }

  // ---------------------------------------------------------------------------
  // Fast retransmit

  function Pow(b: nat, e: nat): nat {
    if e == 0 then 1 else b * Pow(b, e - 1)
  }

  /** A window after `n` duplicate acknowledgements in a row, and how many fast
      retransmits they triggered. */
  datatype Dups = Dups(win: SendWin, fired: nat)

  function AfterDups(w: SendWin, n: nat): Dups {
    if n == 0 then Dups(w, 0)
    else
      var d := AfterDups(w, n - 1);
      var r := NewAckedPacket(d.win, d.win.base);
      if r.Acked? then Dups(r.win, d.fired + if r.result.retransmit then 1 else 0) else d
  }

  /** How many duplicates the `i`-th retransmit waits for after the one before it:
      three for the first, and each time half as many again. */
  function Threshold(i: nat): (t: nat)
    ensures t >= 3
  {
    if i <= 1 then 3 else Threshold(i - 1) + Threshold(i - 1) / 2
  }

  /** The duplicate that triggers retransmit number `r`: 3, 7, 13, 22, ... */
  function FireAt(r: nat): nat {
    if r == 0 then 0 else FireAt(r - 1) + Threshold(r)
  }

  lemma {:induction false} FireAtGrows(r: nat, s: nat)
    requires r <= s
    ensures FireAt(r) + 3 * (s - r) <= FireAt(s)
  {
    if r < s { FireAtGrows(r, s - 1); }
  }

  /** A threshold is never above the duplicates it and those before it took. */
  lemma ThresholdBelow(r: nat)
    ensures Threshold(r + 1) * 2 <= 6 + 3 * FireAt(r)
  {
    if r > 0 { assert Threshold(r) <= FireAt(r); }
  }

  /** `w` with its counters as they are `n` duplicates and `r` retransmits on. */
  function Counted(w: SendWin, n: nat, r: nat): SendWin
    requires FireAt(r) <= n
  {
    w.(duplicatedAcks := n - FireAt(r), maxDuplicatedAcks := Threshold(r + 1))
  }

  /** One duplicate more. Below 2^31 of them the threshold stays clear of 2^32. */
  lemma DupCounts(w: SendWin, n: nat, r: nat)
    requires FireAt(r) <= n < FireAt(r + 1) && n < 0x8000_0000
    ensures var fires := n + 1 == FireAt(r + 1);
            NewAckedPacket(Counted(w, n, r), w.base) ==
              Acked(Counted(w, n + 1, if fires then r + 1 else r), AckResult(false, true, fires, NoRtt))
  {
    ThresholdBelow(r);
    assert FireAt(r + 1) == FireAt(r) + Threshold(r + 1);
    var t := Threshold(r + 1);
    assert t + t / 2 == t * 3 / 2;
  }

  /** The window after `n` duplicates: nothing but the counters has changed, the
      `r` retransmits so far are those due by the `n`-th duplicate, and the
      counters say how far it is to the next one. */
  lemma {:induction false} DupsExact(w: SendWin, n: nat) returns (r: nat)
    requires w.duplicatedAcks == 0 && w.maxDuplicatedAcks == 3 && n <= 0x8000_0000
    ensures FireAt(r) <= n < FireAt(r + 1) && AfterDups(w, n) == Dups(Counted(w, n, r), r)
  {
    if n == 0 {
      r := 0;
      assert FireAt(1) == FireAt(0) + Threshold(1);
    } else {
      var q := DupsExact(w, n - 1);
      DupCounts(w, n - 1, q);
      r := if n == FireAt(q + 1) then q + 1 else q;
      assert FireAt(q + 2) == FireAt(q + 1) + Threshold(q + 2);
    }
  }

  /** The `r`-th fast retransmit comes with duplicate number `FireAt(r)`, neither
      earlier nor later; the first three with duplicates 3, 7 and 13. */
  lemma FiresExactly(w: SendWin, n: nat, r: nat)
    requires w.duplicatedAcks == 0 && w.maxDuplicatedAcks == 3 && n <= 0x8000_0000
    ensures AfterDups(w, n).fired >= r <==> n >= FireAt(r)
    ensures AfterDups(w, n).fired >= 1 <==> n >= 3
    ensures AfterDups(w, n).fired >= 2 <==> n >= 7
    ensures AfterDups(w, n).fired >= 3 <==> n >= 13
  {
    var fired := DupsExact(w, n);
    FirstFires();
    FiresBy(fired, n, r);
    FiresBy(fired, n, 1);
    FiresBy(fired, n, 2);
    FiresBy(fired, n, 3);
  }

  lemma FirstFires()
    ensures FireAt(1) == 3 && FireAt(2) == 7 && FireAt(3) == 13
  {
    assert Threshold(1) == 3 && Threshold(2) == 4 && Threshold(3) == 6;
  }

  lemma FiresBy(fired: nat, n: nat, r: nat)
    requires FireAt(fired) <= n < FireAt(fired + 1)
    ensures fired >= r <==> n >= FireAt(r)
  {
    if fired >= r {
      FireAtGrows(r, fired);
    } else {
      FireAtGrows(fired + 1, r);
    }
  }

  /** A new window counts from zero to three, and so does every window that an
      acknowledgement has moved on, whatever it counted before. */
  lemma CountsFromZeroToThree(w: SendWin, ackNum: nat)
    ensures var v := NewSendWin(w.base, w.capacity); v.duplicatedAcks == 0 && v.maxDuplicatedAcks == 3
    ensures var r := NewAckedPacket(w, ackNum);
            r.Acked? ==>
              && (r.result.refreshed <==> r.win.base != w.base)
              && (r.result.refreshed ==> r.win.duplicatedAcks == 0 && r.win.maxDuplicatedAcks == 3)
              && (r.result.dupAck <==> ackNum == w.base)
              && (!r.result.refreshed && !r.result.dupAck ==> r.win == w)
  {
  }

  /** `spent` duplicates were used up by `r` retransmits, the next one comes at
      threshold `t`. */
  ghost predicate Slow(r: nat, spent: nat, t: nat) {
    && Pow(2, r) * (t - 1) >= 2 * Pow(3, r)
    && Pow(2, r) * (spent + 4 - r) >= 4 * Pow(3, r)
  }

  lemma SlowStep(r: nat, spent: nat, t: nat)
    requires Slow(r, spent, t) && t >= 3
    ensures Slow(r + 1, spent + t, t * 3 / 2)
  {
    var t' := t * 3 / 2;
    assert 2 * (t' - 1) >= 3 * (t - 1);
    assert Pow(2, r + 1) == 2 * Pow(2, r) && Pow(3, r + 1) == 3 * Pow(3, r);
    GrowThreshold(Pow(2, r), Pow(3, r), t - 1, t' - 1);
    GrowSpent(Pow(2, r), Pow(3, r), spent + 4 - r, t - 1);
  }

  lemma GrowThreshold(p: nat, q: nat, a: nat, b: nat)
    requires p * a >= 2 * q && 2 * b >= 3 * a
    ensures (2 * p) * b >= 2 * (3 * q)
  {
    Scale(p, 3 * a, 2 * b);
    assert p * (3 * a) == 3 * (p * a);
    assert p * (2 * b) == (2 * p) * b;
  }

  lemma GrowSpent(p: nat, q: nat, s: int, a: nat)
    requires p * s >= 4 * q && p * a >= 2 * q
    ensures (2 * p) * (s + a) >= 4 * (3 * q)
  {
    assert (2 * p) * (s + a) == 2 * (p * s) + 2 * (p * a);
  }

  lemma Scale(p: nat, a: int, b: int)
    requires a <= b
    ensures p * a <= p * b
  {
  }

  lemma {:induction false} FireAtSlow(r: nat)
    ensures Slow(r, FireAt(r), Threshold(r + 1))
  {
    if r > 0 {
      FireAtSlow(r - 1);
      SlowStep(r - 1, FireAt(r - 1), Threshold(r));
    }
  }

  /** Fast retransmits are logarithmic in the duplicates that trigger them: `n`
      duplicates without progress cause `r` retransmits only if
      n >= 4 (3/2)^r - 4 + r. */
  lemma FastRetransmitIsLogarithmic(w: SendWin, n: nat)
    requires w.duplicatedAcks == 0 && w.maxDuplicatedAcks == 3 && n <= 0x8000_0000
    ensures var r := AfterDups(w, n).fired;
            Pow(2, r) * (n + 4) >= 4 * Pow(3, r) + Pow(2, r) * r
  {
    var r := DupsExact(w, n);
    FireAtSlow(r);
    SpentBound(Pow(2, r), 4 * Pow(3, r), r, FireAt(r), n);
  }

  lemma SpentBound(p: nat, q: nat, r: nat, spent: int, n: int)
    requires p * (spent + 4 - r) >= q && spent <= n
    ensures p * (n + 4) >= q + p * r
  {
    Scale(p, spent + 4 - r, n + 4 - r);
    assert p * (n + 4 - r) == p * (n + 4) - p * r;
  }
}
