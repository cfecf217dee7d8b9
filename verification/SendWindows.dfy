/** The send window as a value: what `SendPacket`, `NewAckedPacket` and
    `GetBasePakcketToReSend` compute, with `uint32` arithmetic written out. */
module SendWindows {
  import opened Packets

  const MAX_DUPLICATED_ACKS_ORIGIN: nat := 3

  datatype SendWin = SendWin(
    base: nat,
    capacity: nat,
    size: nat,
    pkts: seq<Packet>,
    lastAcked: nat,
    duplicatedAcks: nat,
    maxDuplicatedAcks: nat,
    hasRetransmitted: bool)

  function NewSendWin(base: nat, capacity: nat): SendWin {
    SendWin(base, capacity, 0, [], 0, 0, MAX_DUPLICATED_ACKS_ORIGIN, false)
  }

  function FreeSpace(w: SendWin): nat {
    if w.capacity > w.size then w.capacity - w.size else 0
  }

  function NextSeqNumberToSend(w: SendWin): nat {
    Wrap(w.base + w.size)
  }

  datatype SendOutcome = SendAbort | Refused | Sent(win: SendWin)

  function SendPacket(w: SendWin, p: Packet): SendOutcome {
    if FreeSpace(w) < p.size && w.capacity > 0 then Refused
    else if w.pkts == [] && p.seqNum != w.base then Refused
    else if w.pkts != [] && End(w.pkts[|w.pkts| - 1]) != Wrap(w.base + w.size) then SendAbort
    else if w.pkts != [] && p.seqNum != End(w.pkts[|w.pkts| - 1]) then Refused
    else Sent(w.(pkts := w.pkts + [p], size := Wrap(w.size + p.size)))
  }

  /** Which stopwatch an acknowledgement reports: none, or that of a packet. */
  datatype Rtt = NoRtt | Measured(pkt: Packet)

  datatype AckResult = AckResult(refreshed: bool, dupAck: bool, retransmit: bool, rtt: Rtt)

  datatype AckOutcome = AckAbort | Acked(win: SendWin, result: AckResult)

  datatype PopOutcome = PopAbort | Popped(count: nat)

  predicate AckOverflow(w: SendWin, ackNum: nat) {
    ackNum < w.base && ackNum <= Wrap(w.base + w.capacity)
  }

  /** The loop guard: this packet is covered by the acknowledgement. */
  predicate Covered(p: Packet, ackNum: nat, overflow: bool, base: nat) {
    p.seqNum < ackNum || (overflow && p.seqNum >= base)
  }

  /** The loop's sanity check on a covered packet. */
  predicate NotCut(p: Packet, ackNum: nat, overflow: bool) {
    End(p) <= ackNum || (overflow && End(p) > ackNum)
  }

  /** How many packets the loop pops off the front of the queue. */
  function PopLoop(pkts: seq<Packet>, ackNum: nat, overflow: bool, base: nat): (r: PopOutcome)
    ensures r.Popped? ==> r.count <= |pkts|
  {
    if pkts == [] || !Covered(pkts[0], ackNum, overflow, base) then Popped(0)
    else if !NotCut(pkts[0], ackNum, overflow) then PopAbort
    else match PopLoop(pkts[1..], ackNum, overflow, base)
      case PopAbort => PopAbort
      case Popped(n) => Popped(n + 1)
  }

  /** The acknowledgement number the code expects after `n` pops. */
  function ExpectedAck(pkts: seq<Packet>, n: nat): nat
    requires n <= |pkts|
  {
    if n < |pkts| then pkts[n].seqNum else if pkts == [] then 0 else End(pkts[|pkts| - 1])
  }

  function NewAckedPacket(w: SendWin, ackNum: nat): AckOutcome {
    var overflow := AckOverflow(w, ackNum);
    if w.base < ackNum || overflow then
      match PopLoop(w.pkts, ackNum, overflow, w.base)
      case PopAbort => AckAbort
      case Popped(n) =>
        if ackNum != ExpectedAck(w.pkts, n) then AckAbort
        else
          Acked(w.(base := ackNum,
                   lastAcked := ackNum,
                   size := Wrap(w.size - TotalSize(w.pkts[..n])),
                   pkts := w.pkts[n..],
                   duplicatedAcks := 0,
                   maxDuplicatedAcks := MAX_DUPLICATED_ACKS_ORIGIN,
                   hasRetransmitted := w.hasRetransmitted && n < |w.pkts|),
                AckResult(true, false, false,
                          if w.hasRetransmitted || n == 0 then NoRtt else Measured(w.pkts[n - 1])))
    else if ackNum == w.base then
      var d := Wrap(w.duplicatedAcks + 1);
      if d >= w.maxDuplicatedAcks then
        Acked(w.(duplicatedAcks := 0, maxDuplicatedAcks := Wrap(w.maxDuplicatedAcks * 3 / 2)),
              AckResult(false, true, true, NoRtt))
      else
        Acked(w.(duplicatedAcks := d), AckResult(false, true, false, NoRtt))
    else
      Acked(w, AckResult(false, false, false, NoRtt))
  }

  /** The window after `GetBasePakcketToReSend`; the packet handed out is the
      front of the queue, if there is one. */
  function MarkResent(w: SendWin): SendWin {
    if w.pkts == [] then w else w.(hasRetransmitted := true)
  }

  function BasePacket(w: SendWin): seq<Packet> {
    if w.pkts == [] then [] else [w.pkts[0]]
  }

  // ---------------------------------------------------------------------------
  // The window invariant, and the unbounded-integer window it stands for

  /** The packets follow one another in sequence space, modulo 2^32, the first
      one `off` above `base`. */
  ghost predicate Contiguous(pkts: seq<Packet>, base: nat, off: nat) {
    pkts == [] ||
    (pkts[0].seqNum == Wrap(base + off) && pkts[0].size > 0 &&
     Contiguous(pkts[1..], base, off + pkts[0].size))
  }

  ghost predicate ValidWin(w: SendWin) {
    && w.base < U32 && w.capacity < U32
    && w.size == TotalSize(w.pkts) < U32
    && Contiguous(w.pkts, w.base, 0)
  }

  /** The window an acknowledgement of the first `j` packets leaves behind when
      sequence numbers are unbounded integers. */
  function AckPrefix(w: SendWin, j: nat): SendWin
    requires j <= |w.pkts|
    requires TotalSize(w.pkts[..j]) <= w.size
  {
    w.(base := Wrap(w.base + TotalSize(w.pkts[..j])),
       lastAcked := Wrap(w.base + TotalSize(w.pkts[..j])),
       size := w.size - TotalSize(w.pkts[..j]),
       pkts := w.pkts[j..],
       duplicatedAcks := 0,
       maxDuplicatedAcks := MAX_DUPLICATED_ACKS_ORIGIN,
       hasRetransmitted := w.hasRetransmitted && j < |w.pkts|)
  }

  lemma {:induction false} ContiguousAppend(pkts: seq<Packet>, base: nat, off: nat, p: Packet)
    requires Contiguous(pkts, base, off)
    requires p.size > 0 && p.seqNum == Wrap(base + off + TotalSize(pkts))
    ensures Contiguous(pkts + [p], base, off)
  {
    if pkts == [] {
      assert ([p])[1..] == [];
    } else {
      assert (pkts + [p])[1..] == pkts[1..] + [p];
      ContiguousAppend(pkts[1..], base, off + pkts[0].size, p);
    }
  }

  lemma {:induction false} ContiguousAt(pkts: seq<Packet>, base: nat, off: nat, i: nat)
    requires Contiguous(pkts, base, off)
    requires i < |pkts|
    ensures pkts[i].size > 0
    ensures pkts[i].seqNum == Wrap(base + off + TotalSize(pkts[..i]))
    ensures TotalSize(pkts[..i]) + pkts[i].size <= TotalSize(pkts)
  {
    if i > 0 {
      ContiguousAt(pkts[1..], base, off + pkts[0].size, i - 1);
      assert pkts[..i][1..] == pkts[1..][..i - 1];
    }
  }

  /** Advancing past the first `j` packets leaves a contiguous list again. */
  lemma {:induction false} ContiguousSuffix(pkts: seq<Packet>, base: nat, off: nat, j: nat)
    requires Contiguous(pkts, base, off)
    requires j <= |pkts|
    ensures Contiguous(pkts[j..], base, off + TotalSize(pkts[..j]))
    ensures TotalSize(pkts[..j]) + TotalSize(pkts[j..]) == TotalSize(pkts)
    ensures j > 0 ==> TotalSize(pkts[..j]) > 0
  {
    assert pkts[..j] + pkts[j..] == pkts;
    TotalSizeAppend(pkts[..j], pkts[j..]);
    if j > 0 {
      ContiguousSuffix(pkts[1..], base, off + pkts[0].size, j - 1);
      assert pkts[1..][j - 1..] == pkts[j..];
      assert pkts[..j][1..] == pkts[1..][..j - 1];
    }
  }

  lemma WrapShift(x: int, y: int, k: int)
    requires Wrap(x) == Wrap(y)
    ensures Wrap(x + k) == Wrap(y + k)
  {
    assert (x + k) % U32 == (x % U32 + k) % U32;
    assert (y + k) % U32 == (y % U32 + k) % U32;
  }

  /** Contiguity depends on the base only through where each packet starts. */
  lemma {:induction false} ContiguousRebase(pkts: seq<Packet>, base: nat, off: nat, base': nat, off': nat)
    requires Contiguous(pkts, base, off)
    requires Wrap(base + off) == Wrap(base' + off')
    ensures Contiguous(pkts, base', off')
  {
    if pkts != [] {
      var k := pkts[0].size;
      WrapShift(base + off, base' + off', k);
      ContiguousRebase(pkts[1..], base, off + k, base', off' + k);
    }
  }

  /** `SendPacket` keeps the window valid. A full window is refused; with a
      zero capacity the code skips that test, so the caller bounds the size. */
  lemma SendPacketKeepsValid(w: SendWin, p: Packet)
    requires ValidWin(w) && p.size > 0
    requires w.capacity == 0 ==> w.size + p.size < U32
    ensures SendPacket(w, p) != SendAbort
    ensures SendPacket(w, p).Sent? <==>
              p.seqNum == NextSeqNumberToSend(w) && (w.capacity == 0 || w.size + p.size <= w.capacity)
    ensures SendPacket(w, p).Sent? ==>
              var w' := SendPacket(w, p).win;
              ValidWin(w') && w' == w.(pkts := w.pkts + [p], size := w.size + p.size)
  {
    if w.pkts != [] { LastEnds(w); }
    if SendPacket(w, p).Sent? { AppendValid(w, p); }
  }

  /** The last packet ends where the next one starts. */
  lemma LastEnds(w: SendWin)
    requires ValidWin(w) && w.pkts != []
    ensures End(w.pkts[|w.pkts| - 1]) == NextSeqNumberToSend(w)
  {
    var n := |w.pkts| - 1;
    ContiguousAt(w.pkts, w.base, 0, n);
    assert w.pkts == w.pkts[..n] + [w.pkts[n]];
    TotalSizeAppend(w.pkts[..n], [w.pkts[n]]);
    assert [w.pkts[n]][1..] == [];
    WrapShift(w.base + TotalSize(w.pkts[..n]), Wrap(w.base + TotalSize(w.pkts[..n])), w.pkts[n].size);
  }

  lemma AppendValid(w: SendWin, p: Packet)
    requires ValidWin(w) && p.size > 0 && p.seqNum == NextSeqNumberToSend(w) && w.size + p.size < U32
    ensures ValidWin(w.(pkts := w.pkts + [p], size := w.size + p.size))
  {
    ContiguousAppend(w.pkts, w.base, 0, p);
    TotalSizeAppend(w.pkts, [p]);
    assert [p][1..] == [];
  }

  // ---------------------------------------------------------------------------
  // Wrap-around refinement of NewAckedPacket

  /** The loop over a contiguous list: if every packet starting below `t` is
      covered and uncut, and the one starting at `t` is not covered, the loop
      pops exactly the prefix that ends at offset `t`. */
  lemma {:induction false} PopLoopPrefix(pkts: seq<Packet>, ackNum: nat, overflow: bool, base: nat, j: nat)
    requires j <= |pkts|
    requires forall i :: 0 <= i < j ==> Covered(pkts[i], ackNum, overflow, base) && NotCut(pkts[i], ackNum, overflow)
    requires j < |pkts| ==> !Covered(pkts[j], ackNum, overflow, base)
    ensures PopLoop(pkts, ackNum, overflow, base) == Popped(j)
  {
    if j > 0 {
      assert Covered(pkts[0], ackNum, overflow, base) && NotCut(pkts[0], ackNum, overflow);
      forall i | 0 <= i < j - 1
        ensures Covered(pkts[1..][i], ackNum, overflow, base) && NotCut(pkts[1..][i], ackNum, overflow)
      {
        assert pkts[1..][i] == pkts[i + 1];
      }
      PopLoopPrefix(pkts[1..], ackNum, overflow, base, j - 1);
    }
  }

  /** The code recognises the acknowledgement of the first `j` packets. It does
      not when the acknowledgement wraps, the window's right edge wraps too,
      and the capacity has been cut below what is acknowledged. */
  predicate Recognised(w: SendWin, off: nat) {
    w.base + off < U32 || w.base + w.capacity < U32 || off <= w.capacity
  }

  /** For every valid window and every acknowledgement of its first `j > 0`
      packets, `NewAckedPacket` does what the unbounded-integer window does if
      and only if the acknowledgement is recognised; otherwise it ignores it. */
  lemma {:induction false} AckWrapRefinement(w: SendWin, j: nat)
    requires ValidWin(w) && 0 < j <= |w.pkts|
    ensures TotalSize(w.pkts[..j]) <= w.size
    ensures var off := TotalSize(w.pkts[..j]);
            var r := NewAckedPacket(w, Wrap(w.base + off));
            && (Recognised(w, off) ==>
                  && r.Acked? && r.win == AckPrefix(w, j) && r.result.refreshed
                  && r.result.rtt == (if w.hasRetransmitted then NoRtt else Measured(w.pkts[j - 1])))
            && (!Recognised(w, off) ==> r == Acked(w, AckResult(false, false, false, NoRtt)))
  {
    var off := TotalSize(w.pkts[..j]);
    ContiguousSuffix(w.pkts, w.base, 0, j);
    var ackNum := Wrap(w.base + off);
    var overflow := AckOverflow(w, ackNum);
    if Recognised(w, off) {
      forall i | 0 <= i < |w.pkts|
        ensures i < j ==> Covered(w.pkts[i], ackNum, overflow, w.base) && NotCut(w.pkts[i], ackNum, overflow)
        ensures i == j ==> !Covered(w.pkts[i], ackNum, overflow, w.base)
      {
        AckCovers(w, j, i);
      }
      PopLoopPrefix(w.pkts, ackNum, overflow, w.base, j);
      ExpectedAckIsAck(w, j);
      PoppedIsPrefix(w, ackNum, j);
    }
  }

  /** Once the loop has popped the right prefix, the rest of the call does what
      the unbounded window does. */
  lemma PoppedIsPrefix(w: SendWin, ackNum: nat, j: nat)
    requires w.base < ackNum || AckOverflow(w, ackNum)
    requires PopLoop(w.pkts, ackNum, AckOverflow(w, ackNum), w.base) == Popped(j) && 0 < j <= |w.pkts|
    requires TotalSize(w.pkts[..j]) <= w.size < U32
    requires ackNum == ExpectedAck(w.pkts, j) == Wrap(w.base + TotalSize(w.pkts[..j]))
    ensures Same(NewAckedPacket(w, ackNum),
                 Acked(AckPrefix(w, j),
                       AckResult(true, false, false, if w.hasRetransmitted then NoRtt else Measured(w.pkts[j - 1]))))
  {
  }

  /** The loop guard covers the acknowledged packets and stops at the next one.
      Packets further on may have wrapped below `ackNum`; the loop never looks. */
  lemma AckCovers(w: SendWin, j: nat, i: nat)
    requires ValidWin(w) && 0 < j <= |w.pkts| && i < |w.pkts|
    requires TotalSize(w.pkts[..j]) <= w.size
    requires Recognised(w, TotalSize(w.pkts[..j]))
    ensures var ackNum := Wrap(w.base + TotalSize(w.pkts[..j]));
            var overflow := AckOverflow(w, ackNum);
            && (i < j ==> Covered(w.pkts[i], ackNum, overflow, w.base) && NotCut(w.pkts[i], ackNum, overflow))
            && (i == j ==> !Covered(w.pkts[i], ackNum, overflow, w.base))
  {
    ContiguousAt(w.pkts, w.base, 0, i);
    var off, at := TotalSize(w.pkts[..j]), TotalSize(w.pkts[..i]);
    if i < j {
      PrefixEnds(w.pkts, i, j);
      CoversBelow(w, w.pkts[i], at, off);
    } else if i == j {
      StopsAt(w, w.pkts[i], off);
    }
  }

  /** A packet in front of index `j` ends within the first `j`. */
  lemma PrefixEnds(pkts: seq<Packet>, i: nat, j: nat)
    requires i < j <= |pkts|
    ensures TotalSize(pkts[..i]) + pkts[i].size <= TotalSize(pkts[..j])
  {
    assert pkts[..j] == pkts[..i] + pkts[i..j];
    TotalSizeAppend(pkts[..i], pkts[i..j]);
    assert pkts[i..j][0] == pkts[i];
  }

  lemma CoversBelow(w: SendWin, p: Packet, at: nat, off: nat)
    requires w.base < U32 && off < U32 && w.capacity < U32 && Recognised(w, off)
    requires p.seqNum == Wrap(w.base + at) && 0 < p.size && at + p.size <= off
    ensures var ackNum := Wrap(w.base + off);
            Covered(p, ackNum, AckOverflow(w, ackNum), w.base) && NotCut(p, ackNum, AckOverflow(w, ackNum))
  {
  }

  lemma StopsAt(w: SendWin, p: Packet, off: nat)
    requires w.base < U32 && 0 < off < U32 && p.seqNum == Wrap(w.base + off)
    ensures var ackNum := Wrap(w.base + off); !Covered(p, ackNum, AckOverflow(w, ackNum), w.base)
  {
  }

  lemma ExpectedAckIsAck(w: SendWin, j: nat)
    requires ValidWin(w) && 0 < j <= |w.pkts|
    ensures ExpectedAck(w.pkts, j) == Wrap(w.base + TotalSize(w.pkts[..j]))
  {
    if j < |w.pkts| {
      ContiguousAt(w.pkts, w.base, 0, j);
    } else {
      var n := j - 1;
      ContiguousAt(w.pkts, w.base, 0, n);
      assert w.pkts[..j] == w.pkts[..n] + [w.pkts[n]];
      TotalSizeAppend(w.pkts[..n], [w.pkts[n]]);
      assert [w.pkts[n]][1..] == [];
    }
  }

  /** The unbounded acknowledgement leaves a valid window. */
  lemma AckPrefixKeepsValid(w: SendWin, j: nat)
    requires ValidWin(w) && j <= |w.pkts|
    ensures TotalSize(w.pkts[..j]) <= w.size && ValidWin(AckPrefix(w, j))
  {
    ContiguousSuffix(w.pkts, w.base, 0, j);
    var off := TotalSize(w.pkts[..j]);
    assert Wrap(w.base + off) == Wrap(Wrap(w.base + off) + 0);
    ContiguousRebase(w.pkts[j..], w.base, off, Wrap(w.base + off), 0);
  }

  /** `ackNum` acknowledges exactly the first `j` packets of the window. */
  ghost predicate AcksPrefix(w: SendWin, ackNum: nat, j: nat) {
    0 < j <= |w.pkts| && ackNum == Wrap(w.base + TotalSize(w.pkts[..j]))
  }

  /** The right edge has wrapped, and `ackNum` lies between it and the base. */
  predicate Outside(w: SendWin, ackNum: nat) {
    ackNum < w.base && w.base + w.capacity >= U32 && ackNum > w.base + w.capacity - U32
  }

  /** For every valid window, `NewAckedPacket` returns exactly on a duplicate, on
      a packet boundary inside the window, and on a number outside it, which it
      ignores. Every other number, stale, misaligned or ahead, trips a sanity
      check; only an empty window lets the number zero through, and moves its
      base back to it. */
  lemma {:induction false} AckReturnsExactly(w: SendWin, ackNum: nat)
    requires ValidWin(w) && ackNum < U32
    ensures NewAckedPacket(w, ackNum).Acked? <==>
              || ackNum == w.base || Outside(w, ackNum)
              || (exists j :: AcksPrefix(w, ackNum, j))
              || (w.pkts == [] && ackNum == 0)
  {
    if Outside(w, ackNum) {
      assert !AckOverflow(w, ackNum);
    } else if j :| AcksPrefix(w, ackNum, j) {
      AckWrapRefinement(w, j);
    } else if NewAckedPacket(w, ackNum).Acked? && ackNum != w.base && w.pkts != [] {
      var n := PopLoop(w.pkts, ackNum, AckOverflow(w, ackNum), w.base).count;
      if n > 0 {
        ExpectedAckIsAck(w, n);
        assert AcksPrefix(w, ackNum, n);
      }
    }
  }

  /** The guard is not vacuous: a window near 2^32 whose capacity was cut
      below what it holds drops the acknowledgement of everything it holds. */
  lemma ShrunkWindowIgnoresWrappedAck()
    ensures exists w: SendWin, p: Packet ::
              && ValidWin(w) && w.pkts == [p]
              && NewAckedPacket(w, NextSeqNumberToSend(w)).Acked?
              && NewAckedPacket(w, NextSeqNumberToSend(w)).win == w
  {
    var p := MakeDataPacket(U32 - 6, seq(10, _ => 0 as byte));
    var w := NewSendWin(U32 - 6, 7).(size := 10, pkts := [p]);
    assert [p][1..] == [];
    assert ValidWin(w);
    assert NextSeqNumberToSend(w) == 4;
    assert NewAckedPacket(w, 4) == Acked(w, AckResult(false, false, false, NoRtt));
  }
}
