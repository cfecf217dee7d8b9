/** What one call of `ReceivePacket` does to any window of whole packets,
    wherever those packets came from. */
module ReceiveLaws {
  import opened Packets
  import opened RecvWindows
  import opened Logs

  function Stop(p: Packet): nat {
    p.seqNum + p.size
  }

  /** The packet takes sequence space and does not reach across 2^32. */
  ghost predicate Whole(p: Packet) {
    p.size > 0 && Stop(p) < U32
  }

  ghost predicate Disjoint(p: Packet, q: Packet) {
    Stop(p) <= q.seqNum || Stop(q) <= p.seqNum
  }

  /** Sorted, non-overlapping whole packets, none starting at `base` or below. */
  ghost predicate ProperList(list: seq<Packet>, base: int) {
    && (forall i :: 0 <= i < |list| ==> Whole(list[i]) && list[i].seqNum > base)
    && (forall i, j :: 0 <= i < j < |list| ==> Stop(list[i]) <= list[j].seqNum)
  }

  ghost predicate Proper(w: RecvWin) {
    ProperList(w.list, w.base)
  }

  /** The packets fill the sequence space from `from` to `to`, in order. */
  ghost predicate Fills(chain: seq<Packet>, from: nat, to: nat) {
    && (forall k {:trigger Edge(from, chain, k)} :: 0 <= k < |chain| ==> chain[k].seqNum == Edge(from, chain, k))
    && to == Edge(from, chain, |chain|)
  }

  /** The overlap checks of the code are exactly the test that the new packet is
      apart from every buffered one. */
  lemma FitsExactly(w: RecvWin, p: Packet)
    requires Proper(w) && Whole(p)
    ensures Fits(w.list, p) <==> forall i :: 0 <= i < |w.list| ==> Disjoint(p, w.list[i])
  {
    var n := Position(w.list, p.seqNum);
    forall k | 0 <= k < |w.list| ensures Whole(w.list[k]) {
    }
    if Fits(w.list, p) {
      forall k | 0 <= k < |w.list| ensures Disjoint(p, w.list[k]) {
        if k > n { assert Stop(w.list[n]) <= w.list[k].seqNum; }
      }
    }
    if forall i :: 0 <= i < |w.list| ==> Disjoint(p, w.list[i]) {
      forall k | 0 <= k < n ensures End(w.list[k]) <= p.seqNum {
        assert Disjoint(p, w.list[k]);
      }
      if n < |w.list| { assert Disjoint(p, w.list[n]); }
    }
  }

  /** Inserting keeps the list sorted and non-overlapping. */
  lemma InsertProper(w: RecvWin, p: Packet, low: int)
    requires Proper(w) && Whole(p) && Fits(w.list, p) && low < p.seqNum && low <= w.base
    ensures ProperList(Insert(w.list, p), low)
  {
    var l := Insert(w.list, p);
    forall k | 0 <= k < |l| ensures Whole(l[k]) && l[k].seqNum > low {
      InsertAt(w.list, p, k);
    }
    forall i, j | 0 <= i < j < |l| ensures Stop(l[i]) <= l[j].seqNum {
      InsertOrder(w, p, i, j);
    }
  }

  /** What inserting puts where. */
  lemma InsertAt(list: seq<Packet>, p: Packet, k: nat)
    requires k <= |list|
    ensures var n := Position(list, p.seqNum);
            && |Insert(list, p)| == |list| + 1
            && Same(Insert(list, p)[k], if k < n then list[k] else if k == n then p else list[k - 1])
  {
  }

  lemma InsertMultiset(list: seq<Packet>, p: Packet)
    ensures multiset(Insert(list, p)) == multiset(list) + multiset{p}
  {
    var n := Position(list, p.seqNum);
    assert list == list[..n] + list[n..];
  }

  lemma InsertOrder(w: RecvWin, p: Packet, i: nat, j: nat)
    requires Proper(w) && Whole(p) && Fits(w.list, p) && i < j <= |w.list|
    ensures Stop(Insert(w.list, p)[i]) <= Insert(w.list, p)[j].seqNum
  {
    var n := Position(w.list, p.seqNum);
    InsertAt(w.list, p, i);
    InsertAt(w.list, p, j);
    if i < n {
      assert Whole(w.list[i]) && End(w.list[i]) <= p.seqNum;
    } else if i == n && j > n + 1 {
      assert Stop(w.list[n]) <= w.list[j - 1].seqNum;
    }
  }

  lemma FillsMore(list: seq<Packet>, from: nat, i: nat)
    requires i < |list| && Fills(list[..i], from, list[i].seqNum)
    ensures Fills(list[..i + 1], from, Stop(list[i]))
  {
    var a, b := list[..i], list[..i + 1];
    forall k | 0 <= k < |b| ensures b[k].seqNum == Edge(from, b, k) {
      assert Edge(from, a, k) == Edge(from, b, k);
    }
  }

  /** The run through packet `i` fills a stretch, and what follows it in the list
      starts above a gap. */
  lemma {:induction false} RunFills(list: seq<Packet>, low: int, i: nat)
    requires ProperList(list, low) && i < |list|
    requires Fills(list[..i + 1], list[0].seqNum, Stop(list[i]))
    ensures var n := RunEnd(list, i);
            && Fills(list[..n], list[0].seqNum, Stop(list[n - 1]))
            && (n < |list| ==> Stop(list[n - 1]) < list[n].seqNum)
    decreases |list| - i
  {
    if i + 1 < |list| {
      RunGoesOn(list, low, i);
      if End(list[i]) == list[i + 1].seqNum {
        RunFills(list, low, i + 1);
      }
    } else {
      assert Whole(list[i]);
    }
  }

  lemma RunGoesOn(list: seq<Packet>, low: int, i: nat)
    requires ProperList(list, low) && i + 1 < |list|
    requires Fills(list[..i + 1], list[0].seqNum, Stop(list[i]))
    ensures if End(list[i]) == list[i + 1].seqNum then Fills(list[..i + 2], list[0].seqNum, Stop(list[i + 1]))
            else Stop(list[i]) < list[i + 1].seqNum
  {
    assert Whole(list[i]) && Stop(list[i]) <= list[i + 1].seqNum;
    if End(list[i]) == list[i + 1].seqNum {
      FillsMore(list, list[0].seqNum, i + 1);
    }
  }

  /** What is left behind the run is proper above the new base. */
  lemma RestProper(list: seq<Packet>, low: int, n: nat)
    requires ProperList(list, low) && 0 < n <= |list|
    requires n < |list| ==> Stop(list[n - 1]) < list[n].seqNum
    ensures ProperList(list[n..], Stop(list[n - 1]))
  {
    forall k | n <= k < |list| ensures Stop(list[n - 1]) < list[k].seqNum {
      if k > n { assert Stop(list[n]) <= list[k].seqNum && Whole(list[n]); }
    }
  }

  /** For every proper window and every whole packet: the checks of the code pass
      if and only if the packet is old or apart from every buffered one, and then
      the window stays proper, the acknowledgement is its new base, the released
      chain fills the space from the old base to the new one, nothing that stays
      starts at the new base, and no packet is lost or doubled. */
  lemma ReceiveExact(w: RecvWin, p: Packet)
    requires Proper(w) && Whole(p)
    ensures var r := ReceivePacket(w, p);
            && (r.Received? <==> p.seqNum < w.base || forall i :: 0 <= i < |w.list| ==> Disjoint(p, w.list[i]))
            && (r.Received? ==>
                  && Proper(r.win) && r.ackNum == r.win.base && Fills(r.chain, w.base, r.win.base)
                  && (r.chain != [] <==> p.seqNum == w.base)
                  && multiset(r.chain) + multiset(r.win.list) ==
                       multiset(w.list) + if p.seqNum < w.base then multiset{} else multiset{p})
  {
    FitsExactly(w, p);
    if p.seqNum > w.base && Fits(w.list, p) {
      InsertProper(w, p, w.base);
      InsertMultiset(w.list, p);
    } else if p.seqNum == w.base && Fits(w.list, p) {
      ReceiveAtBase(w, p);
    }
  }

  lemma ReceiveAtBase(w: RecvWin, p: Packet)
    requires Proper(w) && Whole(p) && p.seqNum == w.base && Fits(w.list, p)
    ensures var r := ReceivePacket(w, p);
            && r.Received? && Proper(r.win) && r.ackNum == r.win.base
            && r.chain != [] && Fills(r.chain, w.base, r.win.base)
            && multiset(r.chain) + multiset(r.win.list) == multiset(w.list) + multiset{p}
  {
    var list := Insert(w.list, p);
    assert Position(w.list, p.seqNum) == 0;
    InsertAt(w.list, p, 0);
    InsertProper(w, p, w.base - 1);
    InsertMultiset(w.list, p);
    ReleaseRun(list, w.base - 1);
  }

  /** Cutting the run off the front of a proper list. */
  lemma ReleaseRun(list: seq<Packet>, low: int)
    requires ProperList(list, low) && list != []
    ensures var n := RunEnd(list, 0);
            && Fills(list[..n], list[0].seqNum, End(list[n - 1])) && ProperList(list[n..], End(list[n - 1]))
            && multiset(list[..n]) + multiset(list[n..]) == multiset(list)
  {
    FillsMore(list, list[0].seqNum, 0);
    RunFills(list, low, 0);
    var n := RunEnd(list, 0);
    RestProper(list, low, n);
    assert Whole(list[n - 1]);
    SplitMultiset(list, n);
  }

  lemma SplitMultiset<T>(s: seq<T>, n: nat)
    requires n <= |s|
    ensures multiset(s[..n]) + multiset(s[n..]) == multiset(s)
  {
    assert s == s[..n] + s[n..];
  }

  // ---------------------------------------------------------------------------
  // Wrap-around

  /** The receiver compares sequence numbers with plain `<`. Counted without
      bound, a packet that starts below the base is recognised as old if and only
      if no multiple of 2^32 lies between them. */
  lemma OldIgnoredExactly(w: RecvWin, p: Packet, start: nat, base: nat)
    requires p.seqNum == Wrap(start) && w.base == Wrap(base) && start < base < start + U32
    ensures ReceivePacket(w, p) == Received(w, w.base, []) <==> start / U32 == base / U32
  {
    assert start == U32 * (start / U32) + Wrap(start);
    assert base == U32 * (base / U32) + Wrap(base);
    if p.seqNum >= w.base && ReceivePacket(w, p).Received? {
      InsertAt(w.list, p, 0);
      assert p.seqNum > w.base ==> |ReceivePacket(w, p).win.list| == |w.list| + 1;
    }
  }

  /** So an acknowledged packet from before the wrap is filed as a new one, and
      when it comes once more the overlap check fails. */
  lemma StaleAfterWrapAborts(base: nat, data: seq<byte>)
    requires 0 < |data| && base + |data| + 1 < U32
    ensures var p := MakeDataPacket(U32 - |data| - 1, data);
            && ReceivePacket(RecvWin(base, []), p) == Received(RecvWin(base, [p]), base, [])
            && ReceivePacket(RecvWin(base, [p]), p) == RecvAbort
  {
    var p := MakeDataPacket(U32 - |data| - 1, data);
    InsertAt([], p, 0);
    assert Insert([], p) == [p];
  }
}
