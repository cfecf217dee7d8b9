/** The send window against the log it was filled from. */
module SenderLemmas {
  import opened Packets
  import opened Logs
  import opened Invariants
  import SW = SendWindows

  lemma {:induction false} StretchContiguous(iss: nat, log: seq<Packet>, pkts: seq<Packet>, n: nat, base: nat, off: nat)
    requires SeqLog(iss, log) && IsStretch(pkts, log, n) && n + |pkts| == |log|
    requires base + off == Edge(iss, log, n)
    ensures SW.Contiguous(pkts, base, off)
    ensures TotalSize(pkts) == Edge(iss, log, |log|) - Edge(iss, log, n)
    decreases |pkts|
  {
    if pkts != [] {
      EdgeOrder(iss, log, n, |log|);
      assert Same(pkts[0], log[n]);
      assert Edge(iss, log, n + 1) == log[n].seqNum + log[n].size;
      StretchTail(pkts, log, n);
      StretchContiguous(iss, log, pkts[1..], n + 1, base, off + pkts[0].size);
    }
  }

  lemma StretchTail<T>(pkts: seq<T>, log: seq<T>, n: nat)
    requires IsStretch(pkts, log, n) && pkts != []
    ensures IsStretch(pkts[1..], log, n + 1)
  {
    forall k | 0 <= k < |pkts[1..]| ensures pkts[1..][k] == log[n + 1 + k] {
      assert pkts[1..][k] == pkts[k + 1];
    }
  }

  lemma StretchDrop<T>(pkts: seq<T>, log: seq<T>, n: nat, j: nat)
    requires IsStretch(pkts, log, n) && j <= |pkts|
    ensures IsStretch(pkts[j..], log, n + j)
  {
    forall k | 0 <= k < |pkts[j..]| ensures pkts[j..][k] == log[n + j + k] {
      assert pkts[j..][k] == pkts[j + k];
    }
  }

  lemma StretchGrow<T>(pkts: seq<T>, log: seq<T>, n: nat, p: T)
    requires IsStretch(pkts, log, n) && n + |pkts| == |log|
    ensures IsStretch(pkts + [p], log + [p], n)
  {
  }

  /** A window cut from a log is a valid window, clear of wrap-around. */
  lemma WindowValid(iss: nat, log: seq<Packet>, w: SW.SendWin)
    requires SeqLog(iss, log) && WindowOk(iss, log, w)
    ensures SW.ValidWin(w) && w.base + w.size < U32
    ensures SW.NextSeqNumberToSend(w) == Edge(iss, log, |log|)
    ensures w.size == 0 <==> w.pkts == []
  {
    var n := |log| - |w.pkts|;
    StretchContiguous(iss, log, w.pkts, n, w.base, 0);
    if w.pkts != [] { EdgeOrder(iss, log, n, |log|); }
  }

  lemma {:induction false} PrefixSize(iss: nat, log: seq<Packet>, pkts: seq<Packet>, n: nat, j: nat)
    requires SeqLog(iss, log) && IsStretch(pkts, log, n) && j <= |pkts|
    ensures TotalSize(pkts[..j]) == Edge(iss, log, n + j) - Edge(iss, log, n)
    decreases j
  {
    if j > 0 {
      PrefixSize(iss, log, pkts, n, j - 1);
      assert pkts[..j] == pkts[..j - 1] + [pkts[j - 1]];
      TotalSizeAppend(pkts[..j - 1], [pkts[j - 1]]);
      assert [pkts[j - 1]][1..] == [];
      EdgeOrder(iss, log, n + j - 1, n + j);
      assert Same(pkts[j - 1], log[n + j - 1]);
    }
  }

  /** Acknowledging up to edge `k` of the log never trips a check, leaves the
      window holding the log from `k` on, and asks for a retransmission only
      when it brought nothing new. */
  lemma AckEdge(iss: nat, log: seq<Packet>, w: SW.SendWin, k: nat)
    requires SeqLog(iss, log) && WindowOk(iss, log, w)
    requires |log| - |w.pkts| <= k <= |log|
    ensures var r := SW.NewAckedPacket(w, Edge(iss, log, k));
            && r.Acked? && WindowOk(iss, log, r.win) && |r.win.pkts| == |log| - k
            && r.win.capacity == w.capacity
            && (r.result.refreshed <==> |log| - |w.pkts| < k)
            && (r.result.retransmit ==> !r.result.refreshed)
  {
    if |log| - |w.pkts| < k { AckEdgeAhead(iss, log, w, k); }
  }

  lemma AckEdgeAhead(iss: nat, log: seq<Packet>, w: SW.SendWin, k: nat)
    requires SeqLog(iss, log) && WindowOk(iss, log, w)
    requires |log| - |w.pkts| < k <= |log|
    ensures var r := SW.NewAckedPacket(w, Edge(iss, log, k));
            && r.Acked? && WindowOk(iss, log, r.win) && |r.win.pkts| == |log| - k
            && r.win.capacity == w.capacity && r.result.refreshed
  {
    var n := |log| - |w.pkts|;
    var j := k - n;
    WindowValid(iss, log, w);
    PrefixSize(iss, log, w.pkts, n, j);
    EdgeOrder(iss, log, n, k);
    if k < |log| { EdgeOrder(iss, log, k, |log|); }
    assert w.base + TotalSize(w.pkts[..j]) == Edge(iss, log, k) < U32;
    SW.AckWrapRefinement(w, j);
    PrefixWindowOk(iss, log, w, k);
  }

  lemma PrefixWindowOk(iss: nat, log: seq<Packet>, w: SW.SendWin, k: nat)
    requires SeqLog(iss, log) && WindowOk(iss, log, w)
    requires |log| - |w.pkts| <= k <= |log|
    requires var j := k - (|log| - |w.pkts|); w.base + TotalSize(w.pkts[..j]) == Edge(iss, log, k) < U32
    ensures var j := k - (|log| - |w.pkts|);
            && TotalSize(w.pkts[..j]) <= w.size && WindowOk(iss, log, SW.AckPrefix(w, j))
            && |SW.AckPrefix(w, j).pkts| == |log| - k
  {
    var n := |log| - |w.pkts|;
    if k < |log| { EdgeOrder(iss, log, k, |log|); }
    StretchDrop(w.pkts, log, n, k - n);
  }

  /** Registering the next packet of the log succeeds when it fits. */
  lemma RegisterNext(iss: nat, log: seq<Packet>, w: SW.SendWin, p: Packet)
    requires SeqLog(iss, log) && WindowOk(iss, log, w)
    requires p.size > 0 && p.seqNum == Edge(iss, log, |log|) && p.seqNum + p.size < U32
    requires w.capacity == 0 || w.size + p.size <= w.capacity
    ensures SeqLog(iss, log + [p])
    ensures var r := SW.SendPacket(w, p);
            && r.Sent? && WindowOk(iss, log + [p], r.win) && r.win == w.(pkts := w.pkts + [p], size := w.size + p.size)
  {
    WindowValid(iss, log, w);
    SW.SendPacketKeepsValid(w, p);
    LogGrow(iss, log, p);
    StretchGrow(w.pkts, log, |log| - |w.pkts|, p);
  }

  lemma LogGrow(iss: nat, log: seq<Packet>, p: Packet)
    requires SeqLog(iss, log) && p.size > 0 && p.seqNum == Edge(iss, log, |log|) && p.seqNum + p.size < U32
    ensures SeqLog(iss, log + [p])
    ensures Edge(iss, log + [p], |log| + 1) == p.seqNum + p.size
    ensures forall k {:trigger Edge(iss, log + [p], k)} :: 0 <= k <= |log| ==> Edge(iss, log + [p], k) == Edge(iss, log, k)
  {
    var log' := log + [p];
    forall k | 0 <= k < |log'| ensures log'[k].seqNum == Edge(iss, log', k) && log'[k].size > 0 {
      if k < |log| {
        assert log'[k] == log[k];
        assert Edge(iss, log', k) == Edge(iss, log, k);
      }
    }
  }

  /** Bytes of a log prefix, counted by where it ends. */
  lemma {:induction false} PrefixBytes(iss: nat, log: seq<Packet>, k: nat)
    requires LogOk(iss, log) && 0 < k <= |log|
    ensures |Bytes(log[..k])| + (if log[k - 1].fin then 1 else 0) == Edge(iss, log, k) - iss - 1
    decreases k
  {
    EdgeOrder(iss, log, k - 1, k);
    assert KindOk(log[k - 1], k - 1, |log|);
    assert log[..k] == log[..k - 1] + [log[k - 1]];
    BytesAppend(log[..k - 1], [log[k - 1]]);
    assert [log[k - 1]][1..] == [];
    if k > 1 {
      assert KindOk(log[k - 2], k - 2, |log|);
      PrefixBytes(iss, log, k - 1);
    } else {
      assert log[..0] == [];
    }
  }

  lemma LogBytes(iss: nat, log: seq<Packet>)
    requires LogOk(iss, log) && log != []
    ensures |Bytes(log)| + (if HasFin(log) then 1 else 0) == Edge(iss, log, |log|) - iss - 1
  {
    PrefixBytes(iss, log, |log|);
    assert log[..|log|] == log;
  }

  lemma PrefixBytesLe(log: seq<Packet>, k: nat, l: nat)
    requires k <= l <= |log|
    ensures Bytes(log[..l]) == Bytes(log[..k]) + Bytes(log[k..l])
    ensures |Bytes(log[..k])| <= |Bytes(log[..l])|
  {
    assert log[..l] == log[..k] + log[k..l];
    BytesAppend(log[..k], log[k..l]);
  }
}
