/** The receiving half of an endpoint against the log of its peer. */
module ReceiverLemmas {
  import opened Packets
  import opened Endpoints
  import opened Logs
  import opened Reassembly
  import opened Invariants
  import opened SenderLemmas
  import RW = RecvWindows

  /** A chain that can be streamed: data, and possibly a FIN at its end. */
  ghost predicate Streamable(chain: seq<Packet>) {
    forall k :: 0 <= k < |chain| ==>
      && !chain[k].sync
      && (chain[k].fin ==> k == |chain| - 1 && chain[k].payload == [])
      && (!chain[k].fin ==> chain[k].size == |chain[k].payload| && chain[k].size > 0)
  }

  /** A chain that fits is copied to the receive buffer whole, and a FIN at its
      end is recorded; nothing goes to the overflow queue. */
  lemma {:induction false} StreamFits(e: Endpoint, chain: seq<Packet>)
    requires Streamable(chain) && |Bytes(chain)| <= RecvFree(e)
    ensures StreamChain(e, chain) ==
              Done(e.(recvBuf := e.recvBuf + Bytes(chain),
                      pipe := if HasFin(chain) then EOF_NOT_CONSUMED else e.pipe), [])
    decreases |chain|
  {
    if chain == [] {
      assert e.recvBuf + Bytes(chain) == e.recvBuf;
    } else if chain[0].fin {
      assert chain[1..] == [];
      assert e.recvBuf + Bytes(chain) == e.recvBuf;
    } else {
      var e1 := e.(recvBuf := e.recvBuf + chain[0].payload);
      forall k | 0 <= k < |chain[1..]|
        ensures && !chain[1..][k].sync
                && (chain[1..][k].fin ==> k == |chain[1..]| - 1 && chain[1..][k].payload == [])
                && (!chain[1..][k].fin ==> chain[1..][k].size == |chain[1..][k].payload| && chain[1..][k].size > 0)
      {
        assert chain[1..][k] == chain[k + 1];
      }
      StreamFits(e1, chain[1..]);
      assert e.recvBuf + Bytes(chain) == e1.recvBuf + Bytes(chain[1..]);
    }
  }

  lemma StretchStreamable(iss: nat, log: seq<Packet>, m: nat, chain: seq<Packet>)
    requires LogOk(iss, log) && m > 0 && IsStretch(chain, log, m)
    ensures Streamable(chain)
    ensures chain != [] ==> (HasFin(chain) <==> m + |chain| == |log| && HasFin(log))
  {
    forall k | 0 <= k < |chain|
      ensures && !chain[k].sync
              && (chain[k].fin ==> k == |chain| - 1 && chain[k].payload == [])
              && (!chain[k].fin ==> chain[k].size == |chain[k].payload| && chain[k].size > 0)
    {
      assert Same(chain[k], log[m + k]);
      assert KindOk(log[m + k], m + k, |log|);
      EdgeOrder(iss, log, m + k, |log|);
    }
    if chain != [] {
      var k := |chain| - 1;
      assert Same(chain[k], log[m + k]);
      assert KindOk(log[m + k], m + k, |log|);
    }
  }

  lemma PushOverflowNone(e: Endpoint)
    requires e.overflow == []
    ensures PushOverflow(e) == e
  {
  }

  ghost predicate Streamed(log: seq<Packet>, m: nat, e: Endpoint, read: seq<byte>) {
    RecvSide(log, m, e.recvBuf, e.recvCap, e.overflow, e.pipe, read)
  }

  /** Streaming the stretch of the log that the window has just released. */
  lemma StreamStretch(iss: nat, log: seq<Packet>, m: nat, e: Endpoint, read: seq<byte>, chain: seq<Packet>)
    requires LogOk(iss, log) && 0 < m <= |log| && Streamed(log, m, e, read) && IsStretch(chain, log, m)
    requires |Bytes(log)| <= |read| + e.recvCap
    ensures var o := StreamDataToReceiveBuffer(e, chain);
            && o.Done? && o.ep == e.(recvBuf := o.ep.recvBuf, pipe := o.ep.pipe)
            && Streamed(log, m + |chain|, o.ep, read)
  {
    StretchStreamable(iss, log, m, chain);
    StretchBytes(log, m, chain);
    PushOverflowNone(e);
    StreamFits(e, chain);
    Regroup(read, e.recvBuf, Bytes(chain));
    if chain == [] {
      assert e.recvBuf + Bytes(chain) == e.recvBuf;
    }
  }

  lemma StretchBytes(log: seq<Packet>, m: nat, chain: seq<Packet>)
    requires IsStretch(chain, log, m)
    ensures Bytes(log[..m + |chain|]) == Bytes(log[..m]) + Bytes(chain)
    ensures |Bytes(log[..m + |chain|])| <= |Bytes(log)|
  {
    StretchIsSlice(chain, log, m);
    BytesAppend(log[..m], chain);
    PrefixBytesLe(log, m + |chain|, |log|);
    assert log[..|log|] == log;
  }

  /** What is new in the list is the arrived packet, and it lay above the base. */
  ghost predicate ListFrom(w': RW.RecvWin, w: RW.RecvWin, p: Packet) {
    forall k :: 0 <= k < |w'.list| ==>
      w'.list[k] in w.list || (w'.list[k].seqNum == p.seqNum > w.base)
  }

  /** The receive window takes any packet of the log that it does not buffer. */
  lemma WindowReceives(iss: nat, log: seq<Packet>, m: nat, w: RW.RecvWin, p: Packet) returns (m': nat)
    requires SeqLog(iss, log) && RecvOk(iss, log, m, w) && p in log && p !in w.list
    ensures m <= m' <= |log|
    ensures var r := RW.ReceivePacket(w, p);
            && r.Received? && r.ackNum == r.win.base && m' == m + |r.chain| && IsStretch(r.chain, log, m)
            && RecvOk(iss, log, m', r.win) && w.base <= r.win.base && ListFrom(r.win, w, p)
            && (p.seqNum == w.base ==> m < m')
  {
    m' := m;
    var k :| 0 <= k < |log| && log[k] == p;
    if k < m {
      EdgeOrder(iss, log, k, m);
      ReceiveOld(iss, log, m, w, k);
    } else if k > m {
      EdgeOrder(iss, log, m, k);
      EdgeOrder(iss, log, k, |log|);
      ReceiveAhead(iss, log, m, w, p);
      AheadListFrom(w, RW.ReceivePacket(w, p).win, p);
    } else {
      m' := TakesNext(iss, log, m, w);
    }
  }

  lemma TakesNext(iss: nat, log: seq<Packet>, m: nat, w: RW.RecvWin) returns (m': nat)
    requires SeqLog(iss, log) && RecvOk(iss, log, m, w) && m < |log|
    ensures m < m' <= |log|
    ensures var r := RW.ReceivePacket(w, log[m]);
            && r.Received? && r.ackNum == r.win.base && m' == m + |r.chain| && IsStretch(r.chain, log, m)
            && RecvOk(iss, log, m', r.win) && w.base <= r.win.base && ListFrom(r.win, w, log[m])
  {
    m' := ReceiveNext(iss, log, m, w);
    EdgeOrder(iss, log, m, m');
    var r := RW.ReceivePacket(w, log[m]);
    NextListFrom(w, r.win, r.chain, log[m]);
  }

  lemma AheadListFrom(w: RW.RecvWin, w': RW.RecvWin, p: Packet)
    requires Adds(w'.list, w.list, p) && p.seqNum > w.base
    ensures ListFrom(w', w, p)
  {
    forall k | 0 <= k < |w'.list| ensures w'.list[k] in w.list || w'.list[k].seqNum == p.seqNum {
      assert w'.list[k] in w'.list;
    }
  }

  lemma NextListFrom(w: RW.RecvWin, w': RW.RecvWin, chain: seq<Packet>, p: Packet)
    requires Adds(chain + w'.list, w.list, p)
    requires AllAbove(w'.list, w'.base) && p.seqNum <= w'.base
    ensures ListFrom(w', w, p)
  {
    forall k | 0 <= k < |w'.list| ensures w'.list[k] in w.list {
      assert w'.list[k] in chain + w'.list;
      assert w'.list[k].seqNum != p.seqNum;
    }
  }

  /** A data packet or FIN of the log arrives: the handler never aborts, streams
      what it can without overflow, and acknowledges the new base. */
  lemma Receives(iss: nat, log: seq<Packet>, m: nat, e: Endpoint, read: seq<byte>, p: Packet) returns (m': nat)
    requires LogOk(iss, log) && 0 < m <= |log| && RecvOk(iss, log, m, e.rcv) && Streamed(log, m, e, read)
    requires p in log && p !in e.rcv.list
    requires |Bytes(log)| <= |read| + e.recvCap
    ensures m <= m' <= |log|
    ensures var o := ReceiveAndAck(e, p);
            && o.Done? && o.ep == e.(rcv := o.ep.rcv, recvBuf := o.ep.recvBuf, pipe := o.ep.pipe)
            && RecvOk(iss, log, m', o.ep.rcv) && Streamed(log, m', o.ep, read)
            && o.out == [AckOf(o.ep, o.ep.rcv.base)]
            && e.rcv.base <= o.ep.rcv.base && ListFrom(o.ep.rcv, e.rcv, p)
            && (p.seqNum == e.rcv.base ==> m < m')
  {
    m' := WindowReceives(iss, log, m, e.rcv, p);
    var r := RW.ReceivePacket(e.rcv, p);
    StreamStretch(iss, log, m, e.(rcv := r.win), read, r.chain);
  }

  /** As long as no more is buffered than was offered, the window field is what
      is left of the offer. */
  lemma WindowIsRest(cap: nat, used: nat)
    requires used <= cap % U16
    ensures used <= cap && (cap - used) % U16 == cap % U16 - used
  {
    var q := cap / U16;
    assert cap - used == q * U16 + (cap % U16 - used);
  }

  /** An acknowledgement of edge `m` carries the right edge of the offer. */
  lemma AckAtOfferedEdge(iss: nat, log: seq<Packet>, m: nat, e: Endpoint, read: seq<byte>)
    requires LogOk(iss, log) && 0 < m <= |log| && Streamed(log, m, e, read)
    requires |Bytes(log)| <= |read| + OfferedCap(e)
    ensures AckEdgeOf(AckOf(e, Edge(iss, log, m))) == OfferedEdge(iss, log, m, |read| + OfferedCap(e))
  {
    PrefixBytes(iss, log, m);
    PrefixBytesLe(log, m, |log|);
    assert log[..|log|] == log;
    assert KindOk(log[m - 1], m - 1, |log|);
    WindowIsRest(e.recvCap, |e.recvBuf|);
  }
}
