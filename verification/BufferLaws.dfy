/** What the socket buffers promise: what a read or a write returns and moves, and
    where the payload of each received packet goes. */
module BufferLaws {
  import opened Packets
  import opened Endpoints
  import opened Pipeline

  // ---------------------------------------------------------------------------
  // The socket calls

  /** A read fails fatally exactly when the end of the stream was consumed. Any
      other splits the receive buffer: the bytes handed out are its front, as many
      as the call reports, and either as many as asked for or all there were. The
      call reports -1 exactly on a side that is shut down or, past its wait, has
      an open stream and nothing buffered. It consumes the end of the stream
      exactly when it finds the buffer empty at that end, and touches nothing
      else. */
  lemma ReadExact(e: Endpoint, size: nat)
    ensures ReadData(e, size).ReadFatal? <==> e.pipe == EOF_CONSUMED
    ensures match ReadData(e, size)
            case ReadFatal => true
            case DidRead(e', ret, data) =>
              && data + e'.recvBuf == e.recvBuf
              && (ret >= 0 ==> ret == |data| <= size && (ret == size || e'.recvBuf == []))
              && (ret < 0 ==> ret == -1 && data == [])
              && (ret == -1 <==> e.shutdown || (e.pipe == OPEN && e.recvBuf == []))
              && e'.pipe == (if !e.shutdown && e.pipe == EOF_NOT_CONSUMED && e.recvBuf == [] then EOF_CONSUMED else e.pipe)
              && e' == e.(recvBuf := e'.recvBuf, pipe := e'.pipe)
  {
    var n := if size < |e.recvBuf| then size else |e.recvBuf|;
    assert e.recvBuf[..n] + e.recvBuf[n..] == e.recvBuf;
    assert [] + e.recvBuf == e.recvBuf;
  }

  /** A write is refused exactly on a side that is shut down or has sent its FIN.
      Otherwise it puts the front of the data behind what is buffered, as many
      bytes as it reports: all of them, or as many as fill the buffer. */
  lemma WriteExact(e: Endpoint, data: seq<byte>)
    ensures var w := WriteData(e, data);
            && (w.ret == -1 <==>
                 e.shutdown || e.state in {FIN_WAIT_1, FIN_WAIT_2, TIME_WAIT, CLOSING, LAST_ACK})
            && (w.ret == -1 ==> w.ep == e)
            && (w.ret != -1 ==>
                 && 0 <= w.ret <= |data|
                 && w.ep == e.(sendBuf := e.sendBuf + data[..w.ret])
                 && (|e.sendBuf| <= e.sendCap ==> |w.ep.sendBuf| <= e.sendCap)
                 && (w.ret == |data| || |w.ep.sendBuf| >= e.sendCap))
  {
  }

  // ---------------------------------------------------------------------------
  // Packets that wait for room

  /** The room a packet of this size finds behind `used` buffered bytes. */
  predicate HasRoom(e: Endpoint, used: nat, size: nat) {
    used + size <= e.recvCap || size == 0
  }

  /** The first `k` waiting packets fit the receive buffer one after another. */
  ghost predicate AllFit(e: Endpoint, k: nat)
    requires k <= |e.overflow|
  {
    forall i :: 0 <= i < k ==>
      && e.overflow[i].payload != []
      && HasRoom(e, |e.recvBuf| + |Bytes(e.overflow[..i])|, e.overflow[i].size)
  }

  /** `e` with the first `k` waiting packets moved up. */
  function MovedUp(e: Endpoint, k: nat): Endpoint
    requires k <= |e.overflow|
  {
    e.(recvBuf := e.recvBuf + Bytes(e.overflow[..k]), overflow := e.overflow[k..])
  }

  /** Pushing up moves a prefix of the waiting packets behind the receive buffer,
      in order and without losing a byte: each of them fits and carries a payload,
      and the first one left waiting does not. */
  lemma {:induction false} PushOverflowExact(e: Endpoint) returns (k: nat)
    ensures k <= |e.overflow| && AllFit(e, k)
    ensures k < |e.overflow| ==> !AllFit(e, k + 1)
    ensures PushOverflow(e) == MovedUp(e, k)
    decreases |e.overflow|
  {
    if e.overflow != [] && AllFit(e, 1) {
      var j := PushOverflowExact(MovedUp(e, 1));
      k := j + 1;
      FitMore(e, j);
      if k < |e.overflow| { FitMore(e, k); }
    } else {
      k := 0;
      assert e.recvBuf + [] == e.recvBuf;
    }
  }

  /** One waiting packet at the front of those that move. */
  lemma FitMore(e: Endpoint, j: nat)
    requires j < |e.overflow| && AllFit(e, 1)
    ensures AllFit(e, j + 1) <==> AllFit(MovedUp(e, 1), j)
    ensures Same(MovedUp(e, j + 1), MovedUp(MovedUp(e, 1), j))
    ensures PushOverflow(e) == PushOverflow(MovedUp(e, 1))
  {
    var e1 := MovedUp(e, 1);
    FrontMoved(e);
    forall i | 0 <= i <= j
      ensures e.recvBuf + Bytes(e.overflow[..i + 1]) == e1.recvBuf + Bytes(e1.overflow[..i])
      ensures i < j ==> e.overflow[i + 1] == e1.overflow[i]
    {
      assert e.overflow[..i + 1][1..] == e1.overflow[..i];
    }
    FitsMore(e, e1, j);
  }

  lemma FitsMore(e: Endpoint, e1: Endpoint, j: nat)
    requires j < |e.overflow| && AllFit(e, 1) && |e1.overflow| == |e.overflow| - 1 && e1.recvCap == e.recvCap
    requires forall i :: 0 <= i < j ==> e.overflow[i + 1] == e1.overflow[i]
    requires forall i :: 0 <= i < j ==>
               |e.recvBuf| + |Bytes(e.overflow[..i + 1])| == |e1.recvBuf| + |Bytes(e1.overflow[..i])|
    ensures AllFit(e, j + 1) <==> AllFit(e1, j)
  {
    if AllFit(e1, j) {
      forall i | 0 <= i < j + 1
        ensures e.overflow[i].payload != []
        ensures HasRoom(e, |e.recvBuf| + |Bytes(e.overflow[..i])|, e.overflow[i].size)
      {
        if i > 0 { assert e.overflow[i] == e1.overflow[i - 1]; }
      }
    }
    if AllFit(e, j + 1) {
      forall i | 0 <= i < j
        ensures e1.overflow[i].payload != []
        ensures HasRoom(e1, |e1.recvBuf| + |Bytes(e1.overflow[..i])|, e1.overflow[i].size)
      {
        assert e.overflow[i + 1] == e1.overflow[i];
      }
    }
  }

  lemma FrontMoved(e: Endpoint)
    requires e.overflow != []
    ensures MovedUp(e, 1) == e.(recvBuf := e.recvBuf + e.overflow[0].payload, overflow := e.overflow[1..])
  {
    OneBytes(e.overflow[0]);
    assert e.overflow[..1] == [e.overflow[0]];
  }

  lemma OneBytes(p: Packet)
    ensures Bytes([p]) == p.payload
  {
    assert [p][1..] == [] && p.payload + [] == p.payload;
  }

  // ---------------------------------------------------------------------------
  // The walk along the received chain

  /** The other dice. */
  function Others(keep: seq<bool>): (r: seq<bool>)
    ensures |r| == |keep|
  {
    if keep == [] then [] else [!keep[0]] + Others(keep[1..])
  }

  /** `keep` says which packets go to the receive buffer: those with a payload
      that still fits behind what went there before. */
  ghost predicate Placed(e: Endpoint, pkts: seq<Packet>, keep: seq<bool>) {
    && |keep| == |pkts|
    && forall i :: 0 <= i < |pkts| ==>
         (keep[i] <==> pkts[i].payload != [] &&
                       HasRoom(e, |e.recvBuf| + |Bytes(Survivors(pkts[..i], keep[..i]))|, pkts[i].size))
  }

  /** `e` with those packets buffered and the others waiting. */
  function Streamed(e: Endpoint, pkts: seq<Packet>, keep: seq<bool>): Endpoint
    requires |keep| == |pkts|
  {
    e.(recvBuf := e.recvBuf + Bytes(Survivors(pkts, keep)), overflow := e.overflow + Survivors(pkts, Others(keep)))
  }

  /** The walk splits the data packets in front of the first SYN or FIN: payloads
      that fit go to the receive buffer, the other packets to the waiting ones,
      each in order and none lost. At a SYN it hangs; a FIN ends the stream and
      hides what comes after. */
  lemma {:induction false} StreamExact(e: Endpoint, chain: seq<Packet>) returns (n: nat, keep: seq<bool>)
    ensures n <= |chain| && (forall i :: 0 <= i < n ==> !chain[i].sync && !chain[i].fin)
    ensures n < |chain| ==> chain[n].sync || chain[n].fin
    ensures Placed(e, chain[..n], keep)
    ensures StreamChain(e, chain) ==
              if n == |chain| then Done(Streamed(e, chain[..n], keep), [])
              else if chain[n].sync then Abort
              else Done(Streamed(e, chain[..n], keep).(pipe := EOF_NOT_CONSUMED), [])
    decreases |chain|
  {
    if chain == [] || chain[0].sync || chain[0].fin {
      n, keep := 0, [];
      assert e.recvBuf + [] == e.recvBuf && e.overflow + [] == e.overflow;
    } else {
      var p := chain[0];
      var kept := p.payload != [] && HasRoom(e, |e.recvBuf|, p.size);
      var e1 := Streamed(e, [p], [kept]);
      StreamsOne(e, chain, kept);
      var m, rest := StreamExact(e1, chain[1..]);
      n, keep := m + 1, [kept] + rest;
      assert chain[..n] == [p] + chain[1..][..m];
      PlacedMore(e, p, kept, chain[1..][..m], rest);
    }
  }

  /** One step of the walk. */
  lemma StreamsOne(e: Endpoint, chain: seq<Packet>, kept: bool)
    requires chain != [] && !chain[0].sync && !chain[0].fin
    requires kept <==> chain[0].payload != [] && HasRoom(e, |e.recvBuf|, chain[0].size)
    ensures StreamChain(e, chain) == StreamChain(Streamed(e, [chain[0]], [kept]), chain[1..])
  {
    OneSurvives(chain[0], kept);
    OneSurvives(chain[0], !kept);
    assert e.recvBuf + [] == e.recvBuf && e.overflow + [] == e.overflow;
  }

  lemma OneSurvives(p: Packet, kept: bool)
    ensures Survivors([p], [kept]) == if kept then [p] else []
    ensures Bytes(Survivors([p], [kept])) == if kept then p.payload else []
    ensures Others([kept]) == [!kept]
  {
    OneBytes(p);
  }

  /** One packet in front of those already placed. */
  lemma PlacedMore(e: Endpoint, p: Packet, kept: bool, pkts: seq<Packet>, keep: seq<bool>)
    requires kept <==> p.payload != [] && HasRoom(e, |e.recvBuf|, p.size)
    requires Placed(Streamed(e, [p], [kept]), pkts, keep)
    ensures Placed(e, [p] + pkts, [kept] + keep)
    ensures Same(Streamed(e, [p] + pkts, [kept] + keep), Streamed(Streamed(e, [p], [kept]), pkts, keep))
  {
    var e1, ps, ks := Streamed(e, [p], [kept]), [p] + pkts, [kept] + keep;
    forall i | 0 <= i < |ps|
      ensures ks[i] <==> ps[i].payload != [] &&
                         HasRoom(e, |e.recvBuf| + |Bytes(Survivors(ps[..i], ks[..i]))|, ps[i].size)
    {
      if i > 0 {
        assert ps[..i] == [p] + pkts[..i - 1] && ks[..i] == [kept] + keep[..i - 1];
        UsedMore(e, p, kept, pkts[..i - 1], keep[..i - 1]);
        assert ps[i] == pkts[i - 1] && ks[i] == keep[i - 1] && e1.recvCap == e.recvCap;
      }
    }
    StreamedMore(e, p, kept, pkts, keep);
  }

  lemma UsedMore(e: Endpoint, p: Packet, kept: bool, pkts: seq<Packet>, keep: seq<bool>)
    requires |keep| == |pkts|
    ensures |e.recvBuf| + |Bytes(Survivors([p] + pkts, [kept] + keep))| ==
              |Streamed(e, [p], [kept]).recvBuf| + |Bytes(Survivors(pkts, keep))|
  {
    SurvivorsMore(p, kept, pkts, keep);
  }

  lemma StreamedMore(e: Endpoint, p: Packet, kept: bool, pkts: seq<Packet>, keep: seq<bool>)
    requires |keep| == |pkts|
    ensures Same(Streamed(e, [p] + pkts, [kept] + keep), Streamed(Streamed(e, [p], [kept]), pkts, keep))
  {
    SurvivorsMore(p, kept, pkts, keep);
    SurvivorsMore(p, !kept, pkts, Others(keep));
    OneSurvives(p, kept);
    Regroup(e.recvBuf, Bytes(Survivors([p], [kept])), Bytes(Survivors(pkts, keep)));
    Regroup(e.overflow, Survivors([p], [!kept]), Survivors(pkts, Others(keep)));
  }

  lemma SurvivorsMore(p: Packet, kept: bool, pkts: seq<Packet>, keep: seq<bool>)
    requires |keep| == |pkts|
    ensures Survivors([p] + pkts, [kept] + keep) == Survivors([p], [kept]) + Survivors(pkts, keep)
    ensures Bytes(Survivors([p] + pkts, [kept] + keep)) ==
              Bytes(Survivors([p], [kept])) + Bytes(Survivors(pkts, keep))
    ensures Others([kept] + keep) == [!kept] + Others(keep)
  {
    OneSurvives(p, kept);
    BytesAppend(Survivors([p], [kept]), Survivors(pkts, keep));
  }

  /** Packets that wait for room come before those that have just been received. */
  lemma StreamDataExact(e: Endpoint, chain: seq<Packet>) returns (k: nat, n: nat, keep: seq<bool>)
    ensures k <= |e.overflow| && AllFit(e, k) && (k < |e.overflow| ==> !AllFit(e, k + 1))
    ensures n <= |chain| && (forall i :: 0 <= i < n ==> !chain[i].sync && !chain[i].fin)
    ensures n < |chain| ==> chain[n].sync || chain[n].fin
    ensures Placed(MovedUp(e, k), chain[..n], keep)
    ensures StreamDataToReceiveBuffer(e, chain) ==
              if n == |chain| then Done(Streamed(MovedUp(e, k), chain[..n], keep), [])
              else if chain[n].sync then Abort
              else Done(Streamed(MovedUp(e, k), chain[..n], keep).(pipe := EOF_NOT_CONSUMED), [])
  {
    k := PushOverflowExact(e);
    n, keep := StreamExact(MovedUp(e, k), chain);
  }
}
