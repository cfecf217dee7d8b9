/** The send window as the code has it: an object whose queue and counters are
    updated in place. Every method is proved against the value in `SendWindows`. */
module SendWindowClass {
  import opened Packets
  import SW = SendWindows

  class SendWindow {
    var base: nat
    var capacity: nat
    var size: uint32
    var pktsToAck: seq<Packet>
    var lastAckedNum: nat
    var duplicatedAcks: nat
    var maxDuplicatedAcks: nat
    var hasRetransmittedPkt: bool

    ghost function Value(): SW.SendWin
      reads this
    {
      SW.SendWin(base, capacity, size, pktsToAck, lastAckedNum, duplicatedAcks, maxDuplicatedAcks, hasRetransmittedPkt)
    }

    constructor (sendBase: nat, capacity: nat)
      ensures Value() == SW.NewSendWin(sendBase, capacity)
    {
      this.base := sendBase;
      this.capacity := capacity;
      size, pktsToAck, lastAckedNum, duplicatedAcks := 0, [], 0, 0;
      maxDuplicatedAcks := SW.MAX_DUPLICATED_ACKS_ORIGIN;
      hasRetransmittedPkt := false;
    }

    method FreeSpace() returns (n: nat)
      ensures n == SW.FreeSpace(Value())
      ensures size <= capacity ==> size + n == capacity
    {
      if capacity > size {
        n := capacity - size;
      } else {
        n := 0;
      }
    }

    method NextSeqNumberToSend() returns (n: nat)
      ensures n == SW.NextSeqNumberToSend(Value())
      ensures base + size < U32 ==> n == base + size
    {
      n := Wrap(base + size);
    }

    method SetCapacity(newCapacity: nat)
      modifies this`capacity
      ensures Value() == old(Value()).(capacity := newCapacity)
    {
      capacity := newCapacity;
    }

    /** Put a newly sent packet into the window. `aborted` stands for the sanity
        check; otherwise `ok` says whether the packet was taken. */
    method SendPacket(p: Packet) returns (aborted: bool, ok: bool)
      modifies this
      ensures aborted <==> SW.SendPacket(old(Value()), p).SendAbort?
      ensures !aborted ==> (ok <==> SW.SendPacket(old(Value()), p).Sent?)
      ensures Value() == if !aborted && ok then SW.SendPacket(old(Value()), p).win else old(Value())
    {
      aborted, ok := false, false;
      var free := FreeSpace();
      if free < p.size && capacity > 0 {
        return;
      }
      if pktsToAck == [] && p.seqNum != base {
        return;
      }
      if pktsToAck != [] {
        var last := pktsToAck[|pktsToAck| - 1];
        if Wrap(last.seqNum + last.size) != Wrap(base + size) {
          aborted := true;
          return;
        }
        if p.seqNum != Wrap(last.seqNum + last.size) {
          return;
        }
      }
      pktsToAck := pktsToAck + [p];
      size := Wrap(size + p.size);
      ok := true;
    }

    /** The loop of `NewAckedPacket`: pop the packets the acknowledgement covers,
        and report the number it should carry and the last packet's stopwatch. */
    method PopAcked(ackNum: nat, overflow: bool) returns (aborted: bool, expected: nat, rtt: SW.Rtt)
      modifies this`size, this`pktsToAck
      ensures Loop(old(pktsToAck), old(size), 0, SW.NoRtt, ackNum, overflow, base) ==
                if aborted then LoopAbort else LoopEnd(pktsToAck, size, expected, rtt)
    {
      aborted, expected, rtt := false, 0, SW.NoRtt;
      var seqNum, length := 0, 0;
      var i, queueSize := 0, |pktsToAck|;
      while i < queueSize
        invariant i + |pktsToAck| == queueSize
        invariant Loop(pktsToAck, size, Wrap(seqNum + length), rtt, ackNum, overflow, base) ==
                    Loop(old(pktsToAck), old(size), 0, SW.NoRtt, ackNum, overflow, base)
      {
        var front := pktsToAck[0];
        seqNum, length := front.seqNum, front.size;
        if seqNum < ackNum || (overflow && seqNum >= base) {
          if !(Wrap(seqNum + length) <= ackNum || (overflow && Wrap(seqNum + length) > ackNum)) {
            aborted := true;
            return;
          }
          size := Wrap(size - front.size);
          rtt := SW.Measured(front);
          pktsToAck := pktsToAck[1..];
          i := i + 1;
        } else {
          break;
        }
      }
      expected := if pktsToAck == [] then Wrap(seqNum + length) else seqNum;
    }

    /** A cumulative acknowledgement: pop what it covers, or count a duplicate. */
    method NewAckedPacket(ackNum: nat) returns (aborted: bool, result: SW.AckResult)
      modifies this
      ensures aborted <==> SW.NewAckedPacket(old(Value()), ackNum).AckAbort?
      ensures !aborted ==> SW.NewAckedPacket(old(Value()), ackNum) == SW.Acked(Value(), result)
    {
      aborted, result := false, SW.AckResult(false, false, false, SW.NoRtt);
      var overflow := ackNum < base && ackNum <= Wrap(base + capacity);
      if base < ackNum || overflow {
        var expected, rtt;
        LoopAcks(Value(), ackNum);
        aborted, expected, rtt := PopAcked(ackNum, overflow);
        if aborted {
          return;
        }
        if ackNum != expected {
          aborted := true;
          return;
        }
        base, lastAckedNum := ackNum, ackNum;
        duplicatedAcks, maxDuplicatedAcks := 0, SW.MAX_DUPLICATED_ACKS_ORIGIN;
        var validRtt := !hasRetransmittedPkt;
        if pktsToAck == [] {
          hasRetransmittedPkt := false;
        }
        result := SW.AckResult(true, false, false, if validRtt then rtt else SW.NoRtt);
      } else if ackNum == base {
        duplicatedAcks := Wrap(duplicatedAcks + 1);
        if duplicatedAcks >= maxDuplicatedAcks {
          duplicatedAcks := 0;
          maxDuplicatedAcks := Wrap(maxDuplicatedAcks * 3 / 2);
          result := SW.AckResult(false, true, true, SW.NoRtt);
        } else {
          result := SW.AckResult(false, true, false, SW.NoRtt);
        }
      }
    }

    /** The packet to send again, if there is one. */
    method GetBasePacketToReSend() returns (pkts: seq<Packet>)
      modifies this`hasRetransmittedPkt
      ensures pkts == SW.BasePacket(old(Value())) && Value() == SW.MarkResent(old(Value()))
    {
      pkts := [];
      if pktsToAck != [] {
        hasRetransmittedPkt := true;
        pkts := [pktsToAck[0]];
      }
    }
  }

  // ---------------------------------------------------------------------------
  // The pop loop

  datatype LoopResult = LoopAbort | LoopEnd(rest: seq<Packet>, size: nat, expected: nat, rtt: SW.Rtt)

  /** The loop as a function of its variables: the queue, the size counter, where
      the last popped packet ended and its stopwatch. */
  function Loop(pkts: seq<Packet>, size: nat, end: nat, rtt: SW.Rtt, ackNum: nat, overflow: bool, base: nat): LoopResult
    decreases |pkts|
  {
    if pkts == [] then LoopEnd(pkts, size, end, rtt)
    else if !SW.Covered(pkts[0], ackNum, overflow, base) then LoopEnd(pkts, size, pkts[0].seqNum, rtt)
    else if !SW.NotCut(pkts[0], ackNum, overflow) then LoopAbort
    else Loop(pkts[1..], Wrap(size - pkts[0].size), End(pkts[0]), SW.Measured(pkts[0]), ackNum, overflow, base)
  }

  lemma SubtractTwice(size: int, a: nat, b: nat)
    ensures Wrap(Wrap(size - a) - b) == Wrap(size - (a + b))
  {
    SW.WrapShift(Wrap(size - a), size - a, 0 - b);
  }

  /** One packet more at the front of a popped prefix. */
  lemma PrefixMore(pkts: seq<Packet>, n: nat)
    requires n < |pkts|
    ensures pkts[n + 1..] == pkts[1..][n..]
    ensures TotalSize(pkts[..n + 1]) == pkts[0].size + TotalSize(pkts[1..][..n])
    ensures SW.ExpectedAck(pkts, n + 1) == if |pkts| == 1 then End(pkts[0]) else SW.ExpectedAck(pkts[1..], n)
    ensures n > 0 ==> pkts[n] == pkts[1..][n - 1]
  {
    assert pkts[..n + 1][1..] == pkts[1..][..n];
  }

  /** How the loop ends after `n` pops. */
  function LoopAt(pkts: seq<Packet>, n: nat, size: nat, end: nat, rtt: SW.Rtt): LoopResult
    requires n <= |pkts|
  {
    LoopEnd(pkts[n..], Wrap(size - TotalSize(pkts[..n])),
            if pkts == [] then end else SW.ExpectedAck(pkts, n),
            if n == 0 then rtt else SW.Measured(pkts[n - 1]))
  }

  lemma LoopAtMore(pkts: seq<Packet>, n: nat, size: nat, end: nat, rtt: SW.Rtt)
    requires n < |pkts|
    ensures Same(LoopAt(pkts, n + 1, size, end, rtt),
                 LoopAt(pkts[1..], n, Wrap(size - pkts[0].size), End(pkts[0]), SW.Measured(pkts[0])))
  {
    PrefixMore(pkts, n);
    SubtractTwice(size, pkts[0].size, TotalSize(pkts[1..][..n]));
  }

  /** How the loop ends, by the prefix that the specification counts. */
  function LoopSpec(pkts: seq<Packet>, size: nat, end: nat, rtt: SW.Rtt, ackNum: nat, overflow: bool, base: nat): LoopResult {
    match SW.PopLoop(pkts, ackNum, overflow, base)
    case PopAbort => LoopAbort
    case Popped(n) => LoopAt(pkts, n, size, end, rtt)
  }

  lemma LoopSpecMore(pkts: seq<Packet>, size: nat, end: nat, rtt: SW.Rtt, ackNum: nat, overflow: bool, base: nat)
    requires pkts != [] && SW.Covered(pkts[0], ackNum, overflow, base) && SW.NotCut(pkts[0], ackNum, overflow)
    ensures Same(LoopSpec(pkts, size, end, rtt, ackNum, overflow, base),
                 LoopSpec(pkts[1..], Wrap(size - pkts[0].size), End(pkts[0]), SW.Measured(pkts[0]), ackNum, overflow, base))
  {
    match SW.PopLoop(pkts[1..], ackNum, overflow, base)
    case PopAbort =>
    case Popped(n) => LoopAtMore(pkts, n, size, end, rtt);
  }

  /** The loop pops the prefix that the specification counts, and subtracting
      packet by packet is subtracting the sum, modulo 2^32. */
  lemma {:induction false} LoopPops(pkts: seq<Packet>, size: nat, end: nat, rtt: SW.Rtt, ackNum: nat, overflow: bool, base: nat)
    requires size < U32
    ensures Loop(pkts, size, end, rtt, ackNum, overflow, base) == LoopSpec(pkts, size, end, rtt, ackNum, overflow, base)
    decreases |pkts|
  {
    if pkts != [] && SW.Covered(pkts[0], ackNum, overflow, base) && SW.NotCut(pkts[0], ackNum, overflow) {
      LoopPops(pkts[1..], Wrap(size - pkts[0].size), End(pkts[0]), SW.Measured(pkts[0]), ackNum, overflow, base);
      LoopSpecMore(pkts, size, end, rtt, ackNum, overflow, base);
    } else {
      assert pkts[0..] == pkts;
    }
  }

  /** What the acknowledgement amounts to once the loop has ended. */
  lemma LoopAcks(w: SW.SendWin, ackNum: nat)
    requires w.size < U32
    requires w.base < ackNum || SW.AckOverflow(w, ackNum)
    ensures SW.NewAckedPacket(w, ackNum) ==
              match Loop(w.pkts, w.size, 0, SW.NoRtt, ackNum, SW.AckOverflow(w, ackNum), w.base)
              case LoopAbort => SW.AckAbort
              case LoopEnd(rest, size, expected, rtt) =>
                if ackNum != expected then SW.AckAbort
                else SW.Acked(w.(base := ackNum, lastAcked := ackNum, pkts := rest, size := size, duplicatedAcks := 0,
                                 maxDuplicatedAcks := SW.MAX_DUPLICATED_ACKS_ORIGIN,
                                 hasRetransmitted := w.hasRetransmitted && rest != []),
                              SW.AckResult(true, false, false, if w.hasRetransmitted then SW.NoRtt else rtt))
  {
    LoopPops(w.pkts, w.size, 0, SW.NoRtt, ackNum, SW.AckOverflow(w, ackNum), w.base);
  }
}
