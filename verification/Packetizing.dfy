/** One round of the send buffer listener from any window, also one whose
    sequence numbers wrap around. */
module Packetizing {
  import opened Packets
  import opened Endpoints
  import opened SendSteps
  import SW = SendWindows

  /** Packet `i` of a round that sends `n` bytes: ten bytes as long as there are
      ten, then the rest. */
  function Piece(e: Endpoint, n: nat, i: nat): Packet
    requires 10 * i < n <= |e.sendBuf|
  {
    var k := if 10 * i + 10 <= n then 10 else n - 10 * i;
    Packet(Wrap(e.snd.base + e.snd.size + 10 * i), 0, 0, false, false, false, k, e.sendBuf[10 * i..10 * i + k])
  }

  /** The packets of a round of `n` bytes: as many as tens, and one for a rest. */
  ghost predicate Pieces(e: Endpoint, n: nat, out: seq<Packet>)
    requires n <= |e.sendBuf|
  {
    && |out| == (n + 9) / 10
    && forall i :: 0 <= i < |out| ==> Same(out[i], Piece(e, n, i))
  }

  /** The endpoint after a round: the window has gained the packets, the buffer has
      lost their bytes, and an empty window starts the timer. */
  function AfterRound(e: Endpoint, n: nat, out: seq<Packet>): Endpoint
    requires n <= |e.sendBuf|
  {
    e.(snd := e.snd.(pkts := e.snd.pkts + out, size := e.snd.size + n),
       sendBuf := e.sendBuf[n..],
       timer := e.timer || (n > 0 && e.snd.pkts == []))
  }

  /** The window takes the next packet of a round that fits. */
  lemma NextTaken(e: Endpoint, n: nat)
    requires SW.ValidWin(e.snd) && 0 < n <= |e.sendBuf| && e.snd.size + n <= e.snd.capacity
    ensures var k := if n < 10 then n else 10;
            var out := [Piece(e, n, 0)];
            EmitNext(e, n) == Done(AfterRound(e, k, out), out) && SW.ValidWin(AfterRound(e, k, out).snd)
  {
    SW.SendPacketKeepsValid(e.snd, Piece(e, n, 0));
  }

  /** For any buffer and any valid window that has room for `n` bytes: the window
      refuses nothing. */
  lemma {:induction false} AllTaken(e: Endpoint, n: nat)
    requires SW.ValidWin(e.snd) && n <= |e.sendBuf| && e.snd.size + n <= e.snd.capacity
    ensures var o := Emit(e, n);
            && AllSent(e, n) && o.Done? && SW.ValidWin(o.ep.snd)
            && Pieces(e, n, o.out) && Same(o.ep, AfterRound(e, n, o.out))
    decreases n
  {
    if n == 0 {
      assert e.snd.pkts + [] == e.snd.pkts;
    } else {
      NextTaken(e, n);
      var o1, k := EmitNext(e, n), NextSize(n);
      AllTaken(o1.ep, n - k);
      var o2 := Emit(o1.ep, n - k);
      PiecesMore(e, n, o2.out);
    }
  }

  lemma PieceMore(e: Endpoint, n: nat, i: nat)
    requires 10 * (i + 1) < n <= |e.sendBuf|
    ensures Piece(AfterRound(e, 10, [Piece(e, n, 0)]), n - 10, i) == Piece(e, n, i + 1)
  {
    assert e.sendBuf[10..][10 * i..] == e.sendBuf[10 * (i + 1)..];
  }

  /** The first packet of a round in front of the others. */
  lemma PiecesMore(e: Endpoint, n: nat, rest: seq<Packet>)
    requires 0 < n <= |e.sendBuf|
    requires var k := if n < 10 then n else 10;
             Pieces(AfterRound(e, k, [Piece(e, n, 0)]), n - k, rest)
    ensures var k := if n < 10 then n else 10;
            var first := [Piece(e, n, 0)];
            && Pieces(e, n, first + rest)
            && Same(AfterRound(AfterRound(e, k, first), n - k, rest), AfterRound(e, n, first + rest))
  {
    var k := if n < 10 then n else 10;
    var first := [Piece(e, n, 0)];
    var e1 := AfterRound(e, k, first);
    forall i | 0 <= i < |rest|
      ensures Same(rest[i], Piece(e, n, i + 1))
    {
      PieceMore(e, n, i);
    }
    assert (first + rest)[1..] == rest;
    Regroup(e.snd.pkts, first, rest);
  }

  /** How many bytes a round may send: what fits the window, of what is there. */
  function RoundSize(e: Endpoint): nat {
    if e.snd.capacity <= e.snd.size then 0
    else if e.snd.capacity - e.snd.size < |e.sendBuf| then e.snd.capacity - e.snd.size
    else |e.sendBuf|
  }

  /** Ten bytes in every packet but the last, which has the rest. */
  lemma PieceSizes(e: Endpoint, n: nat, out: seq<Packet>)
    requires n <= |e.sendBuf| && Pieces(e, n, out)
    ensures forall i :: 0 <= i < |out| - 1 ==> out[i].size == 10
    ensures n > 0 ==> out[|out| - 1].size == n - 10 * (|out| - 1)
  {
  }

  /** The three ways a round can go. */
  lemma RoundIs(e: Endpoint)
    ensures var n := RoundSize(e);
            SendBufferListener(e) ==
              if e.snd.capacity == 0 then Done(e.(prober := true), [])
              else if n == 0 then Done(e, [])
              else Emit(e, n)
  {
  }

  /** For any buffer and any valid window, a round takes exactly the first bytes
      of the buffer, as many as fit the window, and registers and sends them in
      order: in packets of ten bytes, but for a last one with the rest. The
      window refuses none of them, so no byte taken from the buffer is dropped.
      A zero window starts the prober instead. */
  lemma RoundConserves(e: Endpoint)
    requires SW.ValidWin(e.snd)
    ensures var o, n := SendBufferListener(e), RoundSize(e);
            && o.Done? && SW.ValidWin(o.ep.snd)
            && Bytes(o.out) == e.sendBuf[..n] && o.ep.sendBuf == e.sendBuf[n..]
            && o.ep.snd.pkts == e.snd.pkts + o.out
            && |o.out| == (n + 9) / 10
            && (forall i :: 0 <= i < |o.out| - 1 ==> o.out[i].size == 10)
            && (n > 0 ==> o.out[|o.out| - 1].size == n - 10 * (|o.out| - 1))
            && Pieces(e, n, o.out)
            && o.ep == AfterRound(e, n, o.out).(prober := e.prober || e.snd.capacity == 0)
  {
    var n := RoundSize(e);
    RoundIs(e);
    if n == 0 {
      assert e.snd.pkts + [] == e.snd.pkts;
    } else {
      AllTaken(e, n);
      EmitConserves(e, n);
      PieceSizes(e, n, Emit(e, n).out);
    }
  }
}
