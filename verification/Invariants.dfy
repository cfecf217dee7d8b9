/** What every reachable state of the two-party system keeps. */
module Invariants {
  import opened Packets
  import opened Endpoints
  import opened Logs
  import opened Reassembly
  import opened Network
  import SW = SendWindows
  import RW = RecvWindows

  // ---------------------------------------------------------------------------
  // The sender's log and its window

  /** Packet `k` of a log of `n`: SYN comes first and only first, FIN can only
      be last, and everything else carries as many bytes as it takes space. */
  ghost predicate KindOk(p: Packet, k: nat, n: nat) {
    && (p.sync <==> k == 0)
    && (p.fin ==> k > 0 && k == n - 1 && !p.ack)
    && (if p.sync || p.fin then p.size == 1 && p.payload == [] else !p.ack && p.size == |p.payload|)
  }

  ghost predicate LogOk(iss: nat, log: seq<Packet>) {
    && SeqLog(iss, log)
    && (forall k :: 0 <= k < |log| ==> KindOk(log[k], k, |log|))
  }

  predicate HasFin(log: seq<Packet>) {
    log != [] && log[|log| - 1].fin
  }

  /** The send window holds the end of the log. */
  ghost predicate WindowOk(iss: nat, log: seq<Packet>, w: SW.SendWin) {
    && |w.pkts| <= |log|
    && IsStretch(w.pkts, log, |log| - |w.pkts|)
    && w.base == Edge(iss, log, |log| - |w.pkts|)
    && w.base + w.size == Edge(iss, log, |log|)
    && w.capacity < U32
  }

  /** How many packets of its log a node knows to be acknowledged. */
  function Acked(a: Node): int {
    |a.log| - |a.ep.snd.pkts|
  }

  predicate Handshaking(s: TcpState) {
    s == SYN_SENT || s == SYN_RCVD
  }

  ghost predicate StateOk(state: TcpState, shutdown: bool, timer: bool, sendBuf: seq<byte>, unacked: nat, log: seq<Packet>) {
    && (log == [] <==> state == CLOSED && !shutdown)
    && (Handshaking(state) ==> |log| == 1 && unacked == 1)
    && (log != [] && !Handshaking(state) ==> unacked < |log|)
    && (HasFin(log) <==> InClosingState(state) || (state == CLOSED && shutdown))
    && (HasFin(log) ==> sendBuf == [])
    && (state == FIN_WAIT_2 || shutdown ==> unacked == 0)
    && (shutdown ==> state == CLOSED)
    && (timer <==> unacked > 0)
  }

  ghost predicate SendSide(a: Node) {
    && LogOk(a.iss, a.log)
    && WindowOk(a.iss, a.log, a.ep.snd)
    && StateOk(a.ep.state, a.ep.shutdown, a.ep.timer, a.ep.sendBuf, |a.ep.snd.pkts|, a.log)
    && (a.ep.prober ==> Acked(a) > 0)
    && a.written == Bytes(a.log) + a.ep.sendBuf
    && SeqUse(a) < U32
  }

  // ---------------------------------------------------------------------------
  // The receiver: what has been accepted, streamed and read

  ghost predicate RecvSide(log: seq<Packet>, m: nat, recvBuf: seq<byte>, recvCap: nat,
                           overflow: seq<Packet>, pipe: PipeState, read: seq<byte>)
  {
    && m <= |log|
    && Bytes(log[..m]) == read + recvBuf
    && |recvBuf| <= recvCap
    && overflow == []
    && (pipe == OPEN <==> !(m == |log| && HasFin(log)))
    && (pipe == EOF_CONSUMED ==> recvBuf == [])
  }

  /** How much of its buffer a receiver ever offers: the window field has 16 bits,
      so what a larger buffer adds in multiples of 65536 is never filled. */
  function OfferedCap(e: Endpoint): nat {
    e.recvCap % U16
  }

  /** How many bytes the receiver has offered room for since the start. The right
      edge in the sender's sequence space is `iss + 1` above that. */
  function Room(b: Node): nat {
    |b.read| + OfferedCap(b.ep)
  }

  /** Nothing was sent beyond the room the receiver offered, nor beyond the window,
      and the window allows nothing beyond that room; the FIN takes no room. */
  ghost predicate FlowOk(iss: nat, log: seq<Packet>, acked: int, base: nat, capacity: nat, room: nat) {
    && |Bytes(log)| <= room
    && (acked > 0 && !HasFin(log) ==> Edge(iss, log, |log|) <= base + capacity <= iss + 1 + room)
  }

  // ---------------------------------------------------------------------------
  // Packets and acknowledgements in flight

  predicate IsProbe(p: Packet) {
    !p.sync && !p.ack && !p.fin && p.size == 0
  }

  ghost predicate Shape(log: seq<Packet>, acked: int, p: Packet) {
    if p.size > 0 then p in log
    else !p.sync && !p.fin && (!p.ack ==> acked > 0)
  }

  /** Packets in flight come from the log, and above the receiver's base there is
      at most one copy of each across the channel and the buffered list. */
  ghost predicate InFlight(log: seq<Packet>, acked: int, rcv: RW.RecvWin, ch: seq<Packet>) {
    && (forall i :: 0 <= i < |ch| ==> Shape(log, acked, ch[i]))
    && (forall i, j :: 0 <= i < j < |ch| && ch[i].size > 0 && ch[j].size > 0 && ch[i].seqNum > rcv.base ==>
          ch[i].seqNum != ch[j].seqNum)
    && (forall i, k :: 0 <= i < |ch| && 0 <= k < |rcv.list| && ch[i].size > 0 ==>
          ch[i].seqNum != rcv.list[k].seqNum)
  }

  ghost predicate AckOk(iss: nat, log: seq<Packet>, acked: int, m: nat, v: nat) {
    exists k {:trigger Edge(iss, log, k)} :: 1 <= k <= m && acked <= k && k <= |log| && v == Edge(iss, log, k)
  }

  /** The right edge an acknowledgement carries. */
  function AckEdgeOf(p: Packet): nat {
    p.ackNum + p.window
  }

  /** The right edge a receiver advertises; an accepted FIN counts as one. */
  function OfferedEdge(iss: nat, log: seq<Packet>, m: nat, room: nat): nat {
    iss + 1 + room + if m == |log| && HasFin(log) then 1 else 0
  }

  /** Acknowledgements in flight are packet boundaries the sender has not passed
      yet, neither they nor their right edges ever decrease, and none promises
      space that is not there. */
  ghost predicate AcksOk(iss: nat, log: seq<Packet>, acked: int, m: nat, room: nat, ch: seq<Packet>) {
    && (forall i :: 0 <= i < |ch| && PureAck(ch[i]) ==> AckOk(iss, log, acked, m, ch[i].ackNum))
    && (forall i :: 0 <= i < |ch| && PureAck(ch[i]) ==> ch[i].window < U16 && AckEdgeOf(ch[i]) <= OfferedEdge(iss, log, m, room))
    && (forall i, j :: 0 <= i < j < |ch| && PureAck(ch[i]) && PureAck(ch[j]) ==>
          ch[i].ackNum <= ch[j].ackNum && AckEdgeOf(ch[i]) <= AckEdgeOf(ch[j]))
  }

  /** Where the sender's window ends, as long as acknowledgements decide that. */
  function SenderEdge(a: Node): nat {
    if Acked(a) > 0 && !HasFin(a.log) then a.ep.snd.base + a.ep.snd.capacity else 0
  }

  /** No acknowledgement in flight takes back any of the window. */
  ghost predicate NoneBehind(edge: nat, ch: seq<Packet>) {
    forall i :: 0 <= i < |ch| && PureAck(ch[i]) ==> edge <= AckEdgeOf(ch[i])
  }

  /** Everything about the stream from `a` to `b`; `b` has accepted `m` packets. */
  ghost predicate Direction(a: Node, b: Node, m: nat) {
    && RecvOk(a.iss, a.log, m, b.ep.rcv)
    && Acked(a) <= m
    && RecvSide(a.log, m, b.ep.recvBuf, b.ep.recvCap, b.ep.overflow, b.ep.pipe, b.read)
    && FlowOk(a.iss, a.log, Acked(a), a.ep.snd.base, a.ep.snd.capacity, Room(b))
    && InFlight(a.log, Acked(a), b.ep.rcv, a.out)
    && AcksOk(a.iss, a.log, Acked(a), m, Room(b), b.out)
    && NoneBehind(SenderEdge(a), b.out)
  }

  ghost predicate Pair(a: Node, b: Node, mab: nat, mba: nat) {
    && SendSide(a) && SendSide(b)
    && Direction(a, b, mab) && Direction(b, a, mba)
  }

  // ---------------------------------------------------------------------------
  // The handshake

  ghost predicate SynOk(p: Packet, seqNum: nat) {
    p.sync ==> p.seqNum == seqNum && !p.ack && !p.fin
  }

  ghost predicate SynAckOk(p: Packet, ackNum: nat, room: nat) {
    p.sync ==> p.ack && !p.fin && p.seqNum == SERVER_SEQ_NUM && p.ackNum == ackNum && p.window < U16
               && p.window <= room
  }

  /** SYNs leave the client before anything else, and as long as one is in flight
      the server has accepted at most a SYN and had nothing acknowledged. */
  ghost predicate SynsFirst(ch: seq<Packet>, iss: nat, connecting: bool, ms: nat, acked: int, list: seq<Packet>) {
    && (forall i :: 0 <= i < |ch| ==> SynOk(ch[i], iss))
    && (forall i, j :: 0 <= i < j < |ch| && ch[j].sync ==> ch[i].sync)
    && (connecting ==> forall i :: 0 <= i < |ch| ==> ch[i].sync)
    && (ch != [] && ch[0].sync ==> ms <= 1 && acked <= 0 && list == [])
  }

  /** SYN-ACKs leave the server before any data, and as long as one is in flight
      the client has accepted at most a SYN-ACK. */
  ghost predicate SynAcksFirst(ch: seq<Packet>, ackNum: nat, room: nat, connecting: bool, mc: nat, list: seq<Packet>) {
    && (forall i :: 0 <= i < |ch| ==> SynAckOk(ch[i], ackNum, room))
    && (forall i, j :: 0 <= i < j < |ch| && ch[j].sync ==> ch[i].sync || ch[i].size == 0)
    && (connecting ==> forall i :: 0 <= i < |ch| ==> ch[i].sync)
    && (forall i :: 0 <= i < |ch| && ch[i].sync ==> mc <= 1 && list == [])
  }

  /** `mc` packets of the server's log are accepted by the client, `ms` of the
      client's by the server. */
  ghost predicate Phases(c: Node, s: Node, live: bool, mc: nat, ms: nat) {
    && s.iss == SERVER_SEQ_NUM
    && c.ep.state != SYN_RCVD && s.ep.state != SYN_SENT
    // The client is connecting exactly as long as it has seen no SYN-ACK.
    && (mc == 0 <==> c.log == [] || c.ep.state == SYN_SENT)
    // The server has registered its SYN-ACK exactly when it has accepted the SYN.
    && (ms == 0 <==> s.log == [])
    && (live ==> c.log != [])
    && (!live ==> s.log == [] && s.out == [])
    && (c.log == [] ==> c.out == [])
    && (c.log != [] ==> SynOk(c.log[0], c.iss))
    && (s.log != [] ==> SynAckOk(s.log[0], c.iss + 1, Room(s)))
  }

  ghost predicate Handshake(c: Node, s: Node, live: bool, mc: nat, ms: nat) {
    && Phases(c, s, live, mc, ms)
    && SynsFirst(c.out, c.iss, c.ep.state == SYN_SENT, ms, Acked(s), s.ep.rcv.list)
    && SynAcksFirst(s.out, c.iss + 1, Room(s), c.ep.state == SYN_SENT, mc, c.ep.rcv.list)
  }

  // ---------------------------------------------------------------------------
  // The whole invariant, as seen from side `x`

  /** How much of `x`'s log its peer has accepted, and the other way round. */
  function Fwd(x: Side, mc: nat, ms: nat): nat {
    if x.Client? then ms else mc
  }

  function Bwd(x: Side, mc: nat, ms: nat): nat {
    if x.Client? then mc else ms
  }

  ghost predicate Hs(x: Side, a: Node, b: Node, live: bool, mc: nat, ms: nat) {
    if x.Client? then Handshake(a, b, live, mc, ms) else Handshake(b, a, live, mc, ms)
  }

  /** Node `a` on side `x` and its peer `b`. */
  ghost predicate View(x: Side, a: Node, b: Node, live: bool, mc: nat, ms: nat) {
    && Pair(a, b, Fwd(x, mc, ms), Bwd(x, mc, ms))
    && Hs(x, a, b, live, mc, ms)
  }

  /** `View` under a seal: proofs that just pass the invariant on do not unfold
      it. */
  ghost predicate Sealed(x: Side, a: Node, b: Node, live: bool, mc: nat, ms: nat) {
    forall k: nat :: Unseal(k) ==> View(x, a, b, live, mc, ms)
  }

  lemma SealedView(x: Side, a: Node, b: Node, live: bool, mc: nat, ms: nat)
    ensures Sealed(x, a, b, live, mc, ms) <==> View(x, a, b, live, mc, ms)
  {
    assert Unseal(0);
  }

  /** The two parts of the view, under seals of their own. */
  ghost predicate SealedPair(a: Node, b: Node, mab: nat, mba: nat) {
    forall k: nat :: Unseal(k) ==> Pair(a, b, mab, mba)
  }

  ghost predicate SealedHs(x: Side, a: Node, b: Node, live: bool, mc: nat, ms: nat) {
    forall k: nat :: Unseal(k) ==> Hs(x, a, b, live, mc, ms)
  }

  lemma SealedPairIs(a: Node, b: Node, mab: nat, mba: nat)
    ensures SealedPair(a, b, mab, mba) <==> Pair(a, b, mab, mba)
  {
    assert Unseal(0);
  }

  lemma SealedParts(x: Side, a: Node, b: Node, live: bool, mc: nat, ms: nat)
    ensures Sealed(x, a, b, live, mc, ms) <==>
              SealedPair(a, b, Fwd(x, mc, ms), Bwd(x, mc, ms)) && SealedHs(x, a, b, live, mc, ms)
  {
    assert Unseal(0);
  }

  lemma SealedSwap(a: Node, b: Node, live: bool, mc: nat, ms: nat)
    ensures Sealed(Client, a, b, live, mc, ms) <==> Sealed(Server, b, a, live, mc, ms)
  {
    SealedView(Client, a, b, live, mc, ms);
    SealedView(Server, b, a, live, mc, ms);
  }

  ghost predicate InvAt(sys: System, mc: nat, ms: nat) {
    !sys.aborted && Sealed(Client, sys.c, sys.s, sys.live, mc, ms)
  }

  ghost predicate Inv(sys: System) {
    exists mc: nat, ms: nat :: InvAt(sys, mc, ms)
  }

  /** The invariant does not depend on the side it is read from. */
  lemma InvFrom(sys: System, x: Side, mc: nat, ms: nat)
    ensures InvAt(sys, mc, ms) <==>
              !sys.aborted && Sealed(x, Self(sys, x), Self(sys, Peer(x)), sys.live, mc, ms)
  {
    SealedSwap(sys.c, sys.s, sys.live, mc, ms);
  }
}
