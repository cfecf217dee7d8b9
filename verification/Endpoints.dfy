/** One TCP endpoint as a value: what each handler of the controller does to its
    state and which packets it hands to the send pipeline. */
module Endpoints {
  import opened Packets
  import SW = SendWindows
  import RW = RecvWindows

  const DATA_PACKET_SIZE: nat := 10

  datatype TcpState =
    | CLOSED | SYN_SENT | SYN_RCVD | ESTABLISHED | FIN_WAIT_1 | FIN_WAIT_2
    | TIME_WAIT | CLOSING | CLOSE_WAIT | LAST_ACK

  datatype PipeState = OPEN | EOF_NOT_CONSUMED | EOF_CONSUMED

  datatype Endpoint = Endpoint(
    state: TcpState,
    pipe: PipeState,
    snd: SW.SendWin,
    rcv: RW.RecvWin,
    sendBuf: seq<byte>,
    sendCap: nat,
    recvBuf: seq<byte>,
    recvCap: nat,
    overflow: seq<Packet>,
    timer: bool,
    prober: bool,
    shutdown: bool)

  /** A handler either trips a fatal check (or loops for ever), or ends in a new
      state with some packets to send. */
  datatype Outcome = Abort | Done(ep: Endpoint, out: seq<Packet>)

  function NewEndpoint(sendBase: nat, sendWindow: nat, recvBase: nat, sendCap: nat, recvCap: nat): Endpoint {
    Endpoint(CLOSED, OPEN, SW.NewSendWin(sendBase, sendWindow), RW.RecvWin(recvBase, []),
             [], sendCap, [], recvCap, [], false, false, false)
  }

  predicate InConnectingState(s: TcpState) {
    s == CLOSED || s == SYN_SENT || s == SYN_RCVD
  }

  predicate InClosingState(s: TcpState) {
    s == FIN_WAIT_1 || s == FIN_WAIT_2 || s == TIME_WAIT || s == CLOSING || s == LAST_ACK
  }

  /** Free space of the receive buffer, which acknowledgements advertise. */
  function RecvFree(e: Endpoint): nat {
    if |e.recvBuf| < e.recvCap then e.recvCap - |e.recvBuf| else 0
  }

  function AckOf(e: Endpoint, ackNum: nat): Packet {
    MakeAckPacket(ackNum, RecvFree(e))
  }

  // ---------------------------------------------------------------------------
  // Receiving

  function PushOverflow(e: Endpoint): Endpoint
    decreases |e.overflow|
  {
    if e.overflow == [] || RecvFree(e) < e.overflow[0].size || e.overflow[0].payload == [] then e
    else PushOverflow(e.(recvBuf := e.recvBuf + e.overflow[0].payload, overflow := e.overflow[1..]))
  }

  /** The walk along the chain of received packets. A SYN in the chain makes the
      code loop without advancing. */
  function StreamChain(e: Endpoint, chain: seq<Packet>): Outcome
    decreases |chain|
  {
    if chain == [] then Done(e, [])
    else
      var p := chain[0];
      if p.sync then Abort
      else if p.fin then Done(e.(pipe := EOF_NOT_CONSUMED), [])
      else if RecvFree(e) >= p.size && p.payload != [] then
        StreamChain(e.(recvBuf := e.recvBuf + p.payload), chain[1..])
      else
        StreamChain(e.(overflow := e.overflow + [p]), chain[1..])
  }

  function StreamDataToReceiveBuffer(e: Endpoint, chain: seq<Packet>): Outcome {
    StreamChain(PushOverflow(e), chain)
  }

  /** Deliver a packet to the receive window, stream what it releases, and
      acknowledge. */
  function ReceiveAndAck(e: Endpoint, p: Packet): Outcome {
    match RW.ReceivePacket(e.rcv, p)
    case RecvAbort => Abort
    case Received(w, ackNum, chain) =>
      match StreamDataToReceiveBuffer(e.(rcv := w), chain)
      case Abort => Abort
      case Done(e', _) => Done(e', [AckOf(e', ackNum)])
  }

  function HandleDataPacket(e: Endpoint, p: Packet): Outcome {
    if p.size == 0 then Done(e, [AckOf(e, e.rcv.base)]) else ReceiveAndAck(e, p)
  }

  function StateOnFIN(s: TcpState): TcpState {
    match s
    case ESTABLISHED => CLOSE_WAIT
    case FIN_WAIT_2 => TIME_WAIT
    case FIN_WAIT_1 => CLOSING
    case _ => s
  }

  function HandleFIN(e: Endpoint, p: Packet): Outcome {
    ReceiveAndAck(e.(state := StateOnFIN(e.state)), p)
  }

  // ---------------------------------------------------------------------------
  // Handshake

  const SERVER_SEQ_NUM: nat := 0

  function HandleSYN(e: Endpoint, p: Packet): Outcome {
    match RW.ReceivePacket(e.rcv, p)
    case RecvAbort => Abort
    case Received(w, ackNum, _) =>
      var e1 := e.(rcv := w);
      if ackNum != Wrap(p.seqNum + 1) then Abort
      else if e1.snd.size > 0 then
        Done(e1.(snd := SW.MarkResent(e1.snd)), SW.BasePacket(e1.snd))
      else
        var synAck := MakeSyncPacket(SERVER_SEQ_NUM, RecvFree(e1)).(ack := true, ackNum := ackNum);
        match SW.SendPacket(e1.snd, synAck)
        case SendAbort => Abort
        case Refused => Done(e1, [])
        case Sent(snd) => Done(e1.(snd := snd, state := SYN_RCVD, timer := true), [synAck])
  }

  function HandleACKSYN(e: Endpoint, p: Packet): Outcome {
    var base := Wrap(p.seqNum + 1);
    if e.state == SYN_SENT then
      match SW.NewAckedPacket(e.snd, p.ackNum)
      case AckAbort => Abort
      case Acked(snd, _) =>
        var e1 := e.(snd := snd.(capacity := p.window),
                     timer := e.timer && snd.pkts != [],
                     state := ESTABLISHED,
                     rcv := e.rcv.(base := base));
        Done(e1, [AckOf(e1, base)])
    else
      var e1 := e.(rcv := e.rcv.(base := base));
      Done(e1, [AckOf(e1, base)])
  }

  function TryConnect(e: Endpoint): Outcome {
    if e.state != CLOSED then Done(e, [])
    else
      var syn := MakeSyncPacket(e.snd.base, RecvFree(e));
      match SW.SendPacket(e.snd, syn)
      case SendAbort => Abort
      case Refused => Done(e, [])
      case Sent(snd) => Done(e.(snd := snd, state := SYN_SENT, timer := true), [syn])
  }

  // ---------------------------------------------------------------------------
  // Sending

  function StateOnACK(s: TcpState, windowEmpty: bool): TcpState {
    match s
    case SYN_RCVD => ESTABLISHED
    case FIN_WAIT_1 => if windowEmpty then FIN_WAIT_2 else s
    case LAST_ACK => if windowEmpty then CLOSED else s
    case CLOSING => TIME_WAIT
    case _ => s
  }

  /** The endpoint once its window has become `w` and the advertised one `window`. */
  function AfterAck(e: Endpoint, w: SW.SendWin, window: nat): Endpoint {
    e.(snd := w.(capacity := window),
       timer := w.pkts != [],
       prober := e.prober && window == 0,
       state := StateOnACK(e.state, w.pkts == []),
       shutdown := e.shutdown || (e.state == LAST_ACK && w.pkts == []))
  }

  function HandleACK(e: Endpoint, p: Packet): Outcome {
    match SW.NewAckedPacket(e.snd, p.ackNum)
    case AckAbort => Abort
    case Acked(w, result) =>
      var resend := if result.retransmit then SW.BasePacket(w) else [];
      var snd := if result.retransmit then SW.MarkResent(w) else w;
      var empty := snd.pkts == [];
      Done(e.(snd := snd.(capacity := p.window),
              timer := !empty,
              prober := e.prober && p.window == 0,
              state := StateOnACK(e.state, empty),
              shutdown := e.shutdown || (e.state == LAST_ACK && empty)),
           resend)
  }

  /** Cut `k` bytes off the send buffer, register them as a packet, send it. A
      refused packet is dropped, its bytes with it. */
  function EmitOne(e: Endpoint, k: nat, restartTimer: bool): Outcome
    requires k <= |e.sendBuf|
  {
    var p := MakeDataPacket(SW.NextSeqNumberToSend(e.snd), e.sendBuf[..k]);
    var e1 := e.(sendBuf := e.sendBuf[k..]);
    match SW.SendPacket(e.snd, p)
    case SendAbort => Abort
    case Refused => Done(e1, [])
    case Sent(snd) => Done(e1.(snd := snd, timer := e.timer || restartTimer), [p])
  }

  /** Size of the next packet: full size as long as that lasts, then the rest. */
  function NextSize(n: nat): nat {
    Min(n, DATA_PACKET_SIZE)
  }

  /** The timer is restarted for the first packet of an empty window. */
  predicate Restarts(e: Endpoint, k: nat) {
    if k == DATA_PACKET_SIZE then e.snd.pkts == [] else e.snd.size == 0
  }

  function EmitNext(e: Endpoint, n: nat): (o: Outcome)
    requires 0 < n <= |e.sendBuf|
    ensures o.Done? ==> o.ep.sendBuf == e.sendBuf[NextSize(n)..]
  {
    EmitOne(e, NextSize(n), Restarts(e, NextSize(n)))
  }

  function Emit(e: Endpoint, n: nat): Outcome
    requires n <= |e.sendBuf|
    decreases n
  {
    if n == 0 then Done(e, [])
    else
      match EmitNext(e, n)
      case Abort => Abort
      case Done(e1, out1) =>
        match Emit(e1, n - NextSize(n))
        case Abort => Abort
        case Done(e2, out2) => Done(e2, out1 + out2)
  }

  function Min(a: nat, b: nat): nat {
    if a < b then a else b
  }

  /** One round of the send buffer listener, past its waits. */
  function SendBufferListener(e: Endpoint): Outcome {
    if SW.FreeSpace(e.snd) == 0 && e.snd.capacity > 0 then Done(e, [])
    else if e.snd.capacity == 0 then Done(e.(prober := true), [])
    else Emit(e, Min(SW.FreeSpace(e.snd), |e.sendBuf|))
  }

  function StateOnSendFIN(s: TcpState): TcpState {
    match s
    case ESTABLISHED => FIN_WAIT_1
    case CLOSE_WAIT => LAST_ACK
    case _ => s
  }

  /** Register and send FIN, past the wait for an empty send buffer. In any state
      but these two the code registers the FIN and then gives up. */
  function SendFIN(e: Endpoint): Outcome {
    var w := e.snd.(capacity := Wrap(e.snd.size + 1));
    var fin := MakeFinPacket(SW.NextSeqNumberToSend(w));
    match SW.SendPacket(w, fin)
    case SendAbort => Abort
    case Refused => Abort
    case Sent(snd) =>
      if e.state == ESTABLISHED || e.state == CLOSE_WAIT then
        Done(e.(snd := snd, state := StateOnSendFIN(e.state), timer := true), [fin])
      else
        Done(e.(snd := snd), [])
  }

  function TimeoutReTransmitter(e: Endpoint): Outcome {
    Done(e.(snd := SW.MarkResent(e.snd)), SW.BasePacket(e.snd))
  }

  function ProbeWindowSize(e: Endpoint): Outcome {
    if e.snd.capacity == 0 then Done(e, [MakeDataPacket(SW.NextSeqNumberToSend(e.snd), [])])
    else Done(e, [])
  }

  // ---------------------------------------------------------------------------
  // The socket interface

  /** `ReadData` past its wait: the value it returns and the bytes it copied. */
  datatype ReadOutcome = ReadFatal | DidRead(ep: Endpoint, ret: int, data: seq<byte>)

  predicate ReadReady(e: Endpoint) {
    e.shutdown || e.pipe == EOF_NOT_CONSUMED || e.recvBuf != []
  }

  function ReadData(e: Endpoint, size: nat): ReadOutcome {
    if e.pipe == EOF_CONSUMED then ReadFatal
    else if e.shutdown then DidRead(e, -1, [])
    else if e.pipe != EOF_NOT_CONSUMED && e.recvBuf == [] then DidRead(e, -1, [])
    else if e.pipe == EOF_NOT_CONSUMED && e.recvBuf == [] then DidRead(e.(pipe := EOF_CONSUMED), 0, [])
    else
      var n := Min(size, |e.recvBuf|);
      DidRead(e.(recvBuf := e.recvBuf[n..]), n, e.recvBuf[..n])
  }

  datatype WriteOutcome = DidWrite(ep: Endpoint, ret: int)

  predicate WriteReady(e: Endpoint) {
    e.shutdown || InClosingState(e.state) || |e.sendBuf| < e.sendCap
  }

  function WriteData(e: Endpoint, data: seq<byte>): WriteOutcome {
    if InClosingState(e.state) || e.shutdown then DidWrite(e, -1)
    else
      var n := Min(|data|, if |e.sendBuf| < e.sendCap then e.sendCap - |e.sendBuf| else 0);
      DidWrite(e.(sendBuf := e.sendBuf + data[..n]), n)
  }

  /** What a packet is, by its header flags and size. */
  datatype Kind = Syn | SynAck | Fin | Data | Ack | Prober

  function KindOf(p: Packet): Kind {
    if p.sync then (if p.ack then SynAck else Syn)
    else if p.fin then Fin
    else if p.ack then Ack
    else if p.size > 0 then Data
    else Prober
  }

  /** Dispatch of one received packet on its header flags. */
  function HandleReceivedPacket(e: Endpoint, p: Packet): Outcome {
    if p.sync && !p.ack then HandleSYN(e, p)
    else if p.sync && p.ack then HandleACKSYN(e, p)
    else if p.fin then HandleFIN(e, p)
    else if p.ack then HandleACK(e, p)
    else HandleDataPacket(e, p)
  }
}
