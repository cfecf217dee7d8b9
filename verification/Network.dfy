/** Two endpoints over two lossy FIFO channels, as a transition system. Each
    handler is one atomic step. */
module Network {
  import opened Packets
  import opened Endpoints
  import RW = RecvWindows

  /** An endpoint, the channel that leaves it, and its history: `iss` is where
      its sequence numbers start, `log` every packet it registered, `written` and
      `read` the bytes its application wrote and read. */
  datatype Node = Node(
    ep: Endpoint,
    out: seq<Packet>,
    iss: nat,
    log: seq<Packet>,
    written: seq<byte>,
    read: seq<byte>)

  /** `live` says whether the server's host has created the connection. */
  datatype System = System(c: Node, s: Node, live: bool, aborted: bool)

  datatype Config = Config(
    iss: nat, clientWindow: nat, serverWindow: nat,
    clientSendCap: nat, clientRecvCap: nat, serverSendCap: nat, serverRecvCap: nat)

  datatype Side = Client | Server

  datatype Step =
    | Connect
    | Create
    | Deliver(to: Side)
    | Drop(from: Side, i: nat)
    | Listen(side: Side)
    | Finish(side: Side)
    | Timeout(side: Side)
    | Probe(side: Side)
    | PushUp(side: Side)
    | Read(side: Side, size: nat)
    | Write(side: Side, data: seq<byte>)

  function NewNode(ep: Endpoint, iss: nat): Node {
    Node(ep, [], iss, [], [], [])
  }

  /** The client knows the server's first sequence number, zero, from the start;
      the server's receive base is set when the first SYN creates it. */
  function Init(g: Config): System {
    System(NewNode(NewEndpoint(g.iss, g.clientWindow, SERVER_SEQ_NUM, g.clientSendCap, g.clientRecvCap), g.iss),
           NewNode(NewEndpoint(SERVER_SEQ_NUM, g.serverWindow, g.iss, g.serverSendCap, g.serverRecvCap), SERVER_SEQ_NUM),
           false, false)
  }

  function Self(sys: System, x: Side): Node {
    if x.Client? then sys.c else sys.s
  }

  function Peer(x: Side): Side {
    if x.Client? then Server else Client
  }

  function With(sys: System, x: Side, n: Node): System {
    if x.Client? then sys.(c := n) else sys.(s := n)
  }

  /** Packets that entered the send window in a step. */
  function Registered(before: Endpoint, after: Endpoint): seq<Packet> {
    if |after.snd.pkts| > |before.snd.pkts| then after.snd.pkts[|before.snd.pkts|..] else []
  }

  function NodeAfter(n: Node, ep: Endpoint, out: seq<Packet>): Node {
    n.(ep := ep, out := n.out + out, log := n.log + Registered(n.ep, ep))
  }

  function Act(sys: System, x: Side, o: Outcome): System {
    match o
    case Abort => sys.(aborted := true)
    case Done(ep, out) => With(sys, x, NodeAfter(Self(sys, x), ep, out))
  }

  function Without<T>(s: seq<T>, i: nat): seq<T>
    requires i < |s|
  {
    s[..i] + s[i + 1..]
  }

  function Lose(sys: System, x: Side, i: nat): System
    requires i < |Self(sys, x).out|
  {
    With(sys, x, Self(sys, x).(out := Without(Self(sys, x).out, i)))
  }

  predicate Present(x: Side, live: bool) {
    x.Client? || live
  }

  predicate Exists(sys: System, x: Side) {
    Present(x, sys.live)
  }

  /** Sequence numbers the node needs for everything written so far, including
      SYN and FIN. */
  function SeqUse(n: Node): nat {
    n.iss + |n.written| + 2
  }

  /** When a step can happen: the waits in the code, the timers it needs running,
      what the socket layer promises, and a stream that stays below 2^32. */
  predicate Enabled(sys: System, step: Step) {
    !sys.aborted &&
    match step
    case Connect => sys.c.ep.state == CLOSED && !sys.c.ep.shutdown
    case Create => !sys.live && sys.c.out != [] && sys.c.out[0].sync
    case Deliver(x) => Exists(sys, x) && Self(sys, Peer(x)).out != []
    case Drop(x, i) => i < |Self(sys, x).out|
    case Listen(x) =>
      var e := Self(sys, x).ep;
      Exists(sys, x) && !e.shutdown && !InConnectingState(e.state) && e.sendBuf != []
    case Finish(x) =>
      var e := Self(sys, x).ep;
      Exists(sys, x) && !e.shutdown && e.sendBuf == [] && (e.state == ESTABLISHED || e.state == CLOSE_WAIT)
    case Timeout(x) => Exists(sys, x) && Self(sys, x).ep.timer && !Self(sys, x).ep.shutdown
    case Probe(x) => Exists(sys, x) && Self(sys, x).ep.prober && !Self(sys, x).ep.shutdown
    case PushUp(x) => Exists(sys, x)
    case Read(x, _) => Exists(sys, x) && (Self(sys, x).ep.pipe == EOF_CONSUMED || ReadReady(Self(sys, x).ep))
    case Write(x, data) =>
      && Exists(sys, x) && WriteReady(Self(sys, x).ep)
      && SeqUse(Self(sys, x)) + |data| < U32
  }

  /** A read after the end of the stream was consumed, which the code logs as fatal
      before it waits for anything. */
  predicate ReadsPastEnd(sys: System, step: Step) {
    step.Read? && Self(sys, step.side).ep.pipe == EOF_CONSUMED
  }

  /** The host sets the receive base from the SYN and hands over two copies. */
  function DoCreate(sys: System): System
    requires sys.c.out != []
  {
    var syn := sys.c.out[0];
    sys.(live := true,
         s := sys.s.(ep := sys.s.ep.(rcv := RW.RecvWin(syn.seqNum, []))),
         c := sys.c.(out := [syn] + sys.c.out))
  }

  function DoDeliver(sys: System, x: Side, o: Outcome): System
    requires Self(sys, Peer(x)).out != []
  {
    Act(Lose(sys, Peer(x), 0), x, o)
  }

  function DoRead(sys: System, x: Side, r: ReadOutcome): System {
    match r
    case ReadFatal => sys.(aborted := true)
    case DidRead(ep, _, data) => With(sys, x, Self(sys, x).(ep := ep, read := Self(sys, x).read + data))
  }

  function DoWrite(sys: System, x: Side, data: seq<byte>, w: WriteOutcome): System {
    var n := if 0 <= w.ret <= |data| then w.ret else 0;
    With(sys, x, Self(sys, x).(ep := w.ep, written := Self(sys, x).written + data[..n]))
  }

  function Apply(sys: System, step: Step): System
    requires Enabled(sys, step)
  {
    match step
    case Connect => Act(sys, Client, TryConnect(sys.c.ep))
    case Create => DoCreate(sys)
    case Deliver(x) => DoDeliver(sys, x, HandleReceivedPacket(Self(sys, x).ep, Self(sys, Peer(x)).out[0]))
    case Drop(x, i) => Lose(sys, x, i)
    case Listen(x) => Act(sys, x, SendBufferListener(Self(sys, x).ep))
    case Finish(x) => Act(sys, x, SendFIN(Self(sys, x).ep))
    case Timeout(x) => Act(sys, x, TimeoutReTransmitter(Self(sys, x).ep))
    case Probe(x) => Act(sys, x, ProbeWindowSize(Self(sys, x).ep))
    case PushUp(x) => Act(sys, x, Done(PushOverflow(Self(sys, x).ep), []))
    case Read(x, size) => DoRead(sys, x, ReadData(Self(sys, x).ep, size))
    case Write(x, data) => DoWrite(sys, x, data, WriteData(Self(sys, x).ep, data))
  }

  /** A run: every step is enabled where it happens. */
  predicate IsRun(sys: System, steps: seq<Step>)
    decreases |steps|
  {
    steps == [] || (Enabled(sys, steps[0]) && IsRun(Apply(sys, steps[0]), steps[1..]))
  }

  function After(sys: System, steps: seq<Step>): System
    requires IsRun(sys, steps)
    decreases |steps|
  {
    if steps == [] then sys else After(Apply(sys, steps[0]), steps[1..])
  }
}
