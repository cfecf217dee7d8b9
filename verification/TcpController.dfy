/** The controller as the code has it: an object that owns the two windows and
    the socket buffers and updates them in place. Every handler is proved against
    its value in `Endpoints`. */
module TcpControllerClass {
  import opened Packets
  import opened Endpoints
  import SW = SendWindows
  import RW = RecvWindows
  import opened SendWindowClass
  import opened RecvWindowClass

  class TcpController {
    var state: TcpState
    var pipeState: PipeState
    const sendWindow: SendWindow
    const recvWindow: RecvWindow
    var sendBuffer: seq<byte>
    const sendCapacity: nat
    var recvBuffer: seq<byte>
    const recvCapacity: nat
    var overflowPkts: seq<Packet>
    var timer: bool
    var proberTimer: bool
    var shutdown: bool
    /** Packets handed to the send pipeline, oldest first. */
    var pktSendBuffer: seq<Packet>

    ghost predicate Valid()
      reads this, recvWindow, recvWindow.nodes
    {
      recvWindow.Valid()
    }

    ghost function Value(): Endpoint
      requires Valid()
      reads this, sendWindow, recvWindow, recvWindow.nodes
    {
      Endpoint(state, pipeState, sendWindow.Value(), recvWindow.Value(), sendBuffer, sendCapacity,
               recvBuffer, recvCapacity, overflowPkts, timer, proberTimer, shutdown)
    }

    /** The controller has done what the outcome says: it failed a check, or it is
        in the outcome's state and has sent the outcome's packets. */
    ghost predicate Did(o: Outcome, aborted: bool, sentBefore: seq<Packet>)
      reads this, sendWindow, recvWindow, recvWindow.nodes
    {
      match o
      case Abort => aborted
      case Done(ep, out) => !aborted && Valid() && Value() == ep && pktSendBuffer == sentBefore + out
    }

    /** The receive list holds no node but its old ones and new ones. */
    twostate predicate NodesKept(before: seq<RecvWindowNode>)
      reads this, recvWindow
    {
      forall n :: n in recvWindow.nodes ==> n in before || fresh(n)
    }

    constructor (sendBase: nat, sendWindowSize: nat, recvBase: nat, sendCapacity: nat, recvCapacity: nat)
      ensures Valid() && Value() == NewEndpoint(sendBase, sendWindowSize, recvBase, sendCapacity, recvCapacity)
      ensures pktSendBuffer == [] && fresh(sendWindow) && fresh(recvWindow) && fresh(recvWindow.nodes)
    {
      state, pipeState := CLOSED, OPEN;
      sendWindow := new SendWindow(sendBase, sendWindowSize);
      recvWindow := new RecvWindow(recvBase);
      this.sendCapacity, this.recvCapacity := sendCapacity, recvCapacity;
      sendBuffer, recvBuffer, overflowPkts, pktSendBuffer := [], [], [], [];
      timer, proberTimer, shutdown := false, false, false;
    }

    method RecvFreeSpace() returns (n: nat)
      requires Valid()
      ensures n == RecvFree(Value())
    {
      n := if |recvBuffer| < recvCapacity then recvCapacity - |recvBuffer| else 0;
    }

    method SendPackets(pkts: seq<Packet>)
      modifies this`pktSendBuffer
      ensures pktSendBuffer == old(pktSendBuffer) + pkts
    {
      pktSendBuffer := pktSendBuffer + pkts;
    }

    method PushOverflowedPacketsToSocketBuffer()
      requires Valid()
      modifies this`recvBuffer, this`overflowPkts
      ensures Value() == PushOverflow(old(Value()))
    {
      var n, i := |overflowPkts|, 0;
      while i < n
        invariant i <= n && |overflowPkts| == n - i
        invariant PushOverflow(Value()) == PushOverflow(old(Value()))
      {
        var pkt := overflowPkts[0];
        var free := RecvFreeSpace();
        if free >= pkt.size && pkt.payload != [] {
          recvBuffer := recvBuffer + pkt.payload;
          overflowPkts := overflowPkts[1..];
        } else {
          break;
        }
        i := i + 1;
      }
    }

    /** Walk the released packets: payloads go to the receive buffer, or to the
        overflow queue if they do not fit; FIN marks the end of the stream. A SYN
        would keep the loop where it is. */
    method StreamNodes(nodes: RecvWindowNode?, ghost run: seq<RecvWindowNode>) returns (aborted: bool)
      requires Valid() && Linked(run) && nodes == At(run, 0)
      modifies this`recvBuffer, this`overflowPkts, this`pipeState
      ensures Did(StreamChain(old(Value()), PktsOf(run, 0)), aborted, pktSendBuffer)
    {
      var node := nodes;
      ghost var i := 0;
      aborted := false;
      while node != null
        invariant i <= |run| && node == At(run, i)
        invariant StreamChain(Value(), PktsOf(run, i)) == StreamChain(old(Value()), PktsOf(run, 0))
        decreases |run| - i
      {
        assert PktsOf(run, i)[1..] == PktsOf(run, i + 1);
        var pkt := node.pkt;
        if pkt.sync {
          aborted := true;
          return;
        }
        if pkt.fin {
          pipeState := EOF_NOT_CONSUMED;
          return;
        }
        var free := RecvFreeSpace();
        if free >= pkt.size && pkt.payload != [] {
          recvBuffer := recvBuffer + pkt.payload;
        } else {
          overflowPkts := overflowPkts + [pkt];
        }
        node := node.next;
        i := i + 1;
      }
    }

    method StreamDataToReceiveBuffer(nodes: RecvWindowNode?, ghost run: seq<RecvWindowNode>) returns (aborted: bool)
      requires Valid() && Linked(run) && nodes == At(run, 0)
      modifies this`recvBuffer, this`overflowPkts, this`pipeState
      ensures Did(Endpoints.StreamDataToReceiveBuffer(old(Value()), PktsOf(run, 0)), aborted, pktSendBuffer)
    {
      PushOverflowedPacketsToSocketBuffer();
      aborted := StreamNodes(nodes, run);
    }

    method SendAck(ackNum: nat)
      requires Valid()
      modifies this`pktSendBuffer
      ensures pktSendBuffer == old(pktSendBuffer) + [AckOf(Value(), ackNum)]
    {
      var free := RecvFreeSpace();
      SendPackets([MakeAckPacket(ackNum, free)]);
    }

    /** Deliver a packet to the receive window, stream what it releases, and
        acknowledge. */
    method ReceiveAndAck(p: Packet) returns (aborted: bool)
      requires Valid()
      modifies this`recvBuffer, this`overflowPkts, this`pipeState, this`pktSendBuffer
      modifies recvWindow, recvWindow.nodes
      ensures Did(Endpoints.ReceiveAndAck(old(Value()), p), aborted, old(pktSendBuffer))
      ensures NodesKept(old(recvWindow.nodes))
    {
      var ackNum, chain;
      ghost var run;
      aborted, ackNum, chain, run := recvWindow.ReceivePacket(p);
      if aborted {
        return;
      }
      aborted := StreamDataToReceiveBuffer(chain, run);
      if aborted {
        return;
      }
      SendAck(ackNum);
    }

    method HandleDataPacket(p: Packet) returns (aborted: bool)
      requires Valid()
      modifies this`recvBuffer, this`overflowPkts, this`pipeState, this`pktSendBuffer
      modifies recvWindow, recvWindow.nodes
      ensures Did(Endpoints.HandleDataPacket(old(Value()), p), aborted, old(pktSendBuffer))
      ensures NodesKept(old(recvWindow.nodes))
    {
      if p.size == 0 {
        SendAck(recvWindow.base);
        aborted := false;
      } else {
        aborted := ReceiveAndAck(p);
      }
    }

    method HandleFIN(p: Packet) returns (aborted: bool)
      requires Valid()
      modifies this, recvWindow, recvWindow.nodes
      ensures Did(Endpoints.HandleFIN(old(Value()), p), aborted, old(pktSendBuffer))
      ensures NodesKept(old(recvWindow.nodes))
    {
      if state == ESTABLISHED {
        state := CLOSE_WAIT;
      } else if state == FIN_WAIT_2 {
        state := TIME_WAIT;
      } else if state == FIN_WAIT_1 {
        state := CLOSING;
      }
      aborted := ReceiveAndAck(p);
    }

    /** Register a SYN or SYN-ACK in the send window; once it is taken, move on to
        the new state, send it and start the timer. */
    method RegisterAndSend(p: Packet, newState: TcpState) returns (aborted: bool, ok: bool)
      modifies this`state, this`timer, this`pktSendBuffer, sendWindow
      ensures match SW.SendPacket(old(sendWindow.Value()), p)
              case SendAbort => aborted
              case Refused => !aborted && !ok && unchanged(this) && sendWindow.Value() == old(sendWindow.Value())
              case Sent(snd) =>
                && !aborted && ok && sendWindow.Value() == snd
                && state == newState && timer && pktSendBuffer == old(pktSendBuffer) + [p]
    {
      aborted, ok := sendWindow.SendPacket(p);
      if aborted || !ok {
        return;
      }
      state := newState;
      SendPackets([p]);
      timer := true;
    }

    method HandleSYN(p: Packet) returns (aborted: bool)
      requires Valid()
      modifies this, sendWindow, recvWindow, recvWindow.nodes
      ensures Did(Endpoints.HandleSYN(old(Value()), p), aborted, old(pktSendBuffer))
      ensures NodesKept(old(recvWindow.nodes))
    {
      SynIs(Value(), p);
      var ackNum, chain;
      ghost var run;
      aborted, ackNum, chain, run := recvWindow.ReceivePacket(p);
      if aborted || ackNum != Wrap(p.seqNum + 1) {
        aborted := true;
        return;
      }
      aborted := ReplyToSYN(ackNum);
    }

    /** Send the SYN-ACK, again if it is in the window already. */
    method ReplyToSYN(ackNum: nat) returns (aborted: bool)
      requires Valid()
      modifies this`state, this`timer, this`pktSendBuffer, sendWindow
      ensures Did(SynReply(old(Value()), ackNum), aborted, old(pktSendBuffer))
    {
      aborted := false;
      if sendWindow.size > 0 {
        var pkts := sendWindow.GetBasePacketToReSend();
        SendPackets(pkts);
        return;
      }
      var free := RecvFreeSpace();
      var synAck := MakeSyncPacket(SERVER_SEQ_NUM, free).(ack := true, ackNum := ackNum);
      var ok;
      aborted, ok := RegisterAndSend(synAck, SYN_RCVD);
    }

    method HandleACKSYN(p: Packet) returns (aborted: bool)
      requires Valid()
      modifies this, sendWindow, recvWindow
      ensures Did(Endpoints.HandleACKSYN(old(Value()), p), aborted, old(pktSendBuffer))
      ensures NodesKept(old(recvWindow.nodes))
    {
      aborted := false;
      if state == SYN_SENT {
        var result;
        aborted, result := sendWindow.NewAckedPacket(p.ackNum);
        if aborted {
          return;
        }
        if sendWindow.pktsToAck == [] {
          timer := false;
        }
        sendWindow.SetCapacity(p.window);
        state := ESTABLISHED;
      }
      recvWindow.SetRecvBase(Wrap(p.seqNum + 1));
      SendAck(Wrap(p.seqNum + 1));
    }

    method TryConnect() returns (aborted: bool, ok: bool)
      requires Valid()
      modifies this, sendWindow
      ensures Did(Endpoints.TryConnect(old(Value())), aborted, old(pktSendBuffer))
      ensures !aborted ==> (ok <==> old(state) == CLOSED && state == SYN_SENT)
    {
      aborted, ok := false, false;
      if state != CLOSED {
        return;
      }
      var free := RecvFreeSpace();
      var syn := MakeSyncPacket(sendWindow.base, free);
      aborted, ok := RegisterAndSend(syn, SYN_SENT);
    }

    /** Hand an acknowledgement to the send window, and send the base packet again
        if the window asks for it. */
    method AckWindow(ackNum: nat) returns (aborted: bool)
      modifies this`pktSendBuffer, sendWindow
      ensures match SW.NewAckedPacket(old(sendWindow.Value()), ackNum)
              case AckAbort => aborted
              case Acked(w, result) =>
                && !aborted
                && sendWindow.Value() == (if result.retransmit then SW.MarkResent(w) else w)
                && pktSendBuffer == old(pktSendBuffer) + (if result.retransmit then SW.BasePacket(w) else [])
    {
      var result;
      aborted, result := sendWindow.NewAckedPacket(ackNum);
      if !aborted && result.retransmit {
        var pkts := sendWindow.GetBasePacketToReSend();
        SendPackets(pkts);
      }
    }

    method HandleACK(p: Packet) returns (aborted: bool)
      requires Valid()
      modifies this, sendWindow
      ensures Did(Endpoints.HandleACK(old(Value()), p), aborted, old(pktSendBuffer))
      ensures NodesKept(old(recvWindow.nodes))
    {
      AckIs(Value(), p);
      aborted := AckWindow(p.ackNum);
      if aborted {
        return;
      }
      FollowACK(p);
    }

    /** What follows an acknowledgement: the timer, the advertised capacity, the
        prober and the state. */
    method FollowACK(p: Packet)
      requires Valid()
      modifies this`timer, this`proberTimer, this`state, this`shutdown, sendWindow`capacity
      ensures Valid() && Value() == AfterAck(old(Value()), old(Value()).snd, p.window)
    {
      timer := sendWindow.pktsToAck != [];
      sendWindow.SetCapacity(p.window);
      if p.window > 0 {
        proberTimer := false;
      }
      AdvanceOnACK(sendWindow.pktsToAck == []);
    }

    /** The state changes an acknowledgement brings about. */
    method AdvanceOnACK(windowEmpty: bool)
      modifies this`state, this`shutdown
      ensures state == StateOnACK(old(state), windowEmpty)
      ensures shutdown == (old(shutdown) || (old(state) == LAST_ACK && windowEmpty))
    {
      if state == SYN_RCVD {
        state := ESTABLISHED;
      } else if state == FIN_WAIT_1 && windowEmpty {
        state := FIN_WAIT_2;
      } else if state == LAST_ACK && windowEmpty {
        state := CLOSED;
        shutdown := true;
      } else if state == CLOSING {
        state := TIME_WAIT;
      }
    }

    /** Dispatch of one received packet on its header flags. */
    method HandleReceivedPacket(p: Packet) returns (aborted: bool)
      requires Valid()
      modifies this, sendWindow, recvWindow, recvWindow.nodes
      ensures Did(Endpoints.HandleReceivedPacket(old(Value()), p), aborted, old(pktSendBuffer))
      ensures NodesKept(old(recvWindow.nodes))
    {
      if p.sync && !p.ack {
        aborted := HandleSYN(p);
      } else if p.sync && p.ack {
        aborted := HandleACKSYN(p);
      } else if p.fin {
        aborted := HandleFIN(p);
      } else if p.ack {
        aborted := HandleACK(p);
      } else {
        aborted := HandleDataPacket(p);
      }
    }

    method TimeoutReTransmitter()
      requires Valid()
      modifies this`pktSendBuffer, sendWindow
      ensures Did(Endpoints.TimeoutReTransmitter(old(Value())), false, old(pktSendBuffer))
    {
      if sendWindow.pktsToAck != [] {
        var pkts := sendWindow.GetBasePacketToReSend();
        SendPackets(pkts);
      }
    }

    method ProbeWindowSize()
      requires Valid()
      modifies this`pktSendBuffer
      ensures Did(Endpoints.ProbeWindowSize(old(Value())), false, old(pktSendBuffer))
    {
      if sendWindow.capacity == 0 {
        var next := sendWindow.NextSeqNumberToSend();
        SendPackets([MakeDataPacket(next, [])]);
      }
    }

    /** Cut `k` bytes off the send buffer, register them as a packet and send it;
        a packet the window refuses is dropped. */
    method EmitOne(k: nat, restartTimer: bool) returns (aborted: bool)
      requires Valid() && k <= |sendBuffer|
      modifies this`sendBuffer, this`timer, this`pktSendBuffer, sendWindow
      ensures Did(Endpoints.EmitOne(old(Value()), k, restartTimer), aborted, old(pktSendBuffer))
    {
      var next := sendWindow.NextSeqNumberToSend();
      var p := MakeDataPacket(next, sendBuffer[..k]);
      sendBuffer := sendBuffer[k..];
      var ok;
      aborted, ok := sendWindow.SendPacket(p);
      if !aborted && ok {
        SendPackets([p]);
        timer := timer || restartTimer;
      }
    }

    /** One packet in the middle of packetizing the first `n` bytes of `e`. */
    method EmitInRound(k: nat, restartTimer: bool, ghost e: Endpoint, ghost n: nat,
                       ghost before: seq<Packet>, ghost sent: seq<Packet>, ghost left: nat)
      returns (aborted: bool, ghost sent': seq<Packet>)
      requires Valid() && n <= |e.sendBuf| && 0 < left && InRound(e, n, sent, Value(), left)
      requires k == NextSize(left) && restartTimer == Restarts(Value(), k) && pktSendBuffer == before + sent
      modifies this`sendBuffer, this`timer, this`pktSendBuffer, sendWindow
      ensures aborted ==> Endpoints.Emit(e, n) == Abort
      ensures !aborted ==> Valid() && InRound(e, n, sent', Value(), left - k) && pktSendBuffer == before + sent'
    {
      assert Unseal(0);
      ghost var now := Value();
      aborted := EmitOne(k, restartTimer);
      EmitFirst(e, n, sent, now, left);
      sent' := sent + (match EmitNext(now, left) case Abort => [] case Done(_, out) => out);
    }

    /** The loop of full packets, which leaves `last` of the `n` bytes. */
    method EmitFull(numPkts: nat, ghost e: Endpoint, ghost n: nat, ghost before: seq<Packet>, ghost last: nat)
      returns (aborted: bool, ghost sent: seq<Packet>)
      requires Valid() && n <= |e.sendBuf| && n == numPkts * DATA_PACKET_SIZE + last
      requires InRound(e, n, [], Value(), n) && pktSendBuffer == before + []
      modifies this`sendBuffer, this`timer, this`pktSendBuffer, sendWindow
      ensures aborted ==> Endpoints.Emit(e, n) == Abort
      ensures !aborted ==> Valid() && InRound(e, n, sent, Value(), last) && pktSendBuffer == before + sent
    {
      aborted, sent := false, [];
      ghost var left := n;
      var i := 0;
      while i < numPkts
        invariant i <= numPkts && left == (numPkts - i) * DATA_PACKET_SIZE + last
        invariant Valid() && pktSendBuffer == before + sent
        invariant InRound(e, n, sent, Value(), left)
      {
        aborted, sent := EmitInRound(DATA_PACKET_SIZE, sendWindow.pktsToAck == [], e, n, before, sent, left);
        if aborted {
          return;
        }
        left := left - DATA_PACKET_SIZE;
        i := i + 1;
      }
    }

    /** Packetize `n` bytes: full packets first, then the rest. */
    method Emit(n: nat) returns (aborted: bool)
      requires Valid() && n <= |sendBuffer|
      modifies this`sendBuffer, this`timer, this`pktSendBuffer, sendWindow
      ensures Did(Endpoints.Emit(old(Value()), n), aborted, old(pktSendBuffer))
    {
      var numPkts, lastPktSize := n / DATA_PACKET_SIZE, n % DATA_PACKET_SIZE;
      ghost var e, before, sent := Value(), pktSendBuffer, [];
      EmitStarts(e, n);
      aborted, sent := EmitFull(numPkts, e, n, before, lastPktSize);
      if !aborted && lastPktSize > 0 {
        aborted, sent := EmitInRound(lastPktSize, sendWindow.size == 0, e, n, before, sent, lastPktSize);
      }
      if !aborted {
        EmitEnds(e, n, sent, Value());
      }
    }

    /** One round, past the waits. */
    method SendBufferListener() returns (aborted: bool)
      requires Valid()
      modifies this`sendBuffer, this`timer, this`proberTimer, this`pktSendBuffer, sendWindow
      ensures Did(Endpoints.SendBufferListener(old(Value())), aborted, old(pktSendBuffer))
    {
      aborted := false;
      var free := sendWindow.FreeSpace();
      if free == 0 && sendWindow.capacity > 0 {
        return;
      }
      if sendWindow.capacity == 0 {
        proberTimer := true;
        return;
      }
      aborted := Emit(Min(free, |sendBuffer|));
    }

    method RegisterFIN() returns (aborted: bool, fin: Packet)
      modifies sendWindow
      ensures var w := old(sendWindow.Value()).(capacity := Wrap(old(sendWindow.size) + 1));
              && fin == MakeFinPacket(SW.NextSeqNumberToSend(w))
              && (aborted <==> !SW.SendPacket(w, fin).Sent?)
              && (!aborted ==> SW.SendPacket(w, fin) == SW.Sent(sendWindow.Value()))
    {
      sendWindow.SetCapacity(Wrap(sendWindow.size + 1));
      var next := sendWindow.NextSeqNumberToSend();
      fin := MakeFinPacket(next);
      var ok;
      aborted, ok := sendWindow.SendPacket(fin);
      aborted := aborted || !ok;
    }

    /** Past the wait for an empty send buffer. */
    method SendFIN() returns (aborted: bool)
      requires Valid()
      modifies this, sendWindow
      ensures Did(Endpoints.SendFIN(old(Value())), aborted, old(pktSendBuffer))
    {
      FinIs(Value());
      var fin;
      aborted, fin := RegisterFIN();
      if aborted {
        return;
      }
      FollowFIN(fin);
    }

    /** The state change, after which the FIN is really sent. */
    method FollowFIN(fin: Packet)
      requires Valid()
      modifies this`state, this`timer, this`pktSendBuffer
      ensures Valid() && Value() == FollowedFin(old(Value())) && pktSendBuffer == old(pktSendBuffer) + FinOut(old(Value()), fin)
    {
      if state == ESTABLISHED {
        state := FIN_WAIT_1;
      } else if state == CLOSE_WAIT {
        state := LAST_ACK;
      } else {
        return;
      }
      SendPackets([fin]);
      timer := true;
    }

    /** Past the wait for data, the end of the stream or shutdown. */
    method ReadData(size: nat) returns (aborted: bool, ret: int, data: seq<byte>)
      requires Valid()
      modifies this`pipeState, this`recvBuffer
      ensures aborted <==> Endpoints.ReadData(old(Value()), size).ReadFatal?
      ensures !aborted ==> Endpoints.ReadData(old(Value()), size) == DidRead(Value(), ret, data)
      ensures !aborted ==> data + recvBuffer == old(recvBuffer)
      ensures !aborted && ret >= 0 ==> ret == |data| && (ret == size || recvBuffer == [])
      ensures !aborted && ret < 0 ==> ret == -1 && data == []
      ensures !aborted ==> (ret == -1 <==> shutdown || (old(pipeState) == OPEN && old(recvBuffer) == []))
    {
      aborted, ret, data := false, -1, [];
      if pipeState == EOF_CONSUMED {
        aborted := true;
        return;
      }
      if shutdown || (pipeState != EOF_NOT_CONSUMED && recvBuffer == []) {
        return;
      }
      if pipeState == EOF_NOT_CONSUMED && recvBuffer == [] {
        pipeState := EOF_CONSUMED;
        ret := 0;
        return;
      }
      var n := Min(size, |recvBuffer|);
      data := recvBuffer[..n];
      recvBuffer := recvBuffer[n..];
      ret := n;
    }

    /** Past the wait for room in the send buffer. */
    method WriteData(data: seq<byte>) returns (ret: int)
      requires Valid()
      modifies this`sendBuffer
      ensures Endpoints.WriteData(old(Value()), data) == DidWrite(Value(), ret)
      ensures ret == -1 <==> shutdown || state in {FIN_WAIT_1, FIN_WAIT_2, TIME_WAIT, CLOSING, LAST_ACK}
      ensures ret == -1 ==> sendBuffer == old(sendBuffer)
      ensures ret != -1 ==> 0 <= ret <= |data| && sendBuffer == old(sendBuffer) + data[..ret]
      ensures ret != -1 ==> ret == |data| || |sendBuffer| >= sendCapacity
    {
      if InClosingState(state) || shutdown {
        ret := -1;
        return;
      }
      var n := Min(|data|, if |sendBuffer| < sendCapacity then sendCapacity - |sendBuffer| else 0);
      sendBuffer := sendBuffer + data[..n];
      ret := n;
    }
  }

  /** An acknowledgement is the window's part and then the rest. */
  lemma AckIs(e: Endpoint, p: Packet)
    ensures Endpoints.HandleACK(e, p) ==
              match SW.NewAckedPacket(e.snd, p.ackNum)
              case AckAbort => Abort
              case Acked(w, result) =>
                if result.retransmit then Done(AfterAck(e, SW.MarkResent(w), p.window), SW.BasePacket(w))
                else Done(AfterAck(e, w, p.window), [])
  {
  }

  ghost function FollowedFin(e: Endpoint): Endpoint {
    if e.state == ESTABLISHED || e.state == CLOSE_WAIT then e.(state := StateOnSendFIN(e.state), timer := true) else e
  }

  ghost function FinOut(e: Endpoint, fin: Packet): seq<Packet> {
    if e.state == ESTABLISHED || e.state == CLOSE_WAIT then [fin] else []
  }

  /** A FIN is registered and then the rest. */
  lemma FinIs(e: Endpoint)
    ensures var w := e.snd.(capacity := Wrap(e.snd.size + 1));
            var fin := MakeFinPacket(SW.NextSeqNumberToSend(w));
            Endpoints.SendFIN(e) ==
              match SW.SendPacket(w, fin)
              case SendAbort => Abort
              case Refused => Abort
              case Sent(snd) => Done(FollowedFin(e.(snd := snd)), FinOut(e, fin))
  {
  }

  ghost function SynReply(e: Endpoint, ackNum: nat): Outcome {
    if e.snd.size > 0 then Done(e.(snd := SW.MarkResent(e.snd)), SW.BasePacket(e.snd))
    else
      var synAck := MakeSyncPacket(SERVER_SEQ_NUM, RecvFree(e)).(ack := true, ackNum := ackNum);
      match SW.SendPacket(e.snd, synAck)
      case SendAbort => Abort
      case Refused => Done(e, [])
      case Sent(snd) => Done(e.(snd := snd, state := SYN_RCVD, timer := true), [synAck])
  }

  /** A SYN is received and then answered. */
  lemma SynIs(e: Endpoint, p: Packet)
    ensures Endpoints.HandleSYN(e, p) ==
              match RW.ReceivePacket(e.rcv, p)
              case RecvAbort => Abort
              case Received(w, ackNum, _) =>
                if ackNum != Wrap(p.seqNum + 1) then Abort else SynReply(e.(rcv := w), ackNum)
  {
  }

  /** An outcome that comes after some packets have been sent. */
  ghost function Following(sent: seq<Packet>, o: Outcome): Outcome {
    match o
    case Abort => Abort
    case Done(ep, out) => Done(ep, sent + out)
  }

  /** Packetizing `n` bytes of `e` has sent `sent` and has `left` bytes to go. */
  ghost predicate InRound(e: Endpoint, n: nat, sent: seq<Packet>, now: Endpoint, left: nat) {
    forall k :: Unseal(k) ==>
      n <= |e.sendBuf| && left <= |now.sendBuf| && Endpoints.Emit(e, n) == Following(sent, Endpoints.Emit(now, left))
  }

  lemma EmitStarts(e: Endpoint, n: nat)
    requires n <= |e.sendBuf|
    ensures InRound(e, n, [], e, n)
  {
    match Endpoints.Emit(e, n)
    case Abort =>
    case Done(_, out) => assert [] + out == out;
  }

  lemma EmitEnds(e: Endpoint, n: nat, sent: seq<Packet>, now: Endpoint)
    requires n <= |e.sendBuf| && InRound(e, n, sent, now, 0)
    ensures Endpoints.Emit(e, n) == Done(now, sent)
  {
    assert Unseal(0);
    assert sent + [] == sent;
  }

  /** One packet of a round, in the middle of it. */
  lemma EmitFirst(e: Endpoint, n: nat, sent: seq<Packet>, now: Endpoint, left: nat)
    requires n <= |e.sendBuf| && 0 < left <= |now.sendBuf|
    requires Endpoints.Emit(e, n) == Following(sent, Endpoints.Emit(now, left))
    ensures match EmitNext(now, left)
            case Abort => Endpoints.Emit(e, n) == Abort
            case Done(e1, out) => Endpoints.Emit(e, n) == Following(sent + out, Endpoints.Emit(e1, left - NextSize(left)))
  {
    match EmitNext(now, left)
    case Abort =>
    case Done(e1, out) =>
      match Endpoints.Emit(e1, left - NextSize(left))
      case Abort =>
      case Done(_, out2) => assert sent + (out + out2) == (sent + out) + out2;
  }
}
