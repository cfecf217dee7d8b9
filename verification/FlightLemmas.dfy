/** How the packets and acknowledgements in flight change when a channel loses a
    packet, gains one, or when its ends move. */
module FlightLemmas {
  import opened Packets
  import opened Logs
  import opened Reassembly
  import opened Network
  import opened Invariants
  import RW = RecvWindows

  lemma WithoutAt<T>(s: seq<T>, i: nat)
    requires i < |s|
    ensures |Without(s, i)| == |s| - 1
    ensures forall k {:trigger Without(s, i)[k]} :: 0 <= k < |s| - 1 ==> Without(s, i)[k] == s[if k < i then k else k + 1]
    ensures i == 0 ==> Without(s, i) == s[1..]
  {
  }

  // ---------------------------------------------------------------------------
  // Packets

  lemma InFlightDrop(log: seq<Packet>, acked: int, rcv: RW.RecvWin, ch: seq<Packet>, i: nat)
    requires InFlight(log, acked, rcv, ch) && i < |ch|
    ensures InFlight(log, acked, rcv, Without(ch, i))
  {
    WithoutAt(ch, i);
  }

  /** A packet may join the channel if it lies at or below the receiver's base,
      or if no other copy of it is around. */
  lemma InFlightAppend(log: seq<Packet>, acked: int, rcv: RW.RecvWin, ch: seq<Packet>, p: Packet)
    requires InFlight(log, acked, rcv, ch) && Shape(log, acked, p)
    requires AllAbove(rcv.list, rcv.base)
    requires p.size > 0 && p.seqNum > rcv.base ==>
               && (forall i :: 0 <= i < |ch| && ch[i].size > 0 ==> ch[i].seqNum != p.seqNum)
               && (forall k :: 0 <= k < |rcv.list| ==> rcv.list[k].seqNum != p.seqNum)
    ensures InFlight(log, acked, rcv, ch + [p])
  {
  }

  lemma InFlightMoreAcked(log: seq<Packet>, acked: int, acked': int, rcv: RW.RecvWin, ch: seq<Packet>)
    requires InFlight(log, acked, rcv, ch) && acked <= acked'
    ensures InFlight(log, acked', rcv, ch)
  {
  }

  /** A freshly registered packet joins log and channel together. */
  lemma InFlightRegister(iss: nat, log: seq<Packet>, acked: int, m: nat, rcv: RW.RecvWin, ch: seq<Packet>, p: Packet)
    requires SeqLog(iss, log) && RecvOk(iss, log, m, rcv)
    requires InFlight(log, acked, rcv, ch)
    requires p.size > 0 && p.seqNum == Edge(iss, log, |log|)
    ensures InFlight(log + [p], acked, rcv, ch + [p])
  {
    forall i | 0 <= i < |ch| ensures Shape(log + [p], acked, ch[i]) && (ch[i].size > 0 ==> ch[i].seqNum != p.seqNum) {
      if ch[i].size > 0 { BelowEnd(iss, log, ch[i]); }
    }
    forall k | 0 <= k < |rcv.list| ensures rcv.list[k].seqNum != p.seqNum {
      BelowEnd(iss, log, rcv.list[k]);
    }
    InFlightAppend(log + [p], acked, rcv, ch, p);
  }

  lemma BelowEnd(iss: nat, log: seq<Packet>, p: Packet)
    requires SeqLog(iss, log) && p in log
    ensures iss <= p.seqNum < Edge(iss, log, |log|)
  {
    var k :| 0 <= k < |log| && log[k] == p;
    EdgeOrder(iss, log, k, |log|);
    if k > 0 { EdgeOrder(iss, log, 0, k); }
  }

  lemma RecvOkGrow(iss: nat, log: seq<Packet>, m: nat, rcv: RW.RecvWin, p: Packet)
    requires RecvOk(iss, log, m, rcv)
    ensures RecvOk(iss, log + [p], m, rcv)
  {
    forall i | 0 <= i < |rcv.list| ensures rcv.list[i] in log + [p] {
      assert rcv.list[i] in log;
    }
  }

  /** The receiver takes the head of the channel: its list may gain that packet
      if it lay above the base, and the base may move up. */
  lemma InFlightReceive(log: seq<Packet>, acked: int, rcv: RW.RecvWin, ch: seq<Packet>, rcv': RW.RecvWin)
    requires InFlight(log, acked, rcv, ch) && ch != []
    requires rcv.base <= rcv'.base
    requires forall k :: 0 <= k < |rcv'.list| ==>
               || rcv'.list[k] in rcv.list
               || (ch[0].size > 0 && rcv'.list[k].seqNum == ch[0].seqNum > rcv.base)
    ensures InFlight(log, acked, rcv', ch[1..])
  {
    forall i, k | 0 <= i < |ch[1..]| && 0 <= k < |rcv'.list| && ch[1..][i].size > 0
      ensures ch[1..][i].seqNum != rcv'.list[k].seqNum
    {
      assert ch[1..][i] == ch[i + 1];
      if rcv'.list[k] in rcv.list {
        var j :| 0 <= j < |rcv.list| && rcv.list[j] == rcv'.list[k];
      }
    }
  }

  // ---------------------------------------------------------------------------
  // Acknowledgements

  lemma AcksDrop(iss: nat, log: seq<Packet>, acked: int, m: nat, room: nat, ch: seq<Packet>, i: nat)
    requires AcksOk(iss, log, acked, m, room, ch) && i < |ch|
    ensures AcksOk(iss, log, acked, m, room, Without(ch, i))
  {
    WithoutAt(ch, i);
  }

  lemma AcksAppendOther(iss: nat, log: seq<Packet>, acked: int, m: nat, room: nat, ch: seq<Packet>, p: Packet)
    requires AcksOk(iss, log, acked, m, room, ch) && !PureAck(p)
    ensures AcksOk(iss, log, acked, m, room, ch + [p])
  {
  }

  /** The receiver, now at edge `m`, acknowledges what it has. */
  lemma AcksAppend(iss: nat, log: seq<Packet>, acked: int, m: nat, m': nat, room: nat, ch: seq<Packet>, p: Packet)
    requires SeqLog(iss, log) && AcksOk(iss, log, acked, m, room, ch)
    requires m <= m' <= |log| && 1 <= m' && acked <= m'
    requires PureAck(p) && p.ackNum == Edge(iss, log, m') && p.window < U16
    requires AckEdgeOf(p) == OfferedEdge(iss, log, m', room)
    ensures AcksOk(iss, log, acked, m', room, ch + [p])
  {
    forall i | 0 <= i < |ch| && PureAck(ch[i])
      ensures AckOk(iss, log, acked, m', ch[i].ackNum) && ch[i].ackNum <= p.ackNum
    {
      var k :| 1 <= k <= m && acked <= k && k <= |log| && ch[i].ackNum == Edge(iss, log, k);
      if k < m' { EdgeOrder(iss, log, k, m'); }
    }
    assert AckOk(iss, log, acked, m', p.ackNum);
  }

  /** The channel loses its head. */
  lemma AcksDropHead(iss: nat, log: seq<Packet>, acked: int, m: nat, room: nat, edge: nat, ch: seq<Packet>)
    requires AcksOk(iss, log, acked, m, room, ch) && NoneBehind(edge, ch) && ch != []
    ensures AcksOk(iss, log, acked, m, room, ch[1..]) && NoneBehind(edge, ch[1..])
  {
    WithoutAt(ch, 0);
    AcksDrop(iss, log, acked, m, room, ch, 0);
    NoneBehindDrop(edge, ch, 0);
  }

  lemma NoneBehindDrop(edge: nat, ch: seq<Packet>, i: nat)
    requires NoneBehind(edge, ch) && i < |ch|
    ensures NoneBehind(edge, Without(ch, i))
  {
    WithoutAt(ch, i);
  }

  lemma AcksMoreRead(iss: nat, log: seq<Packet>, acked: int, m: nat, room: nat, room': nat, ch: seq<Packet>)
    requires AcksOk(iss, log, acked, m, room, ch) && room <= room'
    ensures AcksOk(iss, log, acked, m, room', ch)
  {
  }

  /** Registering a packet leaves the acknowledgements in flight as they were. */
  lemma AcksRegister(iss: nat, log: seq<Packet>, acked: int, m: nat, room: nat, ch: seq<Packet>, p: Packet)
    requires AcksOk(iss, log, acked, m, room, ch) && m <= |log| && !HasFin(log)
    ensures AcksOk(iss, log + [p], acked, m, room, ch)
  {
    forall i | 0 <= i < |ch| && PureAck(ch[i]) ensures AckOk(iss, log + [p], acked, m, ch[i].ackNum) {
      var k :| 1 <= k <= m && acked <= k && k <= |log| && ch[i].ackNum == Edge(iss, log, k);
      assert Edge(iss, log + [p], k) == Edge(iss, log, k);
    }
  }

  /** The sender takes the acknowledgement at the head of the channel; the ones
      behind it acknowledge at least as much. */
  lemma AcksConsume(iss: nat, log: seq<Packet>, acked: int, m: nat, room: nat, ch: seq<Packet>, k: nat)
    requires SeqLog(iss, log) && AcksOk(iss, log, acked, m, room, ch)
    requires ch != [] && PureAck(ch[0]) && k <= |log| && ch[0].ackNum == Edge(iss, log, k)
    ensures AcksOk(iss, log, k, m, room, ch[1..]) && NoneBehind(AckEdgeOf(ch[0]), ch[1..])
  {
    forall i | 0 <= i < |ch[1..]| && PureAck(ch[1..][i]) ensures AckOk(iss, log, k, m, ch[1..][i].ackNum) {
      assert ch[1..][i] == ch[i + 1];
      var l :| 1 <= l <= m && acked <= l && l <= |log| && ch[i + 1].ackNum == Edge(iss, log, l);
      if l < k { EdgeOrder(iss, log, l, k); }
    }
  }
}
