/** How the order of SYNs, SYN-ACKs and everything else in the channels changes
    when a channel loses, gains or delivers a packet. */
module HandshakeLemmas {
  import opened Packets
  import opened Endpoints
  import opened Network
  import opened Invariants
  import opened FlightLemmas

  lemma SynsDrop(ch: seq<Packet>, iss: nat, connecting: bool, ms: nat, acked: int, list: seq<Packet>, i: nat)
    requires SynsFirst(ch, iss, connecting, ms, acked, list) && i < |ch|
    ensures SynsFirst(Without(ch, i), iss, connecting, ms, acked, list)
  {
    WithoutAt(ch, i);
  }

  lemma SynsAppendOthers(ch: seq<Packet>, iss: nat, ms: nat, acked: int, list: seq<Packet>, ps: seq<Packet>)
    requires SynsFirst(ch, iss, false, ms, acked, list) && forall i :: 0 <= i < |ps| ==> !ps[i].sync
    ensures SynsFirst(ch + ps, iss, false, ms, acked, list)
  {
  }

  lemma SynsAppendSyn(ch: seq<Packet>, iss: nat, ms: nat, acked: int, list: seq<Packet>, p: Packet)
    requires SynsFirst(ch, iss, true, ms, acked, list) && p.sync && SynOk(p, iss)
    requires ms <= 1 && acked <= 0 && list == []
    ensures SynsFirst(ch + [p], iss, true, ms, acked, list)
  {
  }

  lemma SynsRepeatHead(ch: seq<Packet>, iss: nat, connecting: bool, ms: nat, acked: int, list: seq<Packet>)
    requires SynsFirst(ch, iss, connecting, ms, acked, list) && ch != [] && ch[0].sync
    ensures SynsFirst([ch[0]] + ch, iss, connecting, ms, acked, list)
  {
  }

  /** Once something else than a SYN is at the head, no SYN is left behind it. */
  lemma SynsGone(ch: seq<Packet>, iss: nat, connecting: bool, ms: nat, acked: int, list: seq<Packet>,
                 ms': nat, acked': int, list': seq<Packet>)
    requires SynsFirst(ch, iss, connecting, ms, acked, list) && ch != [] && !ch[0].sync
    ensures SynsFirst(ch[1..], iss, connecting, ms', acked', list')
  {
    forall i | 0 <= i < |ch[1..]| ensures !ch[1..][i].sync {
      assert ch[1..][i] == ch[i + 1];
    }
  }

  lemma SynsConnected(ch: seq<Packet>, iss: nat, connecting: bool, ms: nat, acked: int, list: seq<Packet>)
    requires SynsFirst(ch, iss, connecting, ms, acked, list)
    ensures SynsFirst(ch, iss, false, ms, acked, list)
  {
  }

  lemma SynAcksDrop(ch: seq<Packet>, ackNum: nat, room: nat, connecting: bool, mc: nat, list: seq<Packet>, i: nat)
    requires SynAcksFirst(ch, ackNum, room, connecting, mc, list) && i < |ch|
    ensures SynAcksFirst(Without(ch, i), ackNum, room, connecting, mc, list)
  {
    WithoutAt(ch, i);
  }

  lemma SynAcksAppendOthers(ch: seq<Packet>, ackNum: nat, room: nat, mc: nat, list: seq<Packet>, ps: seq<Packet>)
    requires SynAcksFirst(ch, ackNum, room, false, mc, list) && forall i :: 0 <= i < |ps| ==> !ps[i].sync
    ensures SynAcksFirst(ch + ps, ackNum, room, false, mc, list)
  {
  }

  lemma SynAcksAppend(ch: seq<Packet>, ackNum: nat, room: nat, connecting: bool, mc: nat, list: seq<Packet>, p: Packet)
    requires SynAcksFirst(ch, ackNum, room, connecting, mc, list) && p.sync && SynAckOk(p, ackNum, room)
    requires forall i :: 0 <= i < |ch| ==> ch[i].sync || ch[i].size == 0
    requires mc <= 1 && list == []
    ensures SynAcksFirst(ch + [p], ackNum, room, connecting, mc, list)
  {
  }

  /** Once data is at the head, no SYN-ACK is left behind it. */
  lemma SynAcksGone(ch: seq<Packet>, ackNum: nat, room: nat, connecting: bool, mc: nat, list: seq<Packet>,
                    mc': nat, list': seq<Packet>)
    requires SynAcksFirst(ch, ackNum, room, connecting, mc, list) && ch != [] && !ch[0].sync && ch[0].size > 0
    ensures SynAcksFirst(ch[1..], ackNum, room, connecting, mc', list')
  {
    forall i | 0 <= i < |ch[1..]| ensures !ch[1..][i].sync {
      assert ch[1..][i] == ch[i + 1];
    }
  }

  lemma SynAcksMore(ch: seq<Packet>, ackNum: nat, room: nat, room': nat, connecting: bool, connecting': bool, mc: nat, list: seq<Packet>)
    requires SynAcksFirst(ch, ackNum, room, connecting, mc, list) && room <= room' && (connecting' ==> connecting)
    ensures SynAcksFirst(ch, ackNum, room', connecting', mc, list)
  {
  }

  lemma SynAcksTake(ch: seq<Packet>, ackNum: nat, room: nat, connecting: bool, mc: nat, list: seq<Packet>)
    requires SynAcksFirst(ch, ackNum, room, connecting, mc, list) && ch != []
    ensures SynAcksFirst(ch[1..], ackNum, room, false, 1, [])
  {
    SynAcksDrop(ch, ackNum, room, connecting, mc, list, 0);
    WithoutAt(ch, 0);
  }

  /** A server past the handshake has a client past the handshake, and no SYN is
      in flight any more. */
  lemma ServerConnected(c: Node, s: Node, live: bool, mc: nat, ms: nat)
    requires Pair(c, s, ms, mc) && Handshake(c, s, live, mc, ms)
    requires Acked(s) > 0
    ensures mc > 0 && c.log != [] && c.ep.state != SYN_SENT && live && s.log != []
    ensures c.out != [] ==> !c.out[0].sync
  {
  }
}
