/** The handshake part of the invariant through each kind of step. */
module HandshakeFrames {
  import opened Packets
  import opened Endpoints
  import opened Network
  import opened Invariants
  import opened FlightLemmas
  import opened DeliverSteps
  import opened HandshakeLemmas

  ghost predicate NoSyns(ps: seq<Packet>) {
    forall i :: 0 <= i < |ps| ==> !ps[i].sync
  }

  /** A connected client sends something; its receiving half stays. */
  ghost predicate ClientSends(c: Node, c': Node, ps: seq<Packet>) {
    && c.log != [] && c'.log != [] && Same(c'.log[0], c.log[0]) && c'.iss == c.iss
    && c'.out == c.out + ps && NoSyns(ps)
    && c'.ep.state != SYN_SENT && c'.ep.state != SYN_RCVD
  }

  lemma HsClientSends(c: Node, s: Node, live: bool, mc: nat, ms: nat, c': Node, ps: seq<Packet>)
    requires Handshake(c, s, live, mc, ms) && c.ep.state != SYN_SENT && ClientSends(c, c', ps)
    requires c'.ep.rcv.list == c.ep.rcv.list
    ensures Handshake(c', s, live, mc, ms)
  {
    SynsAppendOthers(c.out, c.iss, ms, Acked(s), s.ep.rcv.list, ps);
  }

  /** A connected server sends something; its receiving half stays. */
  ghost predicate ServerSends(s: Node, s': Node, ps: seq<Packet>) {
    && s.log != [] && s'.log != [] && Same(s'.log[0], s.log[0]) && s'.iss == s.iss
    && s'.out == s.out + ps && NoSyns(ps) && Room(s') == Room(s)
    && s'.ep.state != SYN_SENT
  }

  lemma HsServerSends(c: Node, s: Node, mc: nat, ms: nat, s': Node, ps: seq<Packet>)
    requires Handshake(c, s, true, mc, ms) && c.ep.state != SYN_SENT && ServerSends(s, s', ps)
    requires c.out != [] ==> !c.out[0].sync
    requires s'.ep.rcv.list == s.ep.rcv.list
    ensures Handshake(c, s', true, mc, ms)
  {
    SynAcksAppendOthers(s.out, c.iss + 1, Room(s), mc, c.ep.rcv.list, ps);
  }

  /** The client changes nothing the handshake looks at. */
  lemma HsClientQuiet(c: Node, s: Node, live: bool, mc: nat, ms: nat, c': Node)
    requires Handshake(c, s, live, mc, ms)
    requires c'.iss == c.iss && c'.log == c.log && c'.out == c.out && c'.ep.state == c.ep.state
    requires c'.ep.rcv == c.ep.rcv
    ensures Handshake(c', s, live, mc, ms)
  {
  }

  lemma HsServerQuiet(c: Node, s: Node, live: bool, mc: nat, ms: nat, s': Node)
    requires Handshake(c, s, live, mc, ms)
    requires s'.iss == s.iss && s'.log == s.log && s'.out == s.out && s'.ep.state == s.ep.state
    requires s'.ep.rcv == s.ep.rcv && Acked(s') == Acked(s) && Room(s) <= Room(s')
    ensures Handshake(c, s', live, mc, ms)
  {
    SynAcksMore(s.out, c.iss + 1, Room(s), Room(s'), c.ep.state == SYN_SENT, c.ep.state == SYN_SENT, mc, c.ep.rcv.list);
  }

  lemma HsClientDrop(c: Node, s: Node, live: bool, mc: nat, ms: nat, i: nat)
    requires Handshake(c, s, live, mc, ms) && i < |c.out|
    ensures Handshake(c.(out := Without(c.out, i)), s, live, mc, ms)
  {
    SynsDrop(c.out, c.iss, c.ep.state == SYN_SENT, ms, Acked(s), s.ep.rcv.list, i);
  }

  lemma HsServerDrop(c: Node, s: Node, live: bool, mc: nat, ms: nat, i: nat)
    requires Handshake(c, s, live, mc, ms) && i < |s.out|
    ensures Handshake(c, s.(out := Without(s.out, i)), live, mc, ms)
  {
    SynAcksDrop(s.out, c.iss + 1, Room(s), c.ep.state == SYN_SENT, mc, c.ep.rcv.list, i);
  }

  lemma HsClientPopped(c: Node, s: Node, live: bool, mc: nat, ms: nat)
    requires Handshake(c, s, live, mc, ms) && c.out != []
    ensures Handshake(Popped(c), s, live, mc, ms)
  {
    SynsDrop(c.out, c.iss, c.ep.state == SYN_SENT, ms, Acked(s), s.ep.rcv.list, 0);
    WithoutAt(c.out, 0);
  }

  // ---------------------------------------------------------------------------
  // Deliveries past the handshake

  /** The client takes data and answers. */
  lemma HsClientTakesData(c: Node, s: Node, mc: nat, ms: nat, c': Node, mc': nat, ps: seq<Packet>)
    requires Handshake(c, s, true, mc, ms) && c.ep.state != SYN_SENT && ClientSends(c, c', ps)
    requires s.out != [] && !s.out[0].sync && s.out[0].size > 0
    requires 0 < mc <= mc'
    ensures Handshake(c', Popped(s), true, mc', ms)
  {
    SynsAppendOthers(c.out, c.iss, ms, Acked(s), s.ep.rcv.list, ps);
    SynAcksGone(s.out, c.iss + 1, Room(s), false, mc, c.ep.rcv.list, mc', c'.ep.rcv.list);
  }

  /** The client takes an acknowledgement or a probe. */
  lemma HsClientTakesOther(c: Node, s: Node, mc: nat, ms: nat, c': Node, ps: seq<Packet>)
    requires Handshake(c, s, true, mc, ms) && c.ep.state != SYN_SENT && ClientSends(c, c', ps)
    requires s.out != [] && c'.ep.rcv.list == c.ep.rcv.list
    ensures Handshake(c', Popped(s), true, mc, ms)
  {
    HsClientSends(c, s, true, mc, ms, c', ps);
    HsServerDrop(c', s, true, mc, ms, 0);
    WithoutAt(s.out, 0);
  }

  /** The server takes anything but a SYN and answers. */
  lemma HsServerTakes(c: Node, s: Node, mc: nat, ms: nat, s': Node, ms': nat, ps: seq<Packet>)
    requires Handshake(c, s, true, mc, ms) && ServerSends(s, s', ps)
    requires c.out != [] && !c.out[0].sync
    requires 0 < ms <= ms'
    ensures c.ep.state != SYN_SENT
    ensures Handshake(Popped(c), s', true, mc, ms')
  {
    SynsGone(c.out, c.iss, c.ep.state == SYN_SENT, ms, Acked(s), s.ep.rcv.list, ms', Acked(s'), s'.ep.rcv.list);
    SynAcksAppendOthers(s.out, c.iss + 1, Room(s), mc, c.ep.rcv.list, ps);
  }

  // ---------------------------------------------------------------------------
  // The handshake itself

  /** The client sends its first SYN, or sends it again. */
  lemma HsClientSyn(c: Node, s: Node, live: bool, mc: nat, ms: nat, c': Node, p: Packet)
    requires Handshake(c, s, live, mc, ms) && mc == 0 && (c.log == [] ==> !live)
    requires c'.iss == c.iss && c'.log == [p] && c'.out == c.out + [p] && c'.ep.state == SYN_SENT
    requires p.sync && SynOk(p, c.iss) && c'.ep.rcv == c.ep.rcv
    requires c.log == [] || c.ep.state == SYN_SENT
    requires ms <= 1 && Acked(s) <= 0 && s.ep.rcv.list == []
    ensures Handshake(c', s, live, mc, ms)
  {
    if c.log == [] {
      assert c.out == [] && c'.out == [p];
    } else {
      SynsAppendSyn(c.out, c.iss, ms, Acked(s), s.ep.rcv.list, p);
    }
  }

  /** The server registers its SYN-ACK, or sends it again. */
  lemma HsServerSynAck(c: Node, s: Node, mc: nat, ms: nat, s': Node, ms': nat, p: Packet)
    requires Handshake(c, s, true, mc, ms)
    requires s'.iss == s.iss && s'.log == [p] && s'.out == s.out + [p] && s'.ep.state != SYN_SENT
    requires p.sync && SynAckOk(p, c.iss + 1, Room(s)) && Room(s') == Room(s)
    requires forall i :: 0 <= i < |s.out| ==> s.out[i].sync || s.out[i].size == 0
    requires mc <= 1 && c.ep.rcv.list == [] && ms' == 1 && Acked(s') <= 0 && s'.ep.rcv.list == []
    ensures Handshake(c, s', true, mc, ms')
  {
    SynAcksAppend(s.out, c.iss + 1, Room(s), c.ep.state == SYN_SENT, mc, c.ep.rcv.list, p);
  }

  /** The server sends its SYN-ACK again on its own account. */
  lemma HsServerResends(c: Node, s: Node, mc: nat, ms: nat, s': Node, p: Packet)
    requires Handshake(c, s, true, mc, ms)
    requires s'.iss == s.iss && s.log == [p] && s'.log == s.log && s'.out == s.out + [p] && s'.ep.state == s.ep.state
    requires p.sync && Room(s') == Room(s) && Acked(s') == Acked(s) && s'.ep.rcv == s.ep.rcv
    requires forall i :: 0 <= i < |s.out| ==> s.out[i].sync || s.out[i].size == 0
    requires mc <= 1 && c.ep.rcv.list == []
    ensures Handshake(c, s', true, mc, ms)
  {
    SynAcksAppend(s.out, c.iss + 1, Room(s), c.ep.state == SYN_SENT, mc, c.ep.rcv.list, p);
  }

  /** The client takes a SYN-ACK and acknowledges it. */
  lemma HsClientSynAck(c: Node, s: Node, mc: nat, ms: nat, c': Node, ps: seq<Packet>)
    requires Handshake(c, s, true, mc, ms) && ClientSends(c, c', ps)
    requires s.out != [] && s.out[0].sync && c'.ep.rcv.list == [] && mc <= 1
    ensures Handshake(c', Popped(s), true, 1, ms)
  {
    SynsConnected(c.out, c.iss, c.ep.state == SYN_SENT, ms, Acked(s), s.ep.rcv.list);
    SynsAppendOthers(c.out, c.iss, ms, Acked(s), s.ep.rcv.list, ps);
    SynAcksTake(s.out, c.iss + 1, Room(s), c.ep.state == SYN_SENT, mc, c.ep.rcv.list);
  }
}
