/** The lossy channel: a queue whose batch entry drops packets by dice. */
module BaseChannelClass {
  import opened Packets
  import opened PacketQueueClass
  import opened Pipeline

  class BaseChannel {
    const pktBuffer: PacketQueue

    constructor ()
      ensures fresh(pktBuffer) && pktBuffer.packets == [] && !pktBuffer.destroy
    {
      pktBuffer := new PacketQueue();
    }

    /** Send a batch: the dice say which packets get through. The caller's queue
        ends up empty, and the channel has gained the survivors in order. */
    method Send(pktsToSend: Queue, keep: seq<bool>)
      requires |keep| == |pktsToSend.items|
      modifies pktsToSend, pktBuffer`packets
      ensures pktsToSend.items == []
      ensures pktBuffer.packets == old(pktBuffer.packets) + Survivors(old(pktsToSend.items), keep)
      ensures Joined(pktBuffer.packets, old(pktBuffer.packets), old(pktsToSend.items), keep)
    {
      SurvivorsJoin(pktBuffer.packets, pktsToSend.items, keep);
      var pkts := new Queue();
      var i, n := 0, |pktsToSend.items|;
      while i < n
        invariant i <= n == |keep| && |pktsToSend.items| == n - i
        invariant pktBuffer.packets == old(pktBuffer.packets)
        invariant pkts.items + Survivors(pktsToSend.items, keep[i..]) == Survivors(old(pktsToSend.items), keep)
      {
        assert keep[i..][1..] == keep[i + 1..];
        if keep[i] {
          pkts.items := pkts.items + [pktsToSend.items[0]];
        }
        pktsToSend.items := pktsToSend.items[1..];
        i := i + 1;
      }
      var sent := pktBuffer.PushAll(pkts);
    }

    /** One round of the delivery thread: everything that got through goes to the
        receiver's callback in one batch. */
    method WaitingForPackets() returns (delivered: seq<Packet>)
      modifies pktBuffer
      ensures delivered == (if old(pktBuffer.destroy) then [] else old(pktBuffer.packets))
      ensures pktBuffer.packets == (if old(pktBuffer.destroy) then old(pktBuffer.packets) else [])
    {
      var newPackets := new Queue();
      var n := pktBuffer.DeQueueAllTo(newPackets);
      delivered := newPackets.items;
    }
  }
}
