/** The queue between two threads of the stack, as an object. The waits of the
    blocking calls are over when a method body starts. */
module PacketQueueClass {
  import opened Packets

  /** A plain queue that a caller owns and passes by reference. */
  class Queue {
    var items: seq<Packet>

    constructor ()
      ensures items == []
    {
      items := [];
    }
  }

  datatype MaybePacket = NoPacket | SomePacket(pkt: Packet)

  class PacketQueue {
    var packets: seq<Packet>
    var destroy: bool
    var numReaders: nat

    constructor ()
      ensures packets == [] && !destroy && numReaders == 0
    {
      packets, destroy, numReaders := [], false, 0;
    }

    method Push(p: Packet) returns (ok: bool)
      modifies this`packets
      ensures ok && packets == old(packets) + [p]
    {
      packets := packets + [p];
      ok := true;
    }

    /** Move a whole batch in; the caller's queue ends up empty. */
    method PushAll(pkts: Queue) returns (n: nat)
      modifies this`packets, pkts
      ensures packets == old(packets) + old(pkts.items) && pkts.items == []
      ensures n == |old(pkts.items)|
    {
      n := |pkts.items|;
      var i := 0;
      while i < n
        invariant i <= n == |old(pkts.items)|
        invariant pkts.items == old(pkts.items)[i..]
        invariant packets == old(packets) + old(pkts.items)[..i]
      {
        packets := packets + [pkts.items[0]];
        pkts.items := pkts.items[1..];
        i := i + 1;
      }
    }

    method DeQueue() returns (p: MaybePacket)
      modifies this`packets, this`numReaders
      ensures numReaders == old(numReaders)
      ensures if old(destroy) || old(packets) == [] then p == NoPacket && packets == old(packets)
              else p.SomePacket? && old(packets) == [p.pkt] + packets
    {
      IncReaders();
      if destroy || packets == [] {
        p := NoPacket;
      } else {
        p := SomePacket(packets[0]);
        packets := packets[1..];
      }
      DecReaders();
    }

    /** Hand everything over by swapping with the caller's queue. */
    method DeQueueAllTo(receiver: Queue) returns (n: nat)
      modifies this`packets, this`numReaders, receiver
      ensures numReaders == old(numReaders)
      ensures if old(destroy) || old(packets) == []
              then n == 0 && packets == old(packets) && receiver.items == old(receiver.items)
              else n == |old(packets)| && receiver.items == old(packets) && packets == old(receiver.items)
    {
      IncReaders();
      if destroy || packets == [] {
        n := 0;
      } else {
        n := |packets|;
        receiver.items, packets := packets, receiver.items;
      }
      DecReaders();
    }

    method IncReaders()
      modifies this`numReaders
      ensures numReaders == old(numReaders) + 1
    {
      numReaders := numReaders + 1;
    }

    method DecReaders()
      requires numReaders > 0
      modifies this`numReaders
      ensures numReaders == old(numReaders) - 1
    {
      numReaders := numReaders - 1;
    }
  }
}
