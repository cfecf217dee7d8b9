/** The receive window as a value: the next expected sequence number and the
    out-of-order packets held above it, in list order. */
module RecvWindows {
  import opened Packets

  datatype RecvWin = RecvWin(base: nat, list: seq<Packet>)

  datatype RecvOutcome = RecvAbort | Received(win: RecvWin, ackNum: nat, chain: seq<Packet>)

  /** Where the insertion walk stops: before the first packet that does not
      start below `seqNum`. */
  function Position(list: seq<Packet>, seqNum: nat): (i: nat)
    ensures i <= |list|
    ensures forall k :: 0 <= k < i ==> list[k].seqNum < seqNum
    ensures i < |list| ==> seqNum <= list[i].seqNum
  {
    if list == [] || seqNum <= list[0].seqNum then 0 else 1 + Position(list[1..], seqNum)
  }

  /** The two overlap checks made while inserting `p`. */
  predicate Fits(list: seq<Packet>, p: Packet) {
    var i := Position(list, p.seqNum);
    && (forall k :: 0 <= k < i ==> End(list[k]) <= p.seqNum)
    && (i < |list| ==> End(p) <= list[i].seqNum)
  }

  function Insert(list: seq<Packet>, p: Packet): seq<Packet> {
    var i := Position(list, p.seqNum);
    list[..i] + [p] + list[i..]
  }

  /** Where the contiguous run through packet `i` of the list stops. */
  function RunEnd(list: seq<Packet>, i: nat): (n: nat)
    requires i < |list|
    ensures i < n <= |list|
    decreases |list| - i
  {
    if i + 1 < |list| && End(list[i]) == list[i + 1].seqNum then RunEnd(list, i + 1) else i + 1
  }

  function ReceivePacket(w: RecvWin, p: Packet): RecvOutcome {
    if p.seqNum < w.base then Received(w, w.base, [])
    else if !Fits(w.list, p) then RecvAbort
    else
      var list := Insert(w.list, p);
      if p.seqNum != w.base then Received(w.(list := list), w.base, [])
      else if Position(w.list, p.seqNum) != 0 then RecvAbort
      else
        var n := RunEnd(list, 0);
        Received(RecvWin(End(list[n - 1]), list[n..]), End(list[n - 1]), list[..n])
  }
}
