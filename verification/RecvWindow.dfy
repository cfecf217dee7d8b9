/** The receive window as the code has it: a doubly linked list on the heap with
    a dummy head. `ReceivePacket` splices a node in and cuts the contiguous run
    off; it is proved against the value in `RecvWindows`. */
module RecvWindowClass {
  import opened Packets
  import RW = RecvWindows

  class RecvWindowNode {
    const pkt: Packet
    var prev: RecvWindowNode?
    var next: RecvWindowNode?

    constructor (pkt: Packet)
      ensures this.pkt == pkt && prev == null && next == null
    {
      this.pkt := pkt;
      prev, next := null, null;
    }
  }

  ghost function At(s: seq<RecvWindowNode>, i: int): RecvWindowNode? {
    if 0 <= i < |s| then s[i] else null
  }

  /** The nodes of `s` form a list: `next` and `prev` agree with the order, and both
      ends are null. That no node occurs twice follows (`LinkedDistinct`). */
  ghost predicate Linked(s: seq<RecvWindowNode>)
    reads s
  {
    forall i {:trigger s[i].next} {:trigger s[i].prev} :: 0 <= i < |s| ==> s[i].next == At(s, i + 1) && s[i].prev == At(s, i - 1)
  }

  ghost predicate Distinct(s: seq<RecvWindowNode>) {
    forall i, j :: 0 <= i < j < |s| ==> s[i] != s[j]
  }

  function PktsOf(s: seq<RecvWindowNode>, from: nat): (pkts: seq<Packet>)
    requires from <= |s|
  {
    seq(|s| - from, i requires 0 <= i < |s| - from => s[from + i].pkt)
  }

  /** The packets up to node `i` end at or below `seqNum`. */
  ghost predicate Passed(nodes: seq<RecvWindowNode>, i: nat, seqNum: nat)
    requires i < |nodes|
  {
    forall k :: 0 < k <= i ==> nodes[k].pkt.seqNum < seqNum && End(nodes[k].pkt) <= seqNum
  }

  class RecvWindow {
    var base: nat
    const head: RecvWindowNode
    ghost var nodes: seq<RecvWindowNode>

    /** `nodes` is the dummy head and then the buffered packets. */
    ghost predicate Valid()
      reads this, nodes
    {
      nodes != [] && nodes[0] == head && Linked(nodes)
    }

    ghost function Value(): RW.RecvWin
      requires nodes != []
      reads this
    {
      RW.RecvWin(base, PktsOf(nodes, 1))
    }

    constructor (recvBase: nat)
      ensures Valid() && Value() == RW.RecvWin(recvBase, [])
      ensures fresh(nodes)
    {
      base := recvBase;
      var dummy := new RecvWindowNode(MakeDataPacket(0, []));
      head := dummy;
      nodes := [dummy];
    }

    method SetRecvBase(recvBase: nat)
      requires Valid()
      modifies this`base
      ensures Valid() && Value() == old(Value()).(base := recvBase)
    {
      base := recvBase;
    }

    /** The insertion walk: the node after which a packet that starts at `seqNum`
        belongs, or the overlap check failing on the way there. */
    method FindPlace(seqNum: nat) returns (aborted: bool, node: RecvWindowNode, ghost i: nat)
      requires Valid()
      ensures i < |nodes| && node == nodes[i] && Passed(nodes, i, seqNum)
      ensures if aborted then i + 1 < |nodes| && nodes[i + 1].pkt.seqNum < seqNum < End(nodes[i + 1].pkt)
              else i + 1 < |nodes| ==> seqNum <= nodes[i + 1].pkt.seqNum
    {
      aborted, node, i := false, head, 0;
      while node.next != null
        invariant i < |nodes| && node == nodes[i] && Passed(nodes, i, seqNum)
        decreases |nodes| - i
      {
        var next := node.next;
        assert next == nodes[i + 1];
        if seqNum > next.pkt.seqNum {
          if seqNum < Wrap(next.pkt.seqNum + next.pkt.size) {
            aborted := true;
            return;
          }
          node, i := next, i + 1;
        } else {
          break;
        }
      }
    }

    /** Splice a new node in after `node`. */
    method InsertAfter(node: RecvWindowNode, newNode: RecvWindowNode, ghost i: nat)
      requires Valid() && i < |nodes| && node == nodes[i]
      requires newNode !in nodes
      modifies this`nodes, newNode, nodes
      ensures Valid() && IsSplice(nodes, old(nodes), i, newNode)
    {
      ghost var s, t := nodes, Splice(nodes, i, newNode);
      LinkedDistinct(s);
      newNode.next := node.next;
      if newNode.next != null {
        newNode.next.prev := newNode;
      }
      newNode.prev := node;
      node.next := newNode;
      nodes := t;
      forall k | 0 <= k < |t| ensures t[k].next == At(t, k + 1) && t[k].prev == At(t, k - 1) {
        if k <= i {
          assert t[k] == s[k];
        } else if k > i + 1 {
          assert t[k] == s[k - 1];
        }
      }
    }

    /** The second walk: the last node of the contiguous run. */
    method FindRunEnd(newNode: RecvWindowNode) returns (node: RecvWindowNode)
      requires Valid() && 1 < |nodes| && newNode == nodes[1]
      ensures node == nodes[RW.RunEnd(PktsOf(nodes, 1), 0)]
    {
      ghost var list, i := PktsOf(nodes, 1), 0;
      node := newNode;
      while node.next != null
        invariant i < |list| && node == nodes[i + 1] && RW.RunEnd(list, i) == RW.RunEnd(list, 0)
        decreases |list| - i
      {
        var next := node.next;
        assert next == nodes[i + 2];
        if Wrap(node.pkt.seqNum + node.pkt.size) == next.pkt.seqNum {
          node, i := next, i + 1;
        } else {
          break;
        }
      }
    }

    /** Cut the run that ends in `node` off the front of the list and move the
        base to its end. */
    method CutRun(newNode: RecvWindowNode, node: RecvWindowNode, ghost n: nat) returns (ghost run: seq<RecvWindowNode>)
      requires Valid() && 0 < n < |nodes| && newNode == nodes[1] && node == nodes[n]
      modifies this`base, this`nodes, nodes
      ensures Valid() && Linked(run) && IsCut(old(nodes), nodes, run, n)
      ensures base == End(node.pkt)
    {
      ghost var s, t := nodes, Rest(nodes, n);
      LinkedDistinct(s);
      run := Run(nodes, n);
      nodes := t;
      head.next := node.next;
      if node.next != null {
        node.next.prev := head;
      }
      newNode.prev := null;
      node.next := null;
      base := Wrap(node.pkt.seqNum + node.pkt.size);
      forall k | 0 <= k < |t| ensures t[k].next == At(t, k + 1) && t[k].prev == At(t, k - 1) {
        assert k > 0 ==> t[k] == s[k + n];
      }
      forall k | 0 <= k < |run| ensures run[k].next == At(run, k + 1) && run[k].prev == At(run, k - 1) {
        assert run[k] == s[k + 1];
      }
    }

    /** The first half of `ReceivePacket`: put a new node at its place, with the
        overlap checks. */
    method InsertPacket(p: Packet) returns (aborted: bool, newNode: RecvWindowNode)
      requires Valid()
      modifies this`nodes, nodes
      ensures aborted <==> !RW.Fits(PktsOf(old(nodes), 1), p)
      ensures !aborted ==> Valid() && Inserted(nodes, old(nodes), newNode, p)
      ensures fresh(newNode) && forall n :: n in nodes ==> n in old(nodes) || n == newNode
    {
      ghost var s := nodes;
      newNode := new RecvWindowNode(p);
      var node;
      ghost var i;
      aborted, node, i := FindPlace(p.seqNum);
      PlaceIsPosition(s, i, p, aborted);
      if !aborted && node.next != null && Wrap(p.seqNum + p.size) > node.next.pkt.seqNum {
        aborted := true;
      }
      assert aborted <==> !RW.Fits(PktsOf(s, 1), p);
      if !aborted {
        InsertAfter(node, newNode, i);
        SpliceIsInsert(nodes, s, i, newNode);
      }
    }

    /** The second half: release the run that starts with the new node. */
    method Release(newNode: RecvWindowNode) returns (ghost run: seq<RecvWindowNode>)
      requires Valid() && 1 < |nodes| && newNode == nodes[1]
      modifies this`base, this`nodes, nodes
      ensures Valid() && Linked(run) && run != [] && run[0] == newNode
      ensures Released(old(nodes), nodes, run, base)
      ensures forall n :: n in run ==> n !in nodes
      ensures forall n :: n in nodes || n in run ==> n in old(nodes)
    {
      ghost var s, n := nodes, RW.RunEnd(PktsOf(nodes, 1), 0);
      LinkedDistinct(s);
      var last := FindRunEnd(newNode);
      run := CutRun(newNode, last, n);
      CutIsSplit(s, nodes, run, n);
    }

    /** Take in a packet. The acknowledgement number comes with the list of
        packets released to the layer above, which is cut off from the window:
        a list of its own, ending in null on both sides. */
    method ReceivePacket(p: Packet) returns (aborted: bool, ackNum: nat, chain: RecvWindowNode?, ghost run: seq<RecvWindowNode>)
      requires Valid()
      modifies this`base, this`nodes, nodes
      ensures aborted <==> RW.ReceivePacket(old(Value()), p).RecvAbort?
      ensures !aborted ==> Valid() && RW.ReceivePacket(old(Value()), p) == RW.Received(Value(), ackNum, PktsOf(run, 0))
      ensures !aborted ==> Linked(run) && chain == At(run, 0) && forall n :: n in run ==> n !in nodes
      ensures forall n :: n in nodes || n in run ==> n in old(nodes) || fresh(n)
    {
      aborted, ackNum, chain, run := false, base, null, [];
      if p.seqNum < base {
        return;
      }
      var newNode;
      aborted, newNode := InsertPacket(p);
      if !aborted && p.seqNum == base {
        if newNode != head.next {
          aborted := true;
          return;
        }
        assert forall k :: 0 <= k < |nodes| ==> nodes[k] in nodes;
        run := Release(newNode);
        ackNum, chain := base, newNode;
      }
    }
  }

  ghost predicate Inserted(t: seq<RecvWindowNode>, s: seq<RecvWindowNode>, newNode: RecvWindowNode, p: Packet)
    requires s != []
  {
    && |t| == |s| + 1 && PktsOf(t, 1) == RW.Insert(PktsOf(s, 1), p)
    && (t[1] == newNode <==> RW.Position(PktsOf(s, 1), p.seqNum) == 0)
  }

  ghost predicate Released(s: seq<RecvWindowNode>, t: seq<RecvWindowNode>, run: seq<RecvWindowNode>, base: nat)
    requires |s| > 1
  {
    var list := PktsOf(s, 1);
    var n := RW.RunEnd(list, 0);
    t != [] && PktsOf(run, 0) == list[..n] && PktsOf(t, 1) == list[n..] && base == End(list[n - 1])
  }

  /** A list whose links agree in both directions and end in null has no node
      twice: it is acyclic. */
  lemma LinkedDistinct(s: seq<RecvWindowNode>)
    requires Linked(s)
    ensures Distinct(s)
  {
    forall i, j | 0 <= i < j < |s| ensures s[i] != s[j] {
      LinkedApart(s, i, j);
    }
  }

  lemma {:induction false} LinkedApart(s: seq<RecvWindowNode>, i: nat, j: nat)
    requires Linked(s) && i < j < |s|
    ensures s[i] != s[j]
  {
    if s[i] == s[j] {
      assert s[i].prev == s[j].prev;
      if i > 0 {
        LinkedApart(s, i - 1, j - 1);
      }
    }
  }

  /** The place the walk finds is the specification's, and the overlap checks
      made on the way and at the place are the specification's too. */
  lemma PlaceIsPosition(s: seq<RecvWindowNode>, i: nat, p: Packet, aborted: bool)
    requires i < |s| && Passed(s, i, p.seqNum)
    requires if aborted then i + 1 < |s| && s[i + 1].pkt.seqNum < p.seqNum < End(s[i + 1].pkt)
             else i + 1 < |s| ==> p.seqNum <= s[i + 1].pkt.seqNum
    ensures !aborted ==> i == RW.Position(PktsOf(s, 1), p.seqNum)
    ensures RW.Fits(PktsOf(s, 1), p) <==> !aborted && (i + 1 < |s| ==> End(p) <= s[i + 1].pkt.seqNum)
  {
    var list := PktsOf(s, 1);
    var n := RW.Position(list, p.seqNum);
    if n < |list| { assert list[n] == s[n + 1].pkt; }
    if i < |list| { assert list[i] == s[i + 1].pkt; }
    assert forall k :: 0 <= k < |list| ==> list[k] == s[k + 1].pkt;
  }

  lemma SpliceIsInsert(t: seq<RecvWindowNode>, s: seq<RecvWindowNode>, i: nat, x: RecvWindowNode)
    requires IsSplice(t, s, i, x) && i == RW.Position(PktsOf(s, 1), x.pkt.seqNum)
    ensures PktsOf(t, 1) == RW.Insert(PktsOf(s, 1), x.pkt)
  {
    var a, b := PktsOf(t, 1), RW.Insert(PktsOf(s, 1), x.pkt);
    forall k | 0 <= k < |a| ensures a[k] == b[k] {
      assert a[k] == t[k + 1].pkt;
    }
  }

  lemma CutIsSplit(s: seq<RecvWindowNode>, t: seq<RecvWindowNode>, run: seq<RecvWindowNode>, n: nat)
    requires IsCut(s, t, run, n)
    ensures PktsOf(run, 0) == PktsOf(s, 1)[..n] && PktsOf(t, 1) == PktsOf(s, 1)[n..]
  {
    var list, a, b := PktsOf(s, 1), PktsOf(run, 0), PktsOf(t, 1);
    forall k | 0 <= k < n ensures a[k] == list[k] {
      assert a[k] == run[k].pkt;
    }
    forall k | 0 <= k < |b| ensures b[k] == list[n + k] {
      assert b[k] == t[k + 1].pkt;
    }
  }

  /** `s` is cut into the run of its `n` packets and what stays behind the head. */
  ghost predicate IsCut<T>(s: seq<T>, t: seq<T>, run: seq<T>, n: nat) {
    && 0 < n && |s| == |t| + n && |run| == n && t != [] && t[0] == s[0]
    && (forall k {:trigger run[k]} :: 0 <= k < n ==> run[k] == s[k + 1])
    && (forall k {:trigger t[k]} :: 0 < k < |t| ==> t[k] == s[k + n])
  }

  /** `t` is `s` with `x` put in after index `i`. */
  ghost predicate IsSplice<T>(t: seq<T>, s: seq<T>, i: nat, x: T) {
    && i < |s| && |t| == |s| + 1
    && (forall k :: 0 <= k <= i ==> t[k] == s[k])
    && t[i + 1] == x
    && (forall k {:trigger t[k]} :: i + 1 < k < |t| ==> t[k] == s[k - 1])
  }

  ghost function Splice<T>(s: seq<T>, i: nat, x: T): (t: seq<T>)
    requires i < |s|
    ensures IsSplice(t, s, i, x)
  {
    s[..i + 1] + [x] + s[i + 1..]
  }

  ghost function Run<T>(s: seq<T>, n: nat): (run: seq<T>)
    requires 0 < n < |s|
    ensures |run| == n && forall k {:trigger run[k]} :: 0 <= k < n ==> run[k] == s[k + 1]
  {
    s[1..n + 1]
  }

  ghost function Rest<T>(s: seq<T>, n: nat): (t: seq<T>)
    requires 0 < n < |s|
    ensures |t| == |s| - n && t[0] == s[0]
    ensures forall k {:trigger t[k]} :: 0 < k < |t| ==> t[k] == s[k + n]
  {
    [s[0]] + s[n + 1..]
  }
}
