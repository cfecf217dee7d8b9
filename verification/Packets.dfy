/** Packets as the two TCP endpoints exchange them, and the fixed-width
    arithmetic of their header fields. */
module Packets {

  newtype byte = x: int | 0 <= x < 256

  /** Number of values of a `uint32` sequence number and of a `uint16` window. */
  const U32: nat := 0x1_0000_0000
  const U16: nat := 0x1_0000

  type uint32 = x: nat | x < U32

  /** The value an integer takes when it is stored in a `uint32`. */
  function Wrap(x: int): (r: nat)
    ensures r < U32
    ensures 0 <= x < U32 ==> r == x
    ensures U32 <= x < 2 * U32 ==> r == x - U32
  {
    if 0 <= x < U32 then x else x % U32
  }

  /** Header and payload of one packet. `size` is the sequence space it takes,
      which for SYN and FIN is one although they carry no bytes. */
  datatype Packet = Packet(
    seqNum: nat,
    ackNum: nat,
    window: nat,
    sync: bool,
    ack: bool,
    fin: bool,
    size: nat,
    payload: seq<byte>)

  /** The sequence number after a packet. */
  function End(p: Packet): nat {
    Wrap(p.seqNum + p.size)
  }

  function MakeDataPacket(seqNum: nat, data: seq<byte>): Packet {
    Packet(seqNum, 0, 0, false, false, false, |data|, data)
  }

  function MakeAckPacket(ackNum: nat, freeSpace: nat): Packet {
    Packet(0, ackNum, freeSpace % U16, false, true, false, 0, [])
  }

  function MakeSyncPacket(seqNum: nat, freeSpace: nat): Packet {
    Packet(seqNum, 0, freeSpace % U16, true, false, false, 1, [])
  }

  function MakeFinPacket(seqNum: nat): Packet {
    Packet(seqNum, 0, 0, false, false, true, 1, [])
  }

  /** An acknowledgement that is not also a SYN. */
  predicate PureAck(p: Packet) {
    p.ack && !p.sync
  }

  /** Total sequence space of a list of packets. */
  function TotalSize(pkts: seq<Packet>): nat {
    if pkts == [] then 0 else pkts[0].size + TotalSize(pkts[1..])
  }

  lemma {:induction false} TotalSizeAppend(a: seq<Packet>, b: seq<Packet>)
    ensures TotalSize(a + b) == TotalSize(a) + TotalSize(b)
  {
    if a == [] {
      assert a + b == b;
    } else {
      assert (a + b)[1..] == a[1..] + b;
      TotalSizeAppend(a[1..], b);
    }
  }

  /** The bytes carried by a list of packets, in order. */
  function Bytes(pkts: seq<Packet>): seq<byte> {
    if pkts == [] then [] else pkts[0].payload + Bytes(pkts[1..])
  }

  lemma {:induction false} BytesAppend(a: seq<Packet>, b: seq<Packet>)
    ensures Bytes(a + b) == Bytes(a) + Bytes(b)
  {
    if a == [] {
      assert a + b == b;
    } else {
      assert (a + b)[1..] == a[1..] + b;
      BytesAppend(a[1..], b);
    }
  }

  // ---------------------------------------------------------------------------
  // Facts about sequences, stated for any element type: comparing packets as
  // wholes is cheaper than comparing them field by field

  ghost predicate Same<T>(a: T, b: T) {
    a == b
  }

  /** A fact stated for every `k` with `Unseal(k)` is under seal: only a mention
      of `Unseal` lets a proof look inside. */
  predicate Unseal(k: nat) {
    true
  }

  lemma HeadIn<T>(s: seq<T>)
    ensures s == [] || s[0] in s
  {
  }

  lemma Regroup<T>(a: seq<T>, b: seq<T>, c: seq<T>)
    ensures (a + b) + c == a + (b + c)
  {
  }

  /** `chain` is the stretch of `log` that starts at index `m`. */
  ghost predicate IsStretch<T>(chain: seq<T>, log: seq<T>, m: nat) {
    m + |chain| <= |log| && forall k {:trigger chain[k]} :: 0 <= k < |chain| ==> chain[k] == log[m + k]
  }

  lemma StretchIsSlice<T>(chain: seq<T>, log: seq<T>, m: nat)
    requires IsStretch(chain, log, m)
    ensures chain == log[m..m + |chain|]
    ensures log[..m] + chain == log[..m + |chain|]
  {
  }

  lemma StretchMore<T>(list: seq<T>, log: seq<T>, m: nat, i: nat)
    requires i < |list| && m + i < |log| && IsStretch(list[..i], log, m) && Same(list[i], log[m + i])
    ensures IsStretch(list[..i + 1], log, m)
  {
    assert list[..i + 1] == list[..i] + [list[i]];
  }

  /** The elements of `after` are those of `before` and `p`. */
  ghost predicate Adds<T(!new)>(after: seq<T>, before: seq<T>, p: T) {
    forall q :: q in after <==> q in before || q == p
  }

  lemma SplitAdds<T(!new)>(s: seq<T>, n: nat, p: T)
    requires n <= 1 + |s|
    ensures var l := [p] + s; Adds(l[..n] + l[n..], s, p)
  {
    var l := [p] + s;
    assert l[..n] + l[n..] == l;
  }

  lemma InsertAdds<T(!new)>(s: seq<T>, i: nat, p: T)
    requires i <= |s|
    ensures Adds(s[..i] + [p] + s[i..], s, p)
  {
    assert s == s[..i] + s[i..];
  }
}
