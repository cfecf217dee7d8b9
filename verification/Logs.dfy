/** A sender's log: every packet it ever registered, in order. The log cuts the
    sequence space into adjacent pieces; windows and channels hold its pieces. */
module Logs {
  import opened Packets

  /** Where packet `k` of the log starts, and packet `k - 1` ends. */
  function Edge(iss: nat, log: seq<Packet>, k: nat): nat
    requires k <= |log|
  {
    if k == 0 then iss else log[k - 1].seqNum + log[k - 1].size
  }

  ghost predicate SeqLog(iss: nat, log: seq<Packet>) {
    && (forall k {:trigger Edge(iss, log, k)} :: 0 <= k < |log| ==> log[k].seqNum == Edge(iss, log, k) && log[k].size > 0)
    && Edge(iss, log, |log|) < U32
  }

  lemma {:induction false} EdgeOrder(iss: nat, log: seq<Packet>, j: nat, k: nat)
    requires SeqLog(iss, log) && j < k <= |log|
    ensures Edge(iss, log, j) < Edge(iss, log, k)
    ensures Edge(iss, log, j) == log[j].seqNum
    ensures log[j].seqNum + log[j].size <= Edge(iss, log, k)
  {
    assert log[j].seqNum == Edge(iss, log, j);
    if j < k - 1 {
      EdgeOrder(iss, log, j, k - 1);
      assert log[k - 1].seqNum == Edge(iss, log, k - 1);
    }
  }

  /** Packets of a log are told apart by their sequence numbers alone. */
  lemma LogUnique(iss: nat, log: seq<Packet>, p: Packet, q: Packet)
    requires SeqLog(iss, log) && p in log && q in log
    ensures p.seqNum == q.seqNum ==> p == q
    ensures p.seqNum < q.seqNum ==> p.seqNum + p.size <= q.seqNum
    ensures p.seqNum + p.size < U32
    ensures p.size > 0
  {
    var j :| 0 <= j < |log| && log[j] == p;
    var k :| 0 <= k < |log| && log[k] == q;
    EdgeOrder(iss, log, j, |log|);
    EdgeOrder(iss, log, k, |log|);
    if j < k { EdgeOrder(iss, log, j, k); }
    if k < j { EdgeOrder(iss, log, k, j); }
  }

  /** The packet that starts at edge `k` is packet `k`. */
  lemma LogAtEdge(iss: nat, log: seq<Packet>, p: Packet, k: nat)
    requires SeqLog(iss, log) && p in log && k <= |log| && p.seqNum == Edge(iss, log, k)
    ensures k < |log| && log[k] == p
  {
    var j :| 0 <= j < |log| && log[j] == p;
    if j < k { EdgeOrder(iss, log, j, k); }
    if k < j { EdgeOrder(iss, log, k, j); }
    EdgeOrder(iss, log, j, |log|);
  }
}
