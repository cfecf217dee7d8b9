/** The way a packet takes from one controller to the other: a chain of FIFO
    queues, emptied batch by batch into the next one, with one lossy hop. */
module Pipeline {
  import opened Packets
  import opened Network

  /** What is left of a batch when the dice say which packets to keep. */
  function Survivors<T>(batch: seq<T>, keep: seq<bool>): seq<T>
    requires |keep| == |batch|
  {
    if batch == [] then []
    else (if keep[0] then [batch[0]] else []) + Survivors(batch[1..], keep[1..])
  }

  /** `a` is `b` with some elements left out, the others in the same order. */
  ghost predicate Subsequence<T>(a: seq<T>, b: seq<T>)
    decreases |b|
  {
    if b == [] then a == []
    else (a != [] && a[0] == b[0] && Subsequence(a[1..], b[1..])) || Subsequence(a, b[1..])
  }

  lemma {:induction false} SubsequenceRefl<T>(a: seq<T>)
    ensures Subsequence(a, a)
  {
    if a != [] { SubsequenceRefl(a[1..]); }
  }

  lemma {:induction false} SubsequenceTrans<T>(a: seq<T>, b: seq<T>, c: seq<T>)
    requires Subsequence(a, b) && Subsequence(b, c)
    ensures Subsequence(a, c)
    decreases |c|
  {
    if c != [] {
      if b != [] && b[0] == c[0] && Subsequence(b[1..], c[1..]) {
        if a != [] && a[0] == b[0] && Subsequence(a[1..], b[1..]) {
          SubsequenceTrans(a[1..], b[1..], c[1..]);
        } else {
          SubsequenceTrans(a, b[1..], c[1..]);
        }
      } else {
        SubsequenceTrans(a, b, c[1..]);
      }
    }
  }

  lemma {:induction false} SubsequenceAppend<T>(a: seq<T>, b: seq<T>, c: seq<T>, d: seq<T>)
    requires Subsequence(a, b) && Subsequence(c, d)
    ensures Subsequence(a + c, b + d)
    decreases |b|
  {
    if b == [] {
      assert a + c == c && b + d == d;
    } else {
      assert (b + d)[1..] == b[1..] + d;
      if a != [] && a[0] == b[0] && Subsequence(a[1..], b[1..]) {
        SubsequenceAppend(a[1..], b[1..], c, d);
        assert (a + c)[1..] == a[1..] + c;
      } else {
        SubsequenceAppend(a, b[1..], c, d);
      }
    }
  }

  lemma {:induction false} SurvivorsSubsequence<T>(batch: seq<T>, keep: seq<bool>)
    requires |keep| == |batch|
    ensures Subsequence(Survivors(batch, keep), batch)
  {
    if batch != [] {
      SurvivorsSubsequence(batch[1..], keep[1..]);
      var rest := Survivors(batch[1..], keep[1..]);
      assert ([batch[0]] + rest)[1..] == rest;
      assert [] + rest == rest;
    }
  }

  /** How many of the dice keep their packet. */
  function Kept(keep: seq<bool>): nat {
    if keep == [] then 0 else (if keep[0] then 1 else 0) + Kept(keep[1..])
  }

  /** By position: a kept packet comes after as many packets as are kept before it,
      and there are no others. */
  lemma {:induction false} SurvivorsExact<T>(batch: seq<T>, keep: seq<bool>)
    requires |keep| == |batch|
    ensures |Survivors(batch, keep)| == Kept(keep)
    ensures forall i :: 0 <= i < |batch| && keep[i] ==>
              Kept(keep[..i]) < Kept(keep) && Survivors(batch, keep)[Kept(keep[..i])] == batch[i]
  {
    if batch != [] {
      var rest := Survivors(batch[1..], keep[1..]);
      SurvivorsExact(batch[1..], keep[1..]);
      forall i | 0 <= i < |batch| && keep[i]
        ensures Kept(keep[..i]) < Kept(keep) && Survivors(batch, keep)[Kept(keep[..i])] == batch[i]
      {
        if i > 0 {
          assert keep[1..][i - 1] && keep[..i][1..] == keep[1..][..i - 1];
          assert rest[Kept(keep[1..][..i - 1])] == batch[i];
        }
      }
    }
  }

  /** The batch `batch` went to the end of a queue that held `before`, but for what
      the dice drop. */
  ghost predicate Joined<T>(after: seq<T>, before: seq<T>, batch: seq<T>, keep: seq<bool>)
    requires |keep| == |batch|
  {
    && before <= after && |after| == |before| + Kept(keep)
    && forall i :: 0 <= i < |batch| && keep[i] ==>
         Kept(keep[..i]) < Kept(keep) && after[|before| + Kept(keep[..i])] == batch[i]
  }

  lemma SurvivorsJoin<T>(before: seq<T>, batch: seq<T>, keep: seq<bool>)
    requires |keep| == |batch|
    ensures Joined(before + Survivors(batch, keep), before, batch, keep)
  {
    SurvivorsExact(batch, keep);
  }

  /** A hop without loss. */
  lemma {:induction false} AllSurvive<T>(batch: seq<T>, keep: seq<bool>)
    requires |keep| == |batch| && forall i :: 0 <= i < |keep| ==> keep[i]
    ensures Survivors(batch, keep) == batch
  {
    if batch != [] {
      AllSurvive(batch[1..], keep[1..]);
    }
  }

  // ---------------------------------------------------------------------------
  // Runs of the pipeline

  /** Stage 0 is next to the receiver. `Move` empties stage `i + 1` into stage `i`
      and loses what the dice say; `Take` hands the receiver one packet. */
  datatype Action<T> = Enqueue(x: T) | Move(i: nat, keep: seq<bool>) | Take

  datatype Pipe<T> = Pipe(stages: seq<seq<T>>, pushed: seq<T>, taken: seq<T>)

  function Flat<T>(stages: seq<seq<T>>): seq<T> {
    if stages == [] then [] else stages[0] + Flat(stages[1..])
  }

  predicate Can<T>(p: Pipe<T>, a: Action<T>) {
    p.stages != [] &&
    match a
    case Enqueue(_) => true
    case Move(i, keep) => i + 1 < |p.stages| && |keep| == |p.stages[i + 1]|
    case Take => p.stages[0] != []
  }

  function Do<T>(p: Pipe<T>, a: Action<T>): Pipe<T>
    requires Can(p, a)
  {
    var n := |p.stages| - 1;
    match a
    case Enqueue(x) => p.(stages := p.stages[n := p.stages[n] + [x]], pushed := p.pushed + [x])
    case Move(i, keep) =>
      p.(stages := p.stages[i := p.stages[i] + Survivors(p.stages[i + 1], keep)][i + 1 := []])
    case Take =>
      p.(stages := p.stages[0 := p.stages[0][1..]], taken := p.taken + [p.stages[0][0]])
  }

  predicate Runs<T>(p: Pipe<T>, actions: seq<Action<T>>)
    decreases |actions|
  {
    actions == [] || (Can(p, actions[0]) && Runs(Do(p, actions[0]), actions[1..]))
  }

  function Final<T>(p: Pipe<T>, actions: seq<Action<T>>): Pipe<T>
    requires Runs(p, actions)
    decreases |actions|
  {
    if actions == [] then p else Final(Do(p, actions[0]), actions[1..])
  }

  lemma {:induction false} FlatConcat<T>(a: seq<seq<T>>, b: seq<seq<T>>)
    ensures Flat(a + b) == Flat(a) + Flat(b)
  {
    if a == [] {
      assert a + b == b;
    } else {
      FlatConcat(a[1..], b);
      assert (a + b)[1..] == a[1..] + b;
    }
  }

  lemma FlatOne<T>(s: seq<T>)
    ensures Flat([s]) == s
  {
    assert [s][1..] == [];
  }

  /** Around stage `i`. */
  lemma FlatAt<T>(l: seq<seq<T>>, s: seq<T>, r: seq<seq<T>>)
    ensures Flat(l + [s] + r) == Flat(l) + s + Flat(r)
  {
    FlatConcat(l + [s], r);
    FlatConcat(l, [s]);
    FlatOne(s);
  }

  lemma FlatPair<T>(l: seq<seq<T>>, s: seq<T>, t: seq<T>, r: seq<seq<T>>)
    ensures Flat(l + [s] + [t] + r) == Flat(l) + s + t + Flat(r)
  {
    FlatAt(l + [s], t, r);
    FlatConcat(l, [s]);
    FlatOne(s);
  }

  /** What is in flight, read from the receiver's end, is one queue: pushing
      appends to it. */
  lemma EnqueueFlat<T>(p: Pipe<T>, x: T)
    requires Can(p, Enqueue(x))
    ensures Flat(Do(p, Enqueue(x)).stages) == Flat(p.stages) + [x]
  {
    var n := |p.stages| - 1;
    var s, l := p.stages[n], p.stages[..n];
    assert p.stages == l + [s] + [] && Do(p, Enqueue(x)).stages == l + [s + [x]] + [];
    FlatAt(l, s, []);
    FlatAt(l, s + [x], []);
  }

  /** Taking removes its front. */
  lemma TakeFlat<T>(p: Pipe<T>)
    requires Can(p, Take)
    ensures Flat(p.stages) == [p.stages[0][0]] + Flat(Do(p, Take).stages)
  {
    var s, r := p.stages[0], p.stages[1..];
    assert p.stages == [] + [s] + r && Do(p, Take).stages == [] + [s[1..]] + r;
    FlatAt([], s, r);
    FlatAt([], s[1..], r);
    assert s == [s[0]] + s[1..];
  }

  /** Moving a batch on leaves out what the dice drop, and changes nothing else. */
  lemma MoveFlat<T>(p: Pipe<T>, i: nat, keep: seq<bool>) returns (l: seq<T>, r: seq<T>)
    requires Can(p, Move(i, keep))
    ensures Flat(p.stages) == l + p.stages[i + 1] + r
    ensures Flat(Do(p, Move(i, keep)).stages) == l + Survivors(p.stages[i + 1], keep) + r
  {
    var s, t, kept := p.stages[i], p.stages[i + 1], Survivors(p.stages[i + 1], keep);
    var low, high := p.stages[..i], p.stages[i + 2..];
    l, r := Flat(low) + s, Flat(high);
    assert p.stages == low + [s] + [t] + high;
    assert Do(p, Move(i, keep)).stages == low + [s + kept] + [[]] + high;
    FlatPair(low, s, t, high);
    FlatPair(low, s + kept, [], high);
    assert Flat(low) + (s + kept) + [] + Flat(high) == l + kept + r;
  }

  /** In every run, what the receiver took and what is still in flight is what was
      pushed with some packets left out: nothing is doubled, made up or reordered. */
  lemma {:induction false} PipelineKeepsOrder<T>(p: Pipe<T>, actions: seq<Action<T>>)
    requires Runs(p, actions) && Subsequence(p.taken + Flat(p.stages), p.pushed)
    ensures var q := Final(p, actions); Subsequence(q.taken + Flat(q.stages), q.pushed)
    decreases |actions|
  {
    if actions != [] {
      DoKeepsOrder(p, actions[0]);
      PipelineKeepsOrder(Do(p, actions[0]), actions[1..]);
    }
  }

  /** A step that loses nothing. */
  predicate Lossless<T>(a: Action<T>) {
    a.Move? ==> forall i :: 0 <= i < |a.keep| ==> a.keep[i]
  }

  /** In a run without loss, what the receiver took and what is still in flight is
      exactly what was pushed, in order. */
  lemma {:induction false} LosslessPipeline<T>(p: Pipe<T>, actions: seq<Action<T>>)
    requires Runs(p, actions) && p.taken + Flat(p.stages) == p.pushed
    requires forall i :: 0 <= i < |actions| ==> Lossless(actions[i])
    ensures var q := Final(p, actions); q.taken + Flat(q.stages) == q.pushed
    decreases |actions|
  {
    if actions != [] {
      LosslessStep(p, actions[0]);
      LosslessPipeline(Do(p, actions[0]), actions[1..]);
    }
  }

  lemma LosslessStep<T>(p: Pipe<T>, a: Action<T>)
    requires Can(p, a) && Lossless(a) && p.taken + Flat(p.stages) == p.pushed
    ensures var q := Do(p, a); q.taken + Flat(q.stages) == q.pushed
  {
    var f, q := Flat(p.stages), Do(p, a);
    match a
    case Enqueue(x) =>
      EnqueueFlat(p, x);
      assert q.taken + Flat(q.stages) == p.taken + f + [x];
    case Move(i, keep) =>
      var l, r := MoveFlat(p, i, keep);
      AllSurvive(p.stages[i + 1], keep);
    case Take =>
      TakeFlat(p);
      assert q.taken + Flat(q.stages) == p.taken + f;
  }

  lemma MoveKeepsOrder<T>(p: Pipe<T>, i: nat, keep: seq<bool>)
    requires Can(p, Move(i, keep)) && Subsequence(p.taken + Flat(p.stages), p.pushed)
    ensures Subsequence(p.taken + Flat(Do(p, Move(i, keep)).stages), p.pushed)
  {
    var l, r := MoveFlat(p, i, keep);
    SurvivorsSubsequence(p.stages[i + 1], keep);
    LeftOut(p.taken, l, Survivors(p.stages[i + 1], keep), p.stages[i + 1], r, p.pushed);
  }

  /** Leaving something out in the middle of a subsequence. */
  lemma LeftOut<T>(taken: seq<T>, l: seq<T>, a: seq<T>, b: seq<T>, r: seq<T>, pushed: seq<T>)
    requires Subsequence(a, b) && Subsequence(taken + (l + b + r), pushed)
    ensures Subsequence(taken + (l + a + r), pushed)
  {
    Around(taken + l, a, b, r);
    assert taken + (l + b + r) == taken + l + b + r;
    assert taken + (l + a + r) == taken + l + a + r;
    SubsequenceTrans(taken + l + a + r, taken + l + b + r, pushed);
  }

  lemma Around<T>(l: seq<T>, a: seq<T>, b: seq<T>, r: seq<T>)
    requires Subsequence(a, b)
    ensures Subsequence(l + a + r, l + b + r)
  {
    SubsequenceRefl(l);
    SubsequenceRefl(r);
    SubsequenceAppend(l, l, a, b);
    SubsequenceAppend(l + a, l + b, r, r);
  }

  lemma DoKeepsOrder<T>(p: Pipe<T>, a: Action<T>)
    requires Can(p, a) && Subsequence(p.taken + Flat(p.stages), p.pushed)
    ensures var q := Do(p, a); Subsequence(q.taken + Flat(q.stages), q.pushed)
  {
    var f, q := Flat(p.stages), Do(p, a);
    match a
    case Enqueue(x) =>
      EnqueueFlat(p, x);
      SubsequenceRefl([x]);
      SubsequenceAppend(p.taken + f, p.pushed, [x], [x]);
      assert q.taken + Flat(q.stages) == p.taken + f + [x];
    case Move(i, keep) =>
      MoveKeepsOrder(p, i, keep);
    case Take =>
      TakeFlat(p);
      assert q.taken + Flat(q.stages) == p.taken + f;
  }

  // ---------------------------------------------------------------------------
  // The pipeline is the channel of the transition system

  /** Losing the unlucky packets of a batch is a run of `Drop` steps. */
  lemma {:induction false} LossIsDrops(sys: System, x: Side, l: seq<Packet>, batch: seq<Packet>, keep: seq<bool>, r: seq<Packet>)
    returns (steps: seq<Step>)
    requires !sys.aborted && |keep| == |batch| && Self(sys, x).out == l + batch + r
    ensures forall k :: 0 <= k < |steps| ==> steps[k].Drop? && steps[k].from == x
    ensures IsRun(sys, steps)
    ensures After(sys, steps) == With(sys, x, Self(sys, x).(out := l + Survivors(batch, keep) + r))
    decreases |batch|
  {
    if batch == [] {
      steps := [];
      assert l + [] + r == l + r;
    } else if keep[0] {
      assert l + batch + r == (l + [batch[0]]) + batch[1..] + r;
      steps := LossIsDrops(sys, x, l + [batch[0]], batch[1..], keep[1..], r);
      var rest := Survivors(batch[1..], keep[1..]);
      assert l + ([batch[0]] + rest) + r == (l + [batch[0]]) + rest + r;
    } else {
      var drop := Drop(x, |l|);
      assert Without(l + batch + r, |l|) == l + batch[1..] + r;
      var rest := LossIsDrops(Lose(sys, x, |l|), x, l, batch[1..], keep[1..], r);
      steps := [drop] + rest;
      assert steps[1..] == rest;
      assert [] + Survivors(batch[1..], keep[1..]) == Survivors(batch[1..], keep[1..]);
    }
  }

  /** Moving a batch on in the pipeline of side `x` is a run of `Drop` steps on
      its channel; pushing and taking are the channel's own ends. */
  lemma MoveIsDrops(sys: System, x: Side, p: Pipe<Packet>, i: nat, keep: seq<bool>) returns (steps: seq<Step>)
    requires !sys.aborted && Can(p, Move(i, keep)) && Self(sys, x).out == Flat(p.stages)
    ensures forall k :: 0 <= k < |steps| ==> steps[k].Drop? && steps[k].from == x
    ensures IsRun(sys, steps)
    ensures After(sys, steps) == With(sys, x, Self(sys, x).(out := Flat(Do(p, Move(i, keep)).stages)))
  {
    var l, r := MoveFlat(p, i, keep);
    steps := LossIsDrops(sys, x, l, p.stages[i + 1], keep, r);
  }
}
