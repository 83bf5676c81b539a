/** `removeExplicitDependencies`: dropping barrier dependencies that the queues enforce anyway. */
module ExplicitDependencies {
  import opened TaskGraph
  import opened Barriers
  import opened BarrierEdits
  import opened OptimizeBarriers
  import opened Wrappers

  /** All tasks of `s` are on queue `q`, which is tracked, and none is a sync point. */
  ghost predicate OnQueue(bi: BarrierInfo, s: set<nat>, q: nat)
  {
    s != {} && q in bi.trackedQueues && forall t :: t in s ==> t < |bi.queue| && bi.queue[t] == q && !bi.IsSyncPoint(t)
  }

  /** The tasks of `s` on queue `q` that are not sync points. */
  function Movable(bi: BarrierInfo, s: set<nat>, q: nat): set<nat>
  {
    set t | t in s && t < |bi.queue| && bi.queue[t] == q && !bi.IsSyncPoint(t)
  }

  method SameQueue(bi: BarrierInfo, s: set<nat>) returns (r: Option<nat>)
    requires forall t :: t in s ==> t < |bi.queue|
    ensures r.Some? ==> OnQueue(bi, s, r.value)
    ensures r.None? ==> forall q :: !OnQueue(bi, s, q)
  {
    if s == {} {
      return None;
    }
    var first :| first in s;
    var q := bi.queue[first];
    if q !in bi.trackedQueues {
      return None;
    }
    if t :| t in s && (bi.queue[t] != q || bi.IsSyncPoint(t)) {
      return None;
    }
    return Some(q);
  }

  /** No side that lives on a single queue depends on that queue any more. */
  ghost predicate Reduced(bi: BarrierInfo, p: set<nat>, c: set<nat>)
  {
    && (forall q :: OnQueue(bi, p, q) ==> Movable(bi, c, q) == {})
    && (forall q :: OnQueue(bi, c, q) ==> Movable(bi, p, q) == {})
  }

  /** The barrier keeps all its edges up to those inside a queue. */
  ghost predicate Implied(bi: BarrierInfo, p0: set<nat>, c0: set<nat>, p: set<nat>, c: set<nat>)
  {
    && p <= p0 && c <= c0
    && forall x, y :: x in p0 && y in c0 && !(x in p && y in c) ==>
         x < |bi.queue| && y < |bi.queue| && bi.queue[x] == bi.queue[y] && bi.queue[x] in bi.trackedQueues
  }

  ghost predicate HasSyncPoint(bi: BarrierInfo, s: set<nat>)
  {
    exists t :: t in s && bi.IsSyncPoint(t)
  }

  /** Simplifies one barrier. The consistency check fails only if the barrier had no consumers but a sync point as
      producer. */
  method ReduceBarrier(bi: BarrierInfo, b: nat) returns (ok: bool)
    requires bi.Valid() && b < |bi.producers|
    modifies bi`producers, bi`consumers, bi`updates, bi`waits
    ensures bi.Valid()
    ensures bi.producers == old(bi.producers)[b := bi.producers[b]]
    ensures bi.consumers == old(bi.consumers)[b := bi.consumers[b]]
    ensures Implied(bi, old(bi.producers[b]), old(bi.consumers[b]), bi.producers[b], bi.consumers[b])
    ensures Reduced(bi, bi.producers[b], bi.consumers[b])
    ensures ok <==> (bi.producers[b] == {} <==> bi.consumers[b] == {})
    ensures old(bi.producers[b]) != {} ==>
              (ok <==> !(old(bi.consumers[b]) == {} && HasSyncPoint(bi, old(bi.producers[b]))))
  {
    var p0, c0 := bi.producers[b], bi.consumers[b];
    var q := SameQueue(bi, p0);
    if q.Some? {
      bi.RemoveConsumers(b, Movable(bi, c0, q.value));
    }
    var c1 := bi.consumers[b];
    var q' := SameQueue(bi, c1);
    if c1 == {} {
      bi.RemoveProducers(b, (set t | t in p0 && !bi.IsSyncPoint(t)));
    } else if q'.Some? {
      bi.RemoveProducers(b, Movable(bi, p0, q'.value));
    }
    Reduction(bi, p0, c0, c1, bi.producers[b]);
    ok := bi.producers[b] == {} <==> bi.consumers[b] == {};
  }

  /** The two halves of the simplification, `c` after the first and `p` after the second. */
  lemma Reduction(bi: BarrierInfo, p0: set<nat>, c0: set<nat>, c: set<nat>, p: set<nat>)
    requires forall t :: t in p0 || t in c0 ==> t < |bi.queue|
    requires (exists q :: OnQueue(bi, p0, q) && c == c0 - Movable(bi, c0, q)) ||
             (c == c0 && forall q :: !OnQueue(bi, p0, q))
    requires if c == {} then p == p0 - (set t | t in p0 && !bi.IsSyncPoint(t))
             else (exists q :: OnQueue(bi, c, q) && p == p0 - Movable(bi, p0, q)) || (p == p0 && forall q ::
               !OnQueue(bi, c, q))
    ensures Implied(bi, p0, c0, p, c) && Reduced(bi, p, c)
    ensures p0 != {} ==> ((p == {} <==> c == {}) <==> !(c0 == {} && HasSyncPoint(bi, p0)))
  {
    if q :| OnQueue(bi, p0, q) && c == c0 - Movable(bi, c0, q) {
      OneQueue(bi, p0, c0, c, p, q);
    } else {
      NoQueue(bi, p0, c, p);
    }
  }

  lemma NoQueue(bi: BarrierInfo, p0: set<nat>, c: set<nat>, p: set<nat>)
    requires forall t :: t in p0 || t in c ==> t < |bi.queue|
    requires forall q :: !OnQueue(bi, p0, q)
    requires if c == {} then p == p0 - (set t | t in p0 && !bi.IsSyncPoint(t))
             else (exists q :: OnQueue(bi, c, q) && p == p0 - Movable(bi, p0, q)) || (p == p0 && forall q ::
               !OnQueue(bi, c, q))
    ensures Implied(bi, p0, c, p, c) && Reduced(bi, p, c)
    ensures p0 != {} ==> ((p == {} <==> c == {}) <==> !(c == {} && HasSyncPoint(bi, p0)))
  {
    if c == {} {
      assert forall t :: t in p <==> t in p0 && bi.IsSyncPoint(t);
    } else if q :| OnQueue(bi, c, q) && p == p0 - Movable(bi, p0, q) {
      assert forall x :: x in p ==> x in p0 && x !in Movable(bi, p0, q);
      assert p0 == p + Movable(bi, p0, q);
      if p == {} && p0 != {} {
        assert OnQueue(bi, p0, q);
      }
    }
  }

  lemma OneQueue(bi: BarrierInfo, p0: set<nat>, c0: set<nat>, c: set<nat>, p: set<nat>, q: nat)
    requires forall t :: t in p0 || t in c0 ==> t < |bi.queue|
    requires OnQueue(bi, p0, q) && c == c0 - Movable(bi, c0, q)
    requires if c == {} then p == p0 - (set t | t in p0 && !bi.IsSyncPoint(t))
             else (exists q :: OnQueue(bi, c, q) && p == p0 - Movable(bi, p0, q)) || (p == p0 && forall q ::
               !OnQueue(bi, c, q))
    ensures Implied(bi, p0, c0, p, c) && Reduced(bi, p, c)
    ensures (p == {} <==> c == {}) && !HasSyncPoint(bi, p0)
  {
  }

  //
  // All barriers
  //

  /** Removing edges inside queues leaves barriers plus queue order as it was. */
  lemma ImpliedOrder(bi: BarrierInfo, p0: IndexSets, c0: IndexSets, p: IndexSets, c: IndexSets)
    requires bi.ValidConfig() && |p0| == |c0| == |p| == |c| && Forward(BarrierEdges(p0, c0))
    requires forall b :: 0 <= b < |p0| ==> Implied(bi, p0[b], c0[b], p[b], c[b])
    ensures BarrierEdges(p, c) + QueueEdges(bi.queue, bi.Tracked()) ==
            BarrierEdges(p0, c0) + QueueEdges(bi.queue, bi.Tracked())
    ensures BarrierEdges(p, c) <= BarrierEdges(p0, c0)
  {
  }

  /** A barrier that the consistency check rejects. */
  ghost predicate Rejected(bi: BarrierInfo, p: set<nat>, c: set<nat>)
  {
    c == {} && HasSyncPoint(bi, p)
  }

  ghost predicate Settled(bi: BarrierInfo, p0: set<nat>, c0: set<nat>, p: set<nat>, c: set<nat>)
  {
    Reduced(bi, p, c) && (p == {} <==> c == {}) && !Rejected(bi, p0, c0)
  }

  /** Barriers in terms of their original users: untouched or simplified. */
  ghost predicate Progress(bi: BarrierInfo, p0: IndexSets, c0: IndexSets, p: IndexSets, c: IndexSets)
  {
    && |p0| == |c0| == |p| == |c|
    && (forall b :: 0 <= b < |p0| ==> Implied(bi, p0[b], c0[b], p[b], c[b]))
    && (forall b :: 0 <= b < |p0| ==> (p[b] == p0[b] && c[b] == c0[b]) || Settled(bi, p0[b], c0[b], p[b], c[b]))
  }

  lemma ProgressStep(bi: BarrierInfo, p0: IndexSets, c0: IndexSets, p: IndexSets, c: IndexSets, b: nat, x: set<nat>,
                     y: set<nat>)
    requires Progress(bi, p0, c0, p, c) && b < |p| && Implied(bi, p[b], c[b], x, y) && Reduced(bi, x, y) && p[b] != {}
    requires (x == {} <==> y == {}) && !Rejected(bi, p[b], c[b])
    ensures Progress(bi, p0, c0, p[b := x], c[b := y])
  {
  }

  /** Barriers change only by being settled, and a barrier with producers in the block is. */
  ghost predicate BlockReduced(bi: BarrierInfo, p0: IndexSets, c0: IndexSets, u: IndexSets, p: IndexSets, c: IndexSets,
                               p': IndexSets, c': IndexSets, k: nat)
    requires bi.ValidConfig() && |u| == bi.numTasks && k < bi.BlockCount()
    requires |p0| == |c0| == |p| == |c| == |p'| == |c'|
  {
    && (forall b :: 0 <= b < |p| ==> (p'[b] == p[b] && c'[b] == c[b]) || Settled(bi, p0[b], c0[b], p'[b], c'[b]))
    && (forall b :: 0 <= b < |p| && UsedBy(u, bi.BlockLo(k), bi.BlockLast(k), b) ==>
         Settled(bi, p0[b], c0[b], p'[b], c'[b]))
  }

  method ReduceBlock(bi: BarrierInfo, k: nat, ghost p0: IndexSets, ghost c0: IndexSets) returns (ok: bool)
    requires bi.Valid() && k < bi.BlockCount() && Progress(bi, p0, c0, bi.producers, bi.consumers)
    modifies bi`producers, bi`consumers, bi`updates, bi`waits
    ensures bi.Valid() && (ok ==> Progress(bi, p0, c0, bi.producers, bi.consumers))
    ensures ok ==>
              BlockReduced(bi, p0, c0, old(bi.updates), old(bi.producers), old(bi.consumers),
                           bi.producers, bi.consumers, k)
    ensures !ok ==> exists b :: 0 <= b < |p0| && Rejected(bi, p0[b], c0[b])
  {
    var bars := BarriersOf(bi.updates, bi.BlockLo(k), bi.BlockLast(k), |bi.producers|);
    ghost var p1, c1, u1 := bi.producers, bi.consumers, bi.updates;
    var i := 0;
    while i < |bars|
      invariant i <= |bars| && bi.Valid() && Progress(bi, p0, c0, bi.producers, bi.consumers)
      invariant forall j :: i <= j < |bars| ==>
                  bi.producers[bars[j]] == p1[bars[j]] && bi.consumers[bars[j]] == c1[bars[j]]
      invariant forall j :: 0 <= j < i ==>
                  Settled(bi, p0[bars[j]], c0[bars[j]], bi.producers[bars[j]], bi.consumers[bars[j]])
      invariant forall b :: 0 <= b < |p1| ==>
                  (bi.producers[b] == p1[b] && bi.consumers[b] == c1[b]) ||
                  Settled(bi, p0[b], c0[b], bi.producers[b], bi.consumers[b])
    {
      var b := bars[i];
      ghost var p2, c2 := bi.producers, bi.consumers;
      assert UsedBy(u1, bi.BlockLo(k), bi.BlockLast(k), b);
      assert p2[b] != {};
      ok := ReduceBarrier(bi, b);
      if !ok {
        assert Rejected(bi, p2[b], c2[b]);
        return;
      }
      ProgressStep(bi, p0, c0, p2, c2, b, bi.producers[b], bi.consumers[b]);
      i := i + 1;
    }
    ok := true;
  }

  /** Every barrier with a producer in the first `k` blocks is settled. */
  ghost predicate SettledBelow(bi: BarrierInfo, p0: IndexSets, c0: IndexSets, u0: IndexSets, p: IndexSets, c: IndexSets,
                               k: nat)
    requires bi.ValidConfig() && |u0| == bi.numTasks && k <= bi.BlockCount() && |p0| == |c0| == |p| == |c|
  {
    forall b, j :: 0 <= b < |p0| && 0 <= j < k && UsedBy(u0, bi.BlockLo(j), bi.BlockLast(j), b) ==>
      Settled(bi, p0[b], c0[b], p[b], c[b])
  }

  lemma SettledStep(bi: BarrierInfo, p0: IndexSets, c0: IndexSets, u0: IndexSets, p: IndexSets, c: IndexSets,
                    u: IndexSets, p': IndexSets, c': IndexSets, k: nat)
    requires bi.ValidConfig() && |u0| == |u| == bi.numTasks && k < bi.BlockCount() && |p'| == |c'| == |p0|
    requires Progress(bi, p0, c0, p, c) && SettledBelow(bi, p0, c0, u0, p, c, k)
    requires BlockReduced(bi, p0, c0, u, p, c, p', c', k)
    requires Inverse(u0, p0) && Inverse(u, p)
    ensures SettledBelow(bi, p0, c0, u0, p', c', k + 1)
  {
  }

  /** Every task is in the range of some block. */
  lemma SomeBlock(bi: BarrierInfo, t: nat, k: nat)
    requires bi.ValidConfig() && t < bi.numTasks && k < bi.BlockCount() && bi.BlockLo(k) <= t
    ensures exists j :: k <= j < bi.BlockCount() && bi.BlockLo(j) <= t <= bi.BlockLast(j)
    decreases bi.BlockCount() - k
  {
    if bi.BlockLast(k) < t {
      SomeBlock(bi, t, k + 1);
    }
  }

  lemma AllSettled(bi: BarrierInfo, p0: IndexSets, c0: IndexSets, u0: IndexSets, p: IndexSets, c: IndexSets, b: nat)
    requires bi.ValidConfig() && |u0| == bi.numTasks && Progress(bi, p0, c0, p, c) && Inverse(u0, p0)
    requires SettledBelow(bi, p0, c0, u0, p, c, bi.BlockCount()) && b < |p0|
    ensures Reduced(bi, p[b], c[b]) && !Rejected(bi, p0[b], c0[b]) && (p0[b] != {} ==> (p[b] == {} <==> c[b] == {}))
  {
    if p0[b] != {} {
      var t :| t in p0[b];
      SomeBlock(bi, t, 0);
      var j :| 0 <= j < bi.BlockCount() && bi.BlockLo(j) <= t <= bi.BlockLast(j);
      assert b in u0[t];
      assert UsedBy(u0, bi.BlockLo(j), bi.BlockLast(j), b);
    }
  }

  /** The runs stay the same, and afterwards no barrier side on a single queue depends on that queue. The consistency
      check fails exactly when some barrier starts out with a sync point as producer and no consumer. */
  method RemoveExplicit(bi: BarrierInfo) returns (ok: bool)
    requires bi.Valid() && Forward(bi.Graph()) && bi.trackedQueues != []
    modifies bi`producers, bi`consumers, bi`updates, bi`waits
    ensures bi.Valid()
    ensures ok <==> forall b :: 0 <= b < old(|bi.producers|) ==>
              !Rejected(bi, old(bi.producers)[b], old(bi.consumers)[b])
    ensures ok ==> bi.Graph() <= old(bi.Graph()) && bi.Order() == old(bi.Order())
    ensures ok ==> SameRuns(old(bi.Order()), bi.Order(), bi.numTasks)
    ensures ok ==> |bi.producers| == old(|bi.producers|) && forall b :: 0 <= b < |bi.producers| ==>
                     Reduced(bi, bi.producers[b], bi.consumers[b])
                     && (old(bi.producers)[b] != {} ==> (bi.producers[b] == {} <==> bi.consumers[b] == {}))
  {
    ghost var p0, c0, u0 := bi.producers, bi.consumers, bi.updates;
    var k := 0;
    while k < bi.BlockCount()
      invariant k <= bi.BlockCount() && bi.Valid() && Progress(bi, p0, c0, bi.producers, bi.consumers)
      invariant SettledBelow(bi, p0, c0, u0, bi.producers, bi.consumers, k)
    {
      ghost var p1, c1, u1 := bi.producers, bi.consumers, bi.updates;
      ok := ReduceBlock(bi, k, p0, c0);
      if !ok {
        return;
      }
      SettledStep(bi, p0, c0, u0, p1, c1, u1, bi.producers, bi.consumers, k);
      k := k + 1;
    }
    ok := true;
    forall b | 0 <= b < |p0|
      ensures Reduced(bi, bi.producers[b], bi.consumers[b]) && !Rejected(bi, p0[b], c0[b])
      ensures p0[b] != {} ==> (bi.producers[b] == {} <==> bi.consumers[b] == {})
    {
      AllSettled(bi, p0, c0, u0, bi.producers, bi.consumers, b);
    }
    ImpliedOrder(bi, p0, c0, bi.producers, bi.consumers);
  }
}
