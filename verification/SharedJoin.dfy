/** Tasks join one side of a barrier, which becomes a chain of barriers if that side gets too large. */
module SharedJoin {
  import opened TaskGraph
  import opened Barriers
  import opened BarrierEdits
  import opened VariantBatches
  import opened BatchChains

  /** The barrier's two sides after tasks joined one of them. */
  function Left(p: set<nat>, tasks: set<nat>, waiting: bool): set<nat> { if waiting then p else p + tasks }

  function Right(c: set<nat>, tasks: set<nat>, waiting: bool): set<nat> { if waiting then c + tasks else c }

  /** The side that grows. */
  function Side(p: set<nat>, c: set<nat>, tasks: set<nat>, waiting: bool): set<nat>
  {
    if waiting then c + tasks else p + tasks
  }

  /** The chain that replaces a barrier whose larger side does not fit. */
  function Parts(p: set<nat>, c: set<nat>, batches: seq<set<nat>>, waiting: bool): seq<set<nat>>
  {
    if waiting then [p] + batches else batches + [c]
  }

  ghost predicate LegalBatching(slots: seq<nat>, batches: seq<set<nat>>, side: set<nat>, available: nat)
  {
    && batches != [] && RunsOf(batches, side) && LaterNonEmpty(batches) && PartsLegal(slots, batches, available)
    && (batches[0] != {} <==> FirstFits(slots, side, available))
    && (|batches| == 1 <==> SlotSum(slots, side, |slots|) <= available) && Maximal(slots, [], batches, available)
  }

  /** Barrier `b` of (p0, c0) gained the tasks, or gave way to a chain of the batches. */
  ghost predicate Joined(p0: IndexSets, c0: IndexSets, p: IndexSets, c: IndexSets, b: nat, tasks: set<nat>,
                         waiting: bool, batches: seq<set<nat>>)
  {
    && b < |p0| == |c0|
    && if |batches| == 1 then
         p == p0[b := Left(p0[b], tasks, waiting)] && c == c0[b := Right(c0[b], tasks, waiting)]
       else
         var parts := Parts(p0[b], c0[b], batches, waiting);
         && p == p0[b := {}] + LinkProducers(parts, |parts|)
         && c == c0[b := {}] + LinkConsumers(parts, |parts|)
  }

  /** One round of `linkTasksToBarriers` */
  method JoinBarrier(bi: BarrierInfo, b: nat, tasks: set<nat>, waiting: bool, available: nat)
    returns (ghost batches: seq<set<nat>>)
    requires bi.Valid() && bi.fifoDeps == [] && b < |bi.producers|
    requires tasks != {} && forall t :: t in tasks ==> t < bi.numTasks
    modifies bi`producers, bi`consumers, bi`updates, bi`waits, bi`opCount
    ensures bi.Valid()
    ensures LegalBatching(bi.slots, batches, Side(old(bi.producers)[b], old(bi.consumers)[b], tasks, waiting),
                          available)
    ensures Joined(old(bi.producers), old(bi.consumers), bi.producers, bi.consumers, b, tasks, waiting, batches)
  {
    var p, c := bi.producers[b], bi.consumers[b];
    var side := (if waiting then c else p) + tasks;
    var legal := CreateLegalBatches(bi, side, available, false);
    batches := legal;
    if |legal| > 1 {
      ReplaceBarrier(bi, b, Parts(p, c, legal, waiting));
    } else if waiting {
      bi.AddConsumers(b, tasks);
    } else {
      bi.AddProducers(b, tasks);
    }
  }

  method ReplaceBarrier(bi: BarrierInfo, b: nat, parts: seq<set<nat>>)
    requires bi.Valid() && bi.fifoDeps == [] && b < |bi.producers|
    requires forall i, t :: 0 <= i < |parts| && t in parts[i] ==> t < bi.numTasks
    modifies bi`producers, bi`consumers, bi`updates, bi`waits, bi`opCount
    ensures bi.Valid()
    ensures bi.producers == old(bi.producers)[b := {}] + LinkProducers(parts, |parts|)
    ensures bi.consumers == old(bi.consumers)[b := {}] + LinkConsumers(parts, |parts|)
  {
    AddLinks(bi, parts);
    bi.ResetBarrier(b);
  }

  //
  // Order
  //

  lemma PartsAscend(p: set<nat>, c: set<nat>, tasks: set<nat>, batches: seq<set<nat>>, waiting: bool)
    requires RunsOf(batches, Side(p, c, tasks, waiting)) && Before(Left(p, tasks, waiting), Right(c, tasks, waiting))
    ensures PartsAscending(Parts(p, c, batches, waiting))
  {
    var parts := Parts(p, c, batches, waiting);
    forall i, j | 0 <= i < j < |parts|
      ensures Before(parts[i], parts[j])
    {
      var side := Side(p, c, tasks, waiting);
      if waiting {
        assert parts[j] == batches[j - 1] <= side;
        if i > 0 { assert parts[i] == batches[i - 1]; }
      } else {
        assert parts[i] == batches[i] <= side;
        if j < |batches| { assert parts[j] == batches[j]; }
      }
    }
  }

  /** Barrier `b` with its larger side would lose a consumer: the chain starts with an empty batch. */
  ghost predicate Cuts(slots: seq<nat>, p: set<nat>, c: set<nat>, tasks: set<nat>, waiting: bool, available: nat)
  {
    waiting && p != {} && c != {} && !FirstFits(slots, c + tasks, available)
  }

  /** The chain keeps all order between the two sides of the barrier exactly if it does not start with an empty batch
      behind some producer. */
  lemma ChainKeepsBarrier(slots: seq<nat>, p: set<nat>, c: set<nat>, tasks: set<nat>, batches: seq<set<nat>>,
                          waiting: bool, available: nat)
    requires LegalBatching(slots, batches, Side(p, c, tasks, waiting), available)
    requires Before(Left(p, tasks, waiting), Right(c, tasks, waiting))
    ensures (forall x, y :: x in p && y in c ==> Reach(Chain(Parts(p, c, batches, waiting)), x, y))
            <==> !Cuts(slots, p, c, tasks, waiting, available)
  {
    var parts := Parts(p, c, batches, waiting);
    PartsAscend(p, c, tasks, batches, waiting);
    if Cuts(slots, p, c, tasks, waiting, available) {
      var x, y :| x in p && y in c;
      var j := PartOf(batches, c + tasks, y);
      assert parts[1] == batches[0] == {} && parts[j + 1] == batches[j];
      EmptyPartCuts(parts, 0, 1, j + 1, x, y);
    } else {
      forall x, y | x in p && y in c
        ensures Reach(Chain(parts), x, y)
      {
        ChainKeepsPair(slots, p, c, tasks, batches, waiting, available, x, y);
      }
    }
  }

  lemma PartOf(batches: seq<set<nat>>, tasks: set<nat>, t: nat) returns (i: nat)
    requires RunsOf(batches, tasks) && t in tasks
    ensures i < |batches| && t in batches[i]
  {
    assert InPart(batches, t);
    i :| 0 <= i < |batches| && t in batches[i];
  }

  lemma ChainKeepsPair(slots: seq<nat>, p: set<nat>, c: set<nat>, tasks: set<nat>, batches: seq<set<nat>>,
                       waiting: bool, available: nat, x: nat, y: nat)
    requires LegalBatching(slots, batches, Side(p, c, tasks, waiting), available)
    requires !Cuts(slots, p, c, tasks, waiting, available) && x in p && y in c
    ensures Reach(Chain(Parts(p, c, batches, waiting)), x, y)
  {
    var parts := Parts(p, c, batches, waiting);
    if waiting {
      var j := PartOf(batches, c + tasks, y);
      forall k {:trigger Occupied(parts[k])} | 0 < k < j + 1 && k < |parts|
        ensures Occupied(parts[k])
      {
        assert parts[k] == batches[k - 1] && (k > 1 ==> Occupied(batches[k - 1]));
      }
      ChainReach(parts, 0, j + 1, x, y);
    } else {
      var i := PartOf(batches, p + tasks, x);
      forall k {:trigger Occupied(parts[k])} | i < k < |batches| && k < |parts|
        ensures Occupied(parts[k])
      {
        assert parts[k] == batches[k] && Occupied(batches[k]);
      }
      ChainReach(parts, i, |batches|, x, y);
    }
  }

  /** The edges after the join: those of the other barriers, and either the chain or the larger barrier. */
  lemma JoinedEdges(p0: IndexSets, c0: IndexSets, p: IndexSets, c: IndexSets, b: nat, tasks: set<nat>, waiting: bool,
                    batches: seq<set<nat>>)
    requires Joined(p0, c0, p, c, b, tasks, waiting, batches)
    ensures |p| == |c|
    ensures var rest := BarrierEdges(p0[b := {}], c0[b := {}]);
            && BarrierEdges(p0, c0) == rest + Product(p0[b], c0[b])
            && BarrierEdges(p, c) == rest + if |batches| == 1
                                            then Product(Left(p0[b], tasks, waiting), Right(c0[b], tasks, waiting))
                                            else Chain(Parts(p0[b], c0[b], batches, waiting))
  {
    ClearEdges(p0, c0, b);
    if |batches| == 1 {
      ClearEdges(p, c, b);
      assert p[b := {}] == p0[b := {}] && c[b := {}] == c0[b := {}];
    } else {
      LinkEdges(p0[b := {}], c0[b := {}], Parts(p0[b], c0[b], batches, waiting));
    }
  }

  lemma JoinedForward(p0: IndexSets, c0: IndexSets, p: IndexSets, c: IndexSets, b: nat, tasks: set<nat>, waiting: bool,
                      batches: seq<set<nat>>)
    requires Joined(p0, c0, p, c, b, tasks, waiting, batches) && Forward(BarrierEdges(p0, c0))
    requires RunsOf(batches, Side(p0[b], c0[b], tasks, waiting))
    requires Before(Left(p0[b], tasks, waiting), Right(c0[b], tasks, waiting))
    ensures |p| == |c| && Forward(BarrierEdges(p, c))
  {
    JoinedEdges(p0, c0, p, c, b, tasks, waiting, batches);
    PartsAscend(p0[b], c0[b], tasks, batches, waiting);
    AscendingForward(Parts(p0[b], c0[b], batches, waiting));
  }

  /** Joining a barrier that is not cut loses no order. */
  lemma JoinedKeepsOrder(slots: seq<nat>, p0: IndexSets, c0: IndexSets, p: IndexSets, c: IndexSets, b: nat,
                         tasks: set<nat>, waiting: bool, batches: seq<set<nat>>, available: nat)
    requires Joined(p0, c0, p, c, b, tasks, waiting, batches)
    requires LegalBatching(slots, batches, Side(p0[b], c0[b], tasks, waiting), available)
    requires !Cuts(slots, p0[b], c0[b], tasks, waiting, available)
    ensures |p| == |c| && KeepsOrder(BarrierEdges(p0, c0), BarrierEdges(p, c))
  {
    JoinedEdges(p0, c0, p, c, b, tasks, waiting, batches);
    var e, e', chain := BarrierEdges(p0, c0), BarrierEdges(p, c), Chain(Parts(p0[b], c0[b], batches, waiting));
    if |batches| == 1 {
      assert Product(p0[b], c0[b]) <= Product(Left(p0[b], tasks, waiting), Right(c0[b], tasks, waiting));
      SubsetKeepsOrder(e, e');
    } else {
      SubsetKeepsOrder(chain, e');
      forall x, y | (x, y) in e
        ensures Reach(e', x, y)
      {
        if (x, y) in e' {
          EdgeReach(e', x, y);
        } else {
          assert x in p0[b] && y in c0[b];
          ChainKeepsPair(slots, p0[b], c0[b], tasks, batches, waiting, available, x, y);
        }
      }
      EdgesKeepOrder(e, e');
    }
  }

  //
  // The guard under which no barrier is ever cut
  //

  /** Some barrier with producers makes task `u` wait. */
  ghost predicate Driven(p: IndexSets, c: IndexSets, u: nat)
  {
    exists b :: 0 <= b < |p| && b < |c| && u in c[b] && p[b] != {}
  }

  /** `u` is the next task after `t` on its tracked queue. */
  ghost predicate Neighbours(bi: BarrierInfo, t: nat, u: nat)
  {
    && t < u < |bi.queue| && bi.queue[u] == bi.queue[t] && bi.queue[t] in bi.Tracked()
    && forall x :: t < x < u ==> bi.queue[x] != bi.queue[t]
  }

  /** Barriers that task `t` waits for have a first consumer that fits. */
  ghost predicate FirstsFit(slots: seq<nat>, c: IndexSets, t: nat, available: nat)
  {
    forall b :: 0 <= b < |c| && t in c[b] ==> FirstFits(slots, c[b], available)
  }

  /** A task whose neighbour on the queue is not driven by any barrier fits, and so does the first consumer of every
      barrier it waits for. */
  ghost predicate Guarded(bi: BarrierInfo, p: IndexSets, c: IndexSets, available: nat)
    requires |bi.slots| == |bi.queue|
  {
    forall t: nat, u: nat :: Neighbours(bi, t, u) && !Driven(p, c, u) ==>
      bi.slots[t] <= available && FirstsFit(bi.slots, c, t, available)
  }

  /** Joined tasks come after the first consumer, so they do not change whether it fits. */
  lemma FirstStays(slots: seq<nat>, c: set<nat>, tasks: set<nat>, available: nat, anchor: nat)
    requires anchor in c && forall t :: t in tasks ==> anchor < t
    ensures FirstFits(slots, c + tasks, available) <==> FirstFits(slots, c, available)
  {
    var m := MinOf(c);
    assert IsMin(c + tasks, m);
  }

  /** A task that is driven stays driven when a barrier that is not cut is joined. */
  lemma DrivenStays(slots: seq<nat>, p0: IndexSets, c0: IndexSets, p: IndexSets, c: IndexSets, b: nat, tasks: set<nat>,
                    waiting: bool, batches: seq<set<nat>>, available: nat, u: nat)
    requires Joined(p0, c0, p, c, b, tasks, waiting, batches) && Driven(p0, c0, u)
    requires LegalBatching(slots, batches, Side(p0[b], c0[b], tasks, waiting), available)
    requires waiting ==> FirstFits(slots, c0[b] + tasks, available)
    ensures Driven(p, c, u)
  {
    var d :| 0 <= d < |p0| && d < |c0| && u in c0[d] && p0[d] != {};
    if d != b || |batches| == 1 {
      assert u in c[d] && p[d] != {};
    } else {
      var parts := Parts(p0[b], c0[b], batches, waiting);
      var i: nat;
      if waiting {
        i := PartOf(batches, c0[b] + tasks, u);
        assert parts[i + 1] == batches[i];
        if i > 1 { assert Occupied(batches[i - 1]); }
        assert i > 0 ==> parts[i] == batches[i - 1];
      } else {
        i := |batches| - 1;
        assert Occupied(batches[i]) && parts[i] == batches[i];
      }
      var k := BarrierOfLink(parts, |parts|, i);
      assert u in c[|p0| + k] && p[|p0| + k] != {};
    }
  }

  /** Every batch of a chain that has a task that fits starts with one that fits. */
  lemma BatchFirstFits(slots: seq<nat>, batches: seq<set<nat>>, side: set<nat>, available: nat, i: nat, t: nat)
    requires LegalBatching(slots, batches, side, available) && i < |batches| && t in batches[i]
    requires t < |slots| && slots[t] <= available
    ensures FirstFits(slots, batches[i], available)
  {
    assert PartLegal(slots, batches[i], available);
    forall m | 0 <= m < |slots| && IsMin(batches[i], m)
      ensures slots[m] <= available
    {
      if SlotSum(slots, batches[i], |slots|) <= available {
        SingleSum(slots, m);
        SlotSumMono(slots, {m}, batches[i], |slots|);
      }
    }
  }

  /** A barrier that a fitting task waits for after the join has a first consumer that fits. */
  lemma FirstsFitStays(slots: seq<nat>, p0: IndexSets, c0: IndexSets, p: IndexSets, c: IndexSets, b: nat,
                       tasks: set<nat>, waiting: bool, batches: seq<set<nat>>, available: nat, t: nat)
    requires Joined(p0, c0, p, c, b, tasks, waiting, batches)
    requires LegalBatching(slots, batches, Side(p0[b], c0[b], tasks, waiting), available)
    requires waiting ==> FirstFits(slots, c0[b] + tasks, available)
    requires t < |slots| && slots[t] <= available && FirstsFit(slots, c0, t, available)
    ensures FirstsFit(slots, c, t, available)
  {
    forall d | 0 <= d < |c| && t in c[d]
      ensures FirstFits(slots, c[d], available)
    {
      if d >= |c0| {
        var parts := Parts(p0[b], c0[b], batches, waiting);
        var i := LinkBarrier(parts, |parts|, d - |c0|);
        if waiting {
          assert parts[i + 1] == batches[i];
          BatchFirstFits(slots, batches, c0[b] + tasks, available, i, t);
        } else if i + 1 < |batches| {
          assert parts[i + 1] == batches[i + 1];
          BatchFirstFits(slots, batches, p0[b] + tasks, available, i + 1, t);
        } else {
          assert c[d] == c0[b];
        }
      } else if d != b {
        assert c[d] == c0[d];
      }
    }
  }

  lemma GuardStays(bi: BarrierInfo, p0: IndexSets, c0: IndexSets, p: IndexSets, c: IndexSets, b: nat, tasks: set<nat>,
                   waiting: bool, batches: seq<set<nat>>, available: nat)
    requires |bi.slots| == |bi.queue| && Guarded(bi, p0, c0, available)
    requires Joined(p0, c0, p, c, b, tasks, waiting, batches)
    requires LegalBatching(bi.slots, batches, Side(p0[b], c0[b], tasks, waiting), available)
    requires waiting ==> FirstFits(bi.slots, c0[b] + tasks, available)
    ensures Guarded(bi, p, c, available)
  {
    forall t: nat, u: nat | Neighbours(bi, t, u) && !Driven(p, c, u)
      ensures bi.slots[t] <= available && FirstsFit(bi.slots, c, t, available)
    {
      if Driven(p0, c0, u) {
        DrivenStays(bi.slots, p0, c0, p, c, b, tasks, waiting, batches, available, u);
      } else {
        FirstsFitStays(bi.slots, p0, c0, p, c, b, tasks, waiting, batches, available, t);
      }
    }
  }

  //
  // A task that loses its barrier
  //

  /** Joining a barrier whose first consumer `y` does not fit takes the barrier away from `y`; no join of other tasks
      gives it one. */
  lemma FirstLosesBarrier(slots: seq<nat>, p0: IndexSets, c0: IndexSets, p: IndexSets, c: IndexSets, b: nat,
                          tasks: set<nat>, batches: seq<set<nat>>, available: nat, y: nat)
    requires Joined(p0, c0, p, c, b, tasks, true, batches) && LegalBatching(slots, batches, c0[b] + tasks, available)
    requires y < |slots| && slots[y] > available && (y in c0[b] ==> IsMin(c0[b], y)) && forall t :: t in tasks ==> y < t
    ensures |c| >= |c0|
    ensures forall d :: 0 <= d < |c| && y in c[d] ==> d < |c0| && c[d] == c0[d] && (d == b ==> y !in c0[b])
  {
    if |batches| > 1 {
      var parts := Parts(p0[b], c0[b], batches, true);
      forall d | |c0| <= d < |c|
        ensures y !in c[d]
      {
        var i := LinkBarrier(parts, |parts|, d - |c0|);
        assert parts[i + 1] == batches[i];
        if y in batches[i] { YInSecond(slots, c0[b], tasks, batches, available, y, i); }
      }
    } else if y in c0[b] {
      assert IsMin(c0[b] + tasks, y) && InPart(batches, y);
    }
  }

  /** A first task that does not fit is alone in the second batch, behind an empty one. */
  lemma YInSecond(slots: seq<nat>, c: set<nat>, tasks: set<nat>, batches: seq<set<nat>>, available: nat, y: nat, i: nat)
    requires LegalBatching(slots, batches, c + tasks, available) && i < |batches| && y in batches[i]
    requires y < |slots| && slots[y] > available && (y in c ==> IsMin(c, y)) && forall t :: t in tasks ==> y < t
    ensures i == 1 && batches[0] == {}
  {
    assert batches[i] <= c + tasks && IsMin(c + tasks, y);
    assert |batches| > 1 ==> Occupied(batches[1]);
  }
}
