/** Programs whose order sharing keeps, and programs whose order it loses. */
module SharedLosses {
  import opened TaskGraph
  import opened Barriers
  import opened VariantBatches
  import opened BatchChains
  import opened SharedJoin
  import opened SharedRows
  import opened SharedBarriers

  /** No order is ever lost if every task fits. */
  lemma FitGuarded(bi: BarrierInfo, p: IndexSets, c: IndexSets, available: nat)
    requires bi.ValidConfig() && AllTasksFit(bi, available)
    ensures Guarded(bi, p, c, available)
  {
  }

  /** Sharing takes away everything that precedes a stranded task, so the order between it and a producer of one of its
      barriers is lost. */
  method StrandedLosesOrder(bi: BarrierInfo, available: nat, x: nat, y: nat, b: nat)
    requires bi.Valid() && bi.fifoDeps == [] && Forward(bi.Graph()) && |bi.trackedQueues| == 1
    requires !TooLarge(bi, MapsOf(bi), available, false) && Stranded(bi, MapsOf(bi), bi.trackedQueues[0], y, available)
    requires b < |bi.producers| && x in bi.producers[b] && y in bi.consumers[b]
    modifies bi`producers, bi`consumers, bi`updates, bi`waits, bi`opCount
    ensures bi.Valid() && Reach(old(bi.Order()), x, y) && forall z :: !Reach(bi.Order(), z, y)
  {
    EdgeReach(bi.Order(), x, y);
    Share(bi, available);
    forall z
      ensures !Reach(bi.Order(), z, y)
    {
      if Reach(bi.Order(), z, y) {
        var m := ReachLast(bi.Order(), z, y);
      }
    }
  }

  /** A program of three tasks: task 0 precedes task 1, which is too large and has an idle neighbour on its queue. */
  method OversizedConsumer() returns (bi: BarrierInfo)
    ensures fresh(bi) && bi.Valid() && bi.fifoDeps == [] && Forward(bi.Graph()) && bi.trackedQueues == [1]
    ensures Reach(bi.Graph(), 0, 1) && !TooLarge(bi, MapsOf(bi), 1, false) && Stranded(bi, MapsOf(bi), 1, 1, 1)
    ensures bi.producers == [{0}] && bi.consumers == [{1}]
  {
    bi := new BarrierInfo(3, [1, 2, 1], [0, 0, 0], [0, 1, 1], [1], [], 1);
    assert bi.updates == [{}, {}, {}] && bi.waits == [{}, {}, {}] && bi.producers == [{}] && bi.consumers == [{}];
    assert {} + {0} == {0} && {} + {1} == {1};
    bi.AddProducer(0, 0);
    assert bi.updates == [{0}, {}, {}] && bi.producers == [{0}];
    bi.AddConsumer(0, 1);
    assert bi.waits == [{}, {0}, {}] && bi.consumers == [{1}];
    OversizedFacts(bi);
  }

  lemma OversizedFacts(bi: BarrierInfo)
    requires bi.Valid() && bi.numTasks == 3 && bi.slots == [1, 2, 1] && bi.queue == [0, 1, 1] && bi.trackedQueues == [1]
    requires bi.updates == [{0}, {}, {}] && bi.waits == [{}, {0}, {}] && bi.producers == [{0}] && bi.consumers == [{1}]
    ensures Forward(bi.Graph()) && Reach(bi.Graph(), 0, 1)
    ensures !TooLarge(bi, MapsOf(bi), 1, false) && Stranded(bi, MapsOf(bi), 1, 1, 1)
  {
    assert (0, 1) in bi.Graph() by { assert 0 in bi.producers[0] && 1 in bi.consumers[0]; }
    EdgeReach(bi.Graph(), 0, 1);
    NoNextRow(bi.updates, bi.queue, 1, 1);
    NoNextRow(bi.updates, bi.queue, 1, 2);
    assert AllShared(bi, bi.updates, false) == bi.updates;
    assert IsMin(bi.consumers[0], 1);
    assert bi.trackedQueues[0] in bi.Tracked();
    assert Neighbours(bi, 1, 2);
  }

  method OrderIsLost() returns (bi: BarrierInfo, ghost before: Edges)
    ensures fresh(bi) && bi.Valid() && Forward(before) && Reach(before, 0, 1) && !Reach(bi.Order(), 0, 1)
  {
    bi := OversizedConsumer();
    before := bi.Order();
    StrandedLosesOrder(bi, 1, 0, 1, 0);
  }

  //
  // Why it is not enough that the first consumers fit
  //

  /** With one slot per barrier, no batch has two tasks. */
  lemma OneTaskPerBatch(slots: seq<nat>, batches: seq<set<nat>>, side: set<nat>, i: nat, x: nat, y: nat)
    requires LegalBatching(slots, batches, side, 1) && i < |batches| && x in batches[i] && y in batches[i]
    requires x < |slots| && y < |slots| && slots[x] >= 1 && slots[y] >= 1
    ensures x == y
  {
    assert PartLegal(slots, batches[i], 1);
    if x != y && SlotSum(slots, batches[i], |slots|) <= 1 {
      SingleSum(slots, x);
      SlotSumAdd(slots, {x}, y, |slots|);
      SlotSumMono(slots, {x} + {y}, batches[i], |slots|);
    }
  }

  lemma BatchesOfOne(slots: seq<nat>, batches: seq<set<nat>>)
    requires slots == [1, 1, 1, 2, 1] && LegalBatching(slots, batches, {1, 2, 3}, 1)
    ensures batches == [{1}, {2}, {3}]
  {
    var side: set<nat> := {1, 2, 3};
    var a := PartOf(batches, side, 1);
    var b := PartOf(batches, side, 2);
    var c := PartOf(batches, side, 3);
    forall i, x | 0 <= i < |batches| && x in batches[i]
      ensures (x == 1 && i == a) || (x == 2 && i == b) || (x == 3 && i == c)
    {
      assert batches[i] <= side;
    }
    forall i | 0 <= i < |batches|
      ensures Occupied(batches[i])
    {
      assert IsMin(side, 1);
    }
    if a == b { OneTaskPerBatch(slots, batches, side, a, 1, 2); }
    if b == c { OneTaskPerBatch(slots, batches, side, b, 2, 3); }
    assert a < b < c;
    assert a == 0 by { assert Occupied(batches[0]); }
    assert b == 1 by { assert Occupied(batches[1]); }
    assert c == 2 by { assert Occupied(batches[2]); }
    assert |batches| == 3 by { assert |batches| > 3 ==> Occupied(batches[3]); }
    assert batches[0] == {1} && batches[1] == {2} && batches[2] == {3};
  }

  lemma BatchesOfTooLarge(slots: seq<nat>, batches: seq<set<nat>>)
    requires slots == [1, 1, 1, 2, 1] && LegalBatching(slots, batches, {3, 4}, 1)
    ensures batches == [{}, {3}, {4}]
  {
    var side: set<nat> := {3, 4};
    var a := PartOf(batches, side, 3);
    var b := PartOf(batches, side, 4);
    assert IsMin(side, 3);
    forall i, x | 0 <= i < |batches| && x in batches[i]
      ensures (x == 3 && i == a) || (x == 4 && i == b)
    {
      assert batches[i] <= side;
    }
    if a == b { OneTaskPerBatch(slots, batches, side, a, 3, 4); }
    assert batches[0] == {} && 0 < a < b;
    assert a == 1 by { assert Occupied(batches[1]); }
    assert b == 2 by { assert Occupied(batches[2]); }
    assert |batches| == 3 by { assert |batches| > 3 ==> Occupied(batches[3]); }
    assert batches[1] == {3} && batches[2] == {4};
  }

  /** The barriers of a chain of four parts. */
  lemma FourParts(a: set<nat>, b: set<nat>, c: set<nat>, d: set<nat>)
    requires a != {} && c != {}
    ensures LinkProducers([a, b, c, d], 4) == [a] + (if b == {} then [] else [b]) + [c]
    ensures LinkConsumers([a, b, c, d], 4) == [b] + (if b == {} then [] else [c]) + [d]
  {
    var parts := [a, b, c, d];
    var one, two, three := 1, 2, 3;
    assert LinkProducers(parts, one) == [] && LinkConsumers(parts, one) == [];
    assert LinkProducers(parts, two) == [a] && LinkConsumers(parts, two) == [b];
    assert LinkProducers(parts, three) == [a] + if b == {} then [] else [b];
    assert LinkConsumers(parts, three) == [b] + if b == {} then [] else [c];
  }

  lemma FirstJoin(slots: seq<nat>, p0: IndexSets, c0: IndexSets, p: IndexSets, c: IndexSets, batches: seq<set<nat>>)
    requires slots == [1, 1, 1, 2, 1] && p0 == [{0}] && c0 == [{1, 3}] && Joined(p0, c0, p, c, 0, {2}, true, batches)
    requires LegalBatching(slots, batches, Side(p0[0], c0[0], {2}, true), 1)
    ensures p == [{}, {0}, {1}, {2}] && c == [{}, {1}, {2}, {3}]
  {
    assert {1, 3} + {2} == {1, 2, 3};
    BatchesOfOne(slots, batches);
    assert Parts({0}, {1, 3}, batches, true) == [{0}, {1}, {2}, {3}];
    FourParts({0}, {1}, {2}, {3});
  }

  lemma SecondJoin(slots: seq<nat>, p0: IndexSets, c0: IndexSets, p: IndexSets, c: IndexSets, batches: seq<set<nat>>)
    requires slots == [1, 1, 1, 2, 1] && p0 == [{}, {0}, {1}, {2}] && c0 == [{}, {1}, {2}, {3}]
    requires Joined(p0, c0, p, c, 3, {4}, true, batches)
    requires LegalBatching(slots, batches, Side(p0[3], c0[3], {4}, true), 1)
    ensures c == [{}, {1}, {2}, {}, {}, {4}]
  {
    assert {3} + {4} == {3, 4};
    BatchesOfTooLarge(slots, batches);
    assert Parts({2}, {3}, batches, true) == [{2}, {}, {3}, {4}];
    FourParts({2}, {}, {3}, {4});
  }

  /** Nothing precedes a task that waits for nothing and comes first on its queue. */
  lemma NothingBefore(bi: BarrierInfo, x: nat, y: nat)
    requires bi.Valid() && y < bi.numTasks && (forall b :: 0 <= b < |bi.consumers| ==> y !in bi.consumers[b])
    requires forall u :: 0 <= u < y ==> bi.queue[u] != bi.queue[y]
    ensures !Reach(bi.Order(), x, y)
  {
    if Reach(bi.Order(), x, y) {
      var m := ReachLast(bi.Order(), x, y);
    }
  }

  /** Five tasks and one barrier: task 0 precedes tasks 1 and 3. */
  method FiveTasks() returns (bi: BarrierInfo)
    ensures fresh(bi) && bi.Valid() && bi.fifoDeps == [] && bi.slots == [1, 1, 1, 2, 1] && bi.numTasks == 5
    ensures bi.queue == [0, 1, 1, 2, 2] && bi.trackedQueues == [1, 2] && bi.producers == [{0}]
    ensures bi.consumers == [{1, 3}]
  {
    bi := new BarrierInfo(5, [1, 1, 1, 2, 1], [0, 0, 0, 0, 0], [0, 1, 1, 2, 2], [1, 2], [], 1);
    assert bi.producers == [{}] && bi.consumers == [{}];
    assert {} + {0} == {0} && {} + {1, 3} == {1, 3};
    bi.AddProducers(0, {0});
    assert bi.producers == [{0}];
    bi.AddConsumers(0, {1, 3});
    assert bi.consumers == [{1, 3}];
  }

  /** Task 2 has joined as a neighbour of task 1: the barrier has become a chain, and task 3, which is too large,
      comes first in the last barrier. */
  method FirstChain() returns (bi: BarrierInfo, ghost before: Edges)
    ensures fresh(bi) && bi.Valid() && bi.fifoDeps == [] && bi.slots == [1, 1, 1, 2, 1] && bi.numTasks == 5
    ensures bi.queue == [0, 1, 1, 2, 2] && bi.producers == [{}, {0}, {1}, {2}] && bi.consumers == [{}, {1}, {2}, {3}]
    ensures Reach(before, 0, 3)
  {
    bi := FiveTasks();
    before := bi.Order();
    assert (0, 3) in bi.Graph() by { assert 0 in bi.producers[0] && 3 in bi.consumers[0]; }
    EdgeReach(before, 0, 3);
    ghost var p, c := bi.producers, bi.consumers;
    ghost var batches := JoinBarrier(bi, 0, {2}, true, 1);
    FirstJoin(bi.slots, p, c, bi.producers, bi.consumers, batches);
  }

  /** Task 0 precedes tasks 1 and 3 through one barrier whose first consumer fits. After task 2 has joined, task 4
      joins as a neighbour of task 3, and the order between tasks 0 and 3 is lost. */
  method ChainLosesOrder() returns (bi: BarrierInfo, ghost before: Edges)
    ensures fresh(bi) && bi.Valid() && Reach(before, 0, 3) && !Reach(bi.Order(), 0, 3)
  {
    bi, before := FirstChain();
    ghost var p, c := bi.producers, bi.consumers;
    ghost var batches := JoinBarrier(bi, 3, {4}, true, 1);
    SecondJoin(bi.slots, p, c, bi.producers, bi.consumers, batches);
    NothingBefore(bi, 0, 3);
  }
}
