/** Splitting of barriers whose producers or consumers use too many slots. */
module VariantSplit {
  import opened TaskGraph
  import opened Barriers
  import opened BarrierEdits
  import opened VariantBatches

  ghost function Copies(s: set<nat>, n: nat): (r: IndexSets)
    ensures |r| == n && forall i :: 0 <= i < n ==> r[i] == s
  {
    seq(n, _ => s)
  }

  /** Barriers that pair each part of `tasks` with all of `others` have the edges of one barrier. */
  lemma {:induction false} PartsEdges(p: IndexSets, c: IndexSets, parts: seq<set<nat>>, others: set<nat>, n: nat)
    requires |p| == |c| && n <= |parts|
    ensures BarrierEdges(p + parts[..n], c + Copies(others, n)) ==
            BarrierEdges(p, c) + Product(UnionOf(parts, n), others)
    ensures BarrierEdges(p + Copies(others, n), c + parts[..n]) ==
            BarrierEdges(p, c) + Product(others, UnionOf(parts, n))
  {
    if n == 0 {
      EmptyProduct(others);
      assert p + parts[..0] == p && c + Copies(others, 0) == c && p + Copies(others, 0) == p && c + parts[..0] == c;
    } else {
      PartsEdges(p, c, parts, others, n - 1);
      assert p + parts[..n] == (p + parts[..n - 1]) + [parts[n - 1]];
      assert c + Copies(others, n) == (c + Copies(others, n - 1)) + [others];
      assert p + Copies(others, n) == (p + Copies(others, n - 1)) + [others];
      assert c + parts[..n] == (c + parts[..n - 1]) + [parts[n - 1]];
      AppendEdges(p + parts[..n - 1], c + Copies(others, n - 1), parts[n - 1], others);
      AppendEdges(p + Copies(others, n - 1), c + parts[..n - 1], others, parts[n - 1]);
      assert Product(UnionOf(parts, n), others) ==
             Product(UnionOf(parts, n - 1), others) + Product(parts[n - 1], others);
      assert Product(others, UnionOf(parts, n)) ==
             Product(others, UnionOf(parts, n - 1)) + Product(others, parts[n - 1]);
    }
  }

  ghost function UnionOf(parts: seq<set<nat>>, n: nat): set<nat>
    requires n <= |parts|
  {
    set i, t | 0 <= i < n && t in parts[i] :: t
  }

  lemma RunsUnion(parts: seq<set<nat>>, tasks: set<nat>)
    requires RunsOf(parts, tasks)
    ensures UnionOf(parts, |parts|) == tasks
  {
    assert forall t :: t in tasks ==> InPart(parts, t);
  }

  /** Adds one barrier per batch, each with all of `others` on the opposite side. */
  method AddBatches(bi: BarrierInfo, batches: seq<set<nat>>, tasks: set<nat>, others: set<nat>, producers: bool)
    requires bi.Valid() && bi.fifoDeps == [] && forall t :: t in tasks || t in others ==> t < bi.numTasks
    requires forall i :: 0 <= i < |batches| ==> batches[i] <= tasks
    modifies bi`producers, bi`consumers, bi`updates, bi`waits, bi`opCount
    ensures bi.Valid()
    ensures producers ==>
              bi.producers == old(bi.producers) + batches &&
              bi.consumers == old(bi.consumers) + Copies(others, |batches|)
    ensures !producers ==>
              bi.consumers == old(bi.consumers) + batches &&
              bi.producers == old(bi.producers) + Copies(others, |batches|)
  {
    ghost var p0, c0 := bi.producers, bi.consumers;
    assert p0 + [] == p0 && c0 + [] == c0;
    var i := 0;
    while i < |batches|
      invariant 0 <= i <= |batches| && bi.Valid() && bi.fifoDeps == []
      invariant producers ==> bi.producers == p0 + batches[..i] && bi.consumers == c0 + Copies(others, i)
      invariant !producers ==> bi.producers == p0 + Copies(others, i) && bi.consumers == c0 + batches[..i]
    {
      assert batches[..i + 1] == batches[..i] + [batches[i]] && Copies(others, i + 1) == Copies(others, i) + [others];
      if producers {
        AddBarrier(bi, batches[i], others);
      } else {
        AddBarrier(bi, others, batches[i]);
      }
      i := i + 1;
    }
    assert batches[..|batches|] == batches;
  }

  /** The greedy batches of the tasks: in order, within the limit unless a task alone exceeds it, and as full as can
      be. */
  ghost predicate LegalDivision(slots: seq<nat>, batches: seq<set<nat>>, tasks: set<nat>, available: nat)
  {
    && batches != [] && RunsOf(batches, tasks) && LaterNonEmpty(batches) && PartsLegal(slots, batches, available)
    && Maximal(slots, [], batches, available) && (batches[0] != {} <==> FirstFits(slots, tasks, available))
    && (AllFit(slots, tasks, available) ==> PartsWithin(slots, batches, available))
  }

  /** Replaces barrier `b` by one barrier per batch of its producers (`producers`) or of its consumers. */
  method SplitBarrier(bi: BarrierInfo, b: nat, available: nat, producers: bool) returns (batches: seq<set<nat>>)
    requires bi.Valid() && bi.fifoDeps == [] && b < |bi.producers|
    requires (if producers then bi.producers[b] else bi.consumers[b]) != {}
    modifies bi`producers, bi`consumers, bi`updates, bi`waits, bi`opCount
    ensures bi.Valid() && bi.Graph() == old(bi.Graph())
    ensures LegalDivision(bi.slots, batches, if producers then old(bi.producers)[b] else old(bi.consumers)[b],
                          available)
    ensures producers ==> bi.producers == old(bi.producers)[b := {}] + batches
                          && bi.consumers == old(bi.consumers)[b := {}] + Copies(old(bi.consumers)[b], |batches|)
    ensures !producers ==> bi.consumers == old(bi.consumers)[b := {}] + batches
                           && bi.producers == old(bi.producers)[b := {}] + Copies(old(bi.producers)[b], |batches|)
  {
    ghost var p0, c0 := bi.producers, bi.consumers;
    var tasks := if producers then bi.producers[b] else bi.consumers[b];
    var others := if producers then bi.consumers[b] else bi.producers[b];
    batches := CreateLegalBatches(bi, tasks, available, false);
    AddBatches(bi, batches, tasks, others, producers);
    ghost var more := Copies(others, |batches|);
    bi.ResetBarrier(b);
    assert (p0 + batches)[b := {}] == p0[b := {}] + batches && (p0 + more)[b := {}] == p0[b := {}] + more;
    assert (c0 + batches)[b := {}] == c0[b := {}] + batches && (c0 + more)[b := {}] == c0[b := {}] + more;
    SplitGraph(p0, c0, b, batches, tasks, others, producers);
  }

  lemma SplitGraph(p0: IndexSets, c0: IndexSets, b: nat, batches: seq<set<nat>>, tasks: set<nat>, others: set<nat>,
                   producers: bool)
    requires |p0| == |c0| && b < |p0| && RunsOf(batches, tasks)
    requires if producers then tasks == p0[b] && others == c0[b] else tasks == c0[b] && others == p0[b]
    ensures producers ==>
              BarrierEdges(p0[b := {}] + batches, c0[b := {}] + Copies(others, |batches|)) == BarrierEdges(p0, c0)
    ensures !producers ==>
              BarrierEdges(p0[b := {}] + Copies(others, |batches|), c0[b := {}] + batches) == BarrierEdges(p0, c0)
  {
    RunsUnion(batches, tasks);
    assert batches[..|batches|] == batches;
    PartsEdges(p0[b := {}], c0[b := {}], batches, others, |batches|);
    ClearEdges(p0, c0, b);
  }

  ghost predicate SumOk(bi: BarrierInfo, p: set<nat>, c: set<nat>, maxSum: nat, sumLimit: bool)
    requires bi.ValidConfig()
  {
    sumLimit && SlotSum(bi.slots, p, bi.numTasks) + SlotSum(bi.slots, c, bi.numTasks) <= maxSum
  }

  /** One side of a barrier is within its limit, or the barrier is within the common limit. */
  ghost predicate SideLegal(bi: BarrierInfo, p: set<nat>, c: set<nat>, available: nat, maxSum: nat, sumLimit: bool,
                            producers: bool)
    requires bi.ValidConfig()
  {
    SumOk(bi, p, c, maxSum, sumLimit) || SlotSum(bi.slots, if producers then p else c, bi.numTasks) <= available
  }

  ghost predicate Legal(bi: BarrierInfo, p: set<nat>, c: set<nat>, available: nat, maxSum: nat, sumLimit: bool)
    requires bi.ValidConfig()
  {
    || SumOk(bi, p, c, maxSum, sumLimit)
    || (SlotSum(bi.slots, p, bi.numTasks) <= available && SlotSum(bi.slots, c, bi.numTasks) <= available)
  }

  /** Barrier `b` is untouched and has no replacement, or it is empty and the barriers `start..end-1` pair the batches
      of its producers (or of its consumers) with all of the other side; the former exactly if that side is legal. */
  ghost predicate Divided(bi: BarrierInfo, p0: set<nat>, c0: set<nat>, p: IndexSets, c: IndexSets, b: nat, start: nat,
                          end: nat, available: nat, maxSum: nat, sumLimit: bool, producers: bool)
    requires bi.ValidConfig() && b < |p| == |c|
  {
    && start <= end <= |p|
    && if SideLegal(bi, p0, c0, available, maxSum, sumLimit, producers) then p[b] == p0 && c[b] == c0 && start == end
       else
         && p[b] == {} && c[b] == {}
         && (producers ==>
              LegalDivision(bi.slots, p[start..end], p0, available) && c[start..end] == Copies(c0, end - start))
         && (!producers ==>
              LegalDivision(bi.slots, c[start..end], c0, available) && p[start..end] == Copies(p0, end - start))
  }

  /** The first `n` barriers of (p0, c0) are done: `cuts` says which new barriers replace which of them, in order. */
  ghost predicate DividedBelow(bi: BarrierInfo, p0: IndexSets, c0: IndexSets, p: IndexSets, c: IndexSets,
                               cuts: seq<nat>, n: nat, available: nat, maxSum: nat, sumLimit: bool, producers: bool)
    requires bi.ValidConfig()
  {
    && n <= |p0| == |c0| <= |p| == |c| && |cuts| == n + 1 && cuts[0] == |p0| && cuts[n] == |p|
    && (forall b :: 0 <= b < n ==>
          Divided(bi, p0[b], c0[b], p, c, b, cuts[b], cuts[b + 1], available, maxSum, sumLimit, producers))
    && forall b :: n <= b < |p0| ==> p[b] == p0[b] && c[b] == c0[b]
  }

  /** All barriers are done on one side. */
  ghost predicate SideDivided(bi: BarrierInfo, p0: IndexSets, c0: IndexSets, p: IndexSets, c: IndexSets, available: nat,
                              maxSum: nat, sumLimit: bool, producers: bool)
    requires bi.ValidConfig() && |p0| == |c0|
  {
    exists cuts :: DividedBelow(bi, p0, c0, p, c, cuts, |p0|, available, maxSum, sumLimit, producers)
  }

  /** The barriers of the earlier steps are where they were. */
  lemma DividedStays(bi: BarrierInfo, p0: IndexSets, c0: IndexSets, p: IndexSets, c: IndexSets, p': IndexSets,
                     c': IndexSets, cuts: seq<nat>, n: nat, available: nat, maxSum: nat, sumLimit: bool,
                     producers: bool)
    requires bi.ValidConfig() && DividedBelow(bi, p0, c0, p, c, cuts, n, available, maxSum, sumLimit, producers)
    requires n < |p0| && |p| <= |p'| == |c'| && forall j :: 0 <= j < |p| && j != n ==> p'[j] == p[j] && c'[j] == c[j]
    requires Divided(bi, p0[n], c0[n], p', c', n, |p|, |p'|, available, maxSum, sumLimit, producers)
    ensures DividedBelow(bi, p0, c0, p', c', cuts + [|p'|], n + 1, available, maxSum, sumLimit, producers)
  {
    var cuts' := cuts + [|p'|];
    forall b | 0 <= b < n + 1
      ensures Divided(bi, p0[b], c0[b], p', c', b, cuts'[b], cuts'[b + 1], available, maxSum, sumLimit, producers)
    {
      if b < n {
        CutsBound(bi, p0, c0, p, c, cuts, n, available, maxSum, sumLimit, producers, b);
        var start, end := cuts[b], cuts[b + 1];
        assert cuts'[b] == start && cuts'[b + 1] == end;
        assert Divided(bi, p0[b], c0[b], p, c, b, start, end, available, maxSum, sumLimit, producers);
        assert p'[start..end] == p[start..end] && c'[start..end] == c[start..end];
      }
    }
  }

  lemma {:induction false} CutsBound(bi: BarrierInfo, p0: IndexSets, c0: IndexSets, p: IndexSets, c: IndexSets,
                                     cuts: seq<nat>, n: nat, available: nat, maxSum: nat, sumLimit: bool,
                                     producers: bool, b: nat)
    requires bi.ValidConfig() && DividedBelow(bi, p0, c0, p, c, cuts, n, available, maxSum, sumLimit, producers)
    requires b <= n
    ensures cuts[b] >= |p0|
  {
    if b > 0 {
      var a := b - 1;
      CutsBound(bi, p0, c0, p, c, cuts, n, available, maxSum, sumLimit, producers, a);
      assert Divided(bi, p0[a], c0[a], p, c, a, cuts[a], cuts[a + 1], available, maxSum, sumLimit, producers);
    }
  }

  /** One barrier: split exactly if the side is not legal. */
  method SplitIfNeeded(bi: BarrierInfo, b: nat, available: nat, maxSum: nat, sumLimit: bool, producers: bool)
    requires bi.Valid() && bi.fifoDeps == [] && b < |bi.producers|
    modifies bi`producers, bi`consumers, bi`updates, bi`waits, bi`opCount
    ensures bi.Valid() && bi.Graph() == old(bi.Graph()) && |old(bi.producers)| <= |bi.producers|
    ensures forall j :: 0 <= j < old(|bi.producers|) && j != b ==>
              bi.producers[j] == old(bi.producers)[j] && bi.consumers[j] == old(bi.consumers)[j]
    ensures Divided(bi, old(bi.producers)[b], old(bi.consumers)[b], bi.producers, bi.consumers, b,
                    old(|bi.producers|), |bi.producers|, available, maxSum, sumLimit, producers)
  {
    SlotSumEmpty(bi.slots, bi.numTasks);
    ghost var p0, c0 := bi.producers, bi.consumers;
    var producerNum := SlotSum(bi.slots, bi.producers[b], bi.numTasks);
    var consumerNum := SlotSum(bi.slots, bi.consumers[b], bi.numTasks);
    if !(sumLimit && producerNum + consumerNum <= maxSum) &&
       (if producers then producerNum else consumerNum) > available {
      var batches := SplitBarrier(bi, b, available, producers);
      ghost var n := |p0|;
      assert producers ==> bi.producers[n..] == batches && bi.consumers[n..] == Copies(c0[b], |batches|);
      assert !producers ==> bi.consumers[n..] == batches && bi.producers[n..] == Copies(p0[b], |batches|);
      assert bi.producers[n..|bi.producers|] == bi.producers[n..];
      assert bi.consumers[n..|bi.producers|] == bi.consumers[n..];
    }
  }

  method SplitAllProducers(bi: BarrierInfo, available: nat, maxSum: nat, sumLimit: bool)
    requires bi.Valid() && bi.fifoDeps == []
    modifies bi`producers, bi`consumers, bi`updates, bi`waits, bi`opCount
    ensures bi.Valid() && bi.Graph() == old(bi.Graph())
    ensures SideDivided(bi, old(bi.producers), old(bi.consumers), bi.producers, bi.consumers, available, maxSum,
                        sumLimit, true)
  {
    var count := |bi.producers|;
    ghost var p0, c0, cuts: seq<nat> := bi.producers, bi.consumers, [count];
    var b := 0;
    while b < count
      invariant 0 <= b <= count <= |bi.producers| && bi.Valid() && bi.fifoDeps == [] && bi.Graph() == old(bi.Graph())
      invariant DividedBelow(bi, p0, c0, bi.producers, bi.consumers, cuts, b, available, maxSum, sumLimit, true)
    {
      ghost var p, c := bi.producers, bi.consumers;
      SplitIfNeeded(bi, b, available, maxSum, sumLimit, true);
      DividedStays(bi, p0, c0, p, c, bi.producers, bi.consumers, cuts, b, available, maxSum, sumLimit, true);
      cuts := cuts + [|bi.producers|];
      b := b + 1;
    }
  }

  method SplitAllConsumers(bi: BarrierInfo, available: nat, maxSum: nat, sumLimit: bool)
    requires bi.Valid() && bi.fifoDeps == []
    modifies bi`producers, bi`consumers, bi`updates, bi`waits, bi`opCount
    ensures bi.Valid() && bi.Graph() == old(bi.Graph())
    ensures SideDivided(bi, old(bi.producers), old(bi.consumers), bi.producers, bi.consumers, available, maxSum,
                        sumLimit, false)
  {
    var count := |bi.producers|;
    ghost var p0, c0, cuts: seq<nat> := bi.producers, bi.consumers, [count];
    var b := 0;
    while b < count
      invariant 0 <= b <= count <= |bi.producers| && bi.Valid() && bi.fifoDeps == [] && bi.Graph() == old(bi.Graph())
      invariant DividedBelow(bi, p0, c0, bi.producers, bi.consumers, cuts, b, available, maxSum, sumLimit, false)
    {
      ghost var p, c := bi.producers, bi.consumers;
      SplitIfNeeded(bi, b, available, maxSum, sumLimit, false);
      DividedStays(bi, p0, c0, p, c, bi.producers, bi.consumers, cuts, b, available, maxSum, sumLimit, false);
      cuts := cuts + [|bi.producers|];
      b := b + 1;
    }
  }

  //
  // Both sides
  //

  /** Every new barrier belongs to some divided one. */
  lemma {:induction false} FindCut(bi: BarrierInfo, p0: IndexSets, c0: IndexSets, p: IndexSets, c: IndexSets,
                                   cuts: seq<nat>, n: nat, available: nat, maxSum: nat, sumLimit: bool, producers: bool,
                                   j: nat, k: nat)
    returns (b: nat)
    requires bi.ValidConfig() && DividedBelow(bi, p0, c0, p, c, cuts, n, available, maxSum, sumLimit, producers)
    requires k <= n && |p0| <= j < cuts[k]
    ensures b < k && cuts[b] <= j < cuts[b + 1]
  {
    b := k - 1;
    if j < cuts[b] {
      b := FindCut(bi, p0, c0, p, c, cuts, n, available, maxSum, sumLimit, producers, j, b);
    }
  }

  /** Afterwards the side is legal everywhere, and a barrier whose other side was legal before is legal altogether. */
  lemma DividedLegal(bi: BarrierInfo, p0: IndexSets, c0: IndexSets, p: IndexSets, c: IndexSets, available: nat,
                     maxSum: nat, sumLimit: bool, producers: bool, j: nat)
    requires bi.ValidConfig() && AllTasksFit(bi, available) && |p0| == |c0| && j < |p| == |c|
    requires SideDivided(bi, p0, c0, p, c, available, maxSum, sumLimit, producers)
    ensures SideLegal(bi, p[j], c[j], available, maxSum, sumLimit, producers)
    ensures (forall b :: 0 <= b < |p0| ==> SideLegal(bi, p0[b], c0[b], available, maxSum, sumLimit, !producers)) ==>
              Legal(bi, p[j], c[j], available, maxSum, sumLimit)
  {
    SlotSumEmpty(bi.slots, bi.numTasks);
    var n := |p0|;
    var cuts :| DividedBelow(bi, p0, c0, p, c, cuts, n, available, maxSum, sumLimit, producers);
    if j < n {
      assert Divided(bi, p0[j], c0[j], p, c, j, cuts[j], cuts[j + 1], available, maxSum, sumLimit, producers);
    } else {
      var b := FindCut(bi, p0, c0, p, c, cuts, n, available, maxSum, sumLimit, producers, j, n);
      var start, end := cuts[b], cuts[b + 1];
      assert Divided(bi, p0[b], c0[b], p, c, b, start, end, available, maxSum, sumLimit, producers);
      assert AllFit(bi.slots, p0[b], available) && AllFit(bi.slots, c0[b], available);
      assert p[j] == p[start..end][j - start] && c[j] == c[start..end][j - start];
      if SumOk(bi, p0[b], c0[b], maxSum, sumLimit) { assert false; }
    }
  }

  /** The two divisions, one after the other: the barriers that were legal are the ones left as they were. */
  lemma LegalUntouched(bi: BarrierInfo, p0: IndexSets, c0: IndexSets, p1: IndexSets, c1: IndexSets, p: IndexSets,
                       c: IndexSets, available: nat, maxSum: nat, sumLimit: bool, b: nat)
    requires bi.ValidConfig() && b < |p0| == |c0| && |p1| == |c1| && |p| == |c|
    requires SideDivided(bi, p0, c0, p1, c1, available, maxSum, sumLimit, true)
    requires SideDivided(bi, p1, c1, p, c, available, maxSum, sumLimit, false)
    ensures b < |p|
    ensures if Legal(bi, p0[b], c0[b], available, maxSum, sumLimit) then p[b] == p0[b] && c[b] == c0[b]
            else p[b] == {} && c[b] == {}
  {
    SlotSumEmpty(bi.slots, bi.numTasks);
    var n, n1 := |p0|, |p1|;
    var cuts :| DividedBelow(bi, p0, c0, p1, c1, cuts, n, available, maxSum, sumLimit, true);
    var cuts1 :| DividedBelow(bi, p1, c1, p, c, cuts1, n1, available, maxSum, sumLimit, false);
    assert Divided(bi, p0[b], c0[b], p1, c1, b, cuts[b], cuts[b + 1], available, maxSum, sumLimit, true);
    assert Divided(bi, p1[b], c1[b], p, c, b, cuts1[b], cuts1[b + 1], available, maxSum, sumLimit, false);
  }

  /** Each side in turn, producers first. */
  ghost predicate BothDivided(bi: BarrierInfo, p0: IndexSets, c0: IndexSets, p: IndexSets, c: IndexSets, available: nat,
                              maxSum: nat, sumLimit: bool)
    requires bi.ValidConfig() && |p0| == |c0|
  {
    exists p1, c1 :: |p1| == |c1| && SideDivided(bi, p0, c0, p1, c1, available, maxSum, sumLimit, true)
                     && SideDivided(bi, p1, c1, p, c, available, maxSum, sumLimit, false)
  }

  /** `splitBarriersWithExceedingVariantCount`: the task graph is untouched, the barriers left as they were are
      exactly the legal ones, every other barrier gives way to one barrier per greedy batch, and in the end every
      barrier is legal. */
  method SplitExceeding(bi: BarrierInfo, available: nat, maxSum: nat, sumLimit: bool)
    requires bi.Valid() && bi.fifoDeps == []
    modifies bi`producers, bi`consumers, bi`updates, bi`waits, bi`opCount
    ensures bi.Valid() && bi.Graph() == old(bi.Graph()) && |old(bi.producers)| <= |bi.producers|
    ensures forall b :: 0 <= b < old(|bi.producers|) ==>
              if Legal(bi, old(bi.producers)[b], old(bi.consumers)[b], available, maxSum, sumLimit)
              then bi.producers[b] == old(bi.producers)[b] && bi.consumers[b] == old(bi.consumers)[b]
              else bi.producers[b] == {} && bi.consumers[b] == {}
    ensures BothDivided(bi, old(bi.producers), old(bi.consumers), bi.producers, bi.consumers, available, maxSum,
                        sumLimit)
    ensures AllTasksFit(bi, available) ==>
              forall b :: 0 <= b < |bi.producers| ==>
                Legal(bi, bi.producers[b], bi.consumers[b], available, maxSum, sumLimit)
  {
    ghost var p0, c0 := bi.producers, bi.consumers;
    SplitAllProducers(bi, available, maxSum, sumLimit);
    ghost var p1, c1 := bi.producers, bi.consumers;
    SplitAllConsumers(bi, available, maxSum, sumLimit);
    forall b | 0 <= b < |p0|
      ensures b < |bi.producers|
      ensures if Legal(bi, p0[b], c0[b], available, maxSum, sumLimit)
              then bi.producers[b] == p0[b] && bi.consumers[b] == c0[b]
              else bi.producers[b] == {} && bi.consumers[b] == {}
    {
      LegalUntouched(bi, p0, c0, p1, c1, bi.producers, bi.consumers, available, maxSum, sumLimit, b);
    }
    if AllTasksFit(bi, available) {
      forall j | 0 <= j < |p1|
        ensures SideLegal(bi, p1[j], c1[j], available, maxSum, sumLimit, true)
      {
        DividedLegal(bi, p0, c0, p1, c1, available, maxSum, sumLimit, true, j);
      }
      forall j | 0 <= j < |bi.producers|
        ensures Legal(bi, bi.producers[j], bi.consumers[j], available, maxSum, sumLimit)
      {
        DividedLegal(bi, p1, c1, bi.producers, bi.consumers, available, maxSum, sumLimit, false, j);
      }
    }
  }
}
