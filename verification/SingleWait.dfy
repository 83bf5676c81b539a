/** Rewriting of the control graph until every task waits for at most one barrier. */
module SingleWait {
  import opened TaskGraph
  import opened Barriers
  import opened BarrierEdits
  import opened VariantBatches
  import opened BatchChains
  import FifoDependencies

  //
  // Progress measure: tasks with several wait barriers, later tasks weighing more than all earlier ones together
  //

  function Pow2(n: nat): (r: nat)
    ensures r >= 1
  {
    if n == 0 then 1 else 2 * Pow2(n - 1)
  }

  ghost function Weight(waits: IndexSets, n: nat): nat
    requires n <= |waits|
  {
    if n == 0 then 0 else Weight(waits, n - 1) + if |waits[n - 1]| >= 2 then Pow2(n - 1) else 0
  }

  lemma {:induction false} WeightBound(waits: IndexSets, n: nat)
    requires n <= |waits|
    ensures Weight(waits, n) < Pow2(n)
  {
    if n > 0 {
      WeightBound(waits, n - 1);
    }
  }

  /** The weight drops when the last task that changes loses its surplus barriers. */
  lemma {:induction false} WeightDrops(w: IndexSets, w': IndexSets, top: nat, n: nat)
    requires |w| == |w'| && top < n <= |w|
    requires |w[top]| >= 2 && |w'[top]| < 2
    requires forall x :: top < x < |w| ==> w'[x] == w[x]
    ensures Weight(w', n) < Weight(w, n)
  {
    if n == top + 1 {
      WeightBound(w', top);
    } else {
      WeightDrops(w, w', top, n - 1);
    }
  }

  lemma {:induction false} WeightOfSet(w: IndexSets, w': IndexSets, n: nat)
    requires |w| == |w'| && n <= |w|
    requires forall x :: 0 <= x < |w| ==> (|w[x]| >= 2 <==> |w'[x]| >= 2)
    ensures Weight(w, n) == Weight(w', n)
  {
    if n > 0 {
      WeightOfSet(w, w', n - 1);
    }
  }

  //
  // Batches of parallel producers
  //

  /** The parts cover the tasks in order, and if all tasks fit they are legal batches. */
  ghost predicate Division(slots: seq<nat>, parts: seq<set<nat>>, tasks: set<nat>, available: nat)
  {
    && parts != [] && RunsOf(parts, tasks)
    && (AllFit(slots, tasks, available) ==> NoEmptyPart(parts) && PartsWithin(slots, parts, available))
  }

  lemma ConcatRuns(a: seq<set<nat>>, s: set<nat>, b: seq<set<nat>>, t: set<nat>)
    requires RunsOf(a, s) && RunsOf(b, t) && Before(s, t)
    ensures RunsOf(a + b, s + t)
  {
    var c := a + b;
    forall x | x in s + t
      ensures InPart(c, x)
    {
      if x in s {
        assert InPart(a, x);
        var i :| 0 <= i < |a| && x in a[i];
        assert x in c[i];
      } else {
        assert InPart(b, x);
        var i :| 0 <= i < |b| && x in b[i];
        assert x in c[|a| + i];
      }
    }
    forall i, j, x, y | 0 <= i < j < |c| && x in c[i] && y in c[j]
      ensures x < y
    {
      if i < |a| <= j {
        assert a[i] <= s && b[j - |a|] <= t;
      }
    }
  }

  lemma GrowLastRuns(a: seq<set<nat>>, s: set<nat>, t: set<nat>)
    requires a != [] && RunsOf(a, s) && Before(s, t)
    ensures RunsOf(a[|a| - 1 := a[|a| - 1] + t], s + t)
  {
    var last := |a| - 1;
    var c := a[last := a[last] + t];
    forall x | x in s + t
      ensures InPart(c, x)
    {
      if x in s {
        assert InPart(a, x);
        var i :| 0 <= i < |a| && x in a[i];
        assert x in c[i];
      } else {
        assert x in c[last];
      }
    }
    GrowLastOrder(a, s, t);
    assert forall i :: 0 <= i < |a| ==> a[i] <= s;
  }

  lemma GrowLastOrder(a: seq<set<nat>>, s: set<nat>, t: set<nat>)
    requires a != [] && RunsOf(a, s) && Before(s, t)
    ensures var c := a[|a| - 1 := a[|a| - 1] + t];
            forall i, j, x, y :: 0 <= i < j < |c| && x in c[i] && y in c[j] ==> x < y
  {
  }

  /** The producers of one barrier as batches. */
  method BatchesOf(bi: BarrierInfo, tasks: set<nat>, available: nat, byExecutor: bool) returns (batches: seq<set<nat>>)
    requires bi.ValidConfig() && tasks != {} && forall t :: t in tasks ==> t < bi.numTasks
    ensures Division(bi.slots, batches, tasks, available) && LaterNonEmpty(batches)
    ensures batches[0] != {} <==> FirstFits(bi.slots, tasks, available)
    ensures Maximal(bi.slots, Kinds(bi, byExecutor), batches, available)
  {
    if SlotSum(bi.slots, tasks, bi.numTasks) <= available {
      assert forall x :: x in tasks ==> x in [tasks][0];
      WithinFits(bi.slots, tasks, available);
      batches := [tasks];
    } else {
      batches := CreateLegalBatches(bi, tasks, available, byExecutor);
    }
  }

  lemma WithinFits(slots: seq<nat>, tasks: set<nat>, available: nat)
    requires SlotSum(slots, tasks, |slots|) <= available
    ensures FirstFits(slots, tasks, available)
  {
    forall m | 0 <= m < |slots| && IsMin(tasks, m)
      ensures slots[m] <= available
    {
      SingleSum(slots, m);
      SlotSumMono(slots, {m}, tasks, |slots|);
    }
  }

  method MaxEntry(s: set<nat>, n: nat) returns (m: nat)
    requires forall x :: x in s ==> x < n
    ensures if s == {} then m == n else m in s && forall x :: x in s ==> x <= m
  {
    m := n;
    if s != {} {
      ghost var x :| x in s;
      while m !in s
        invariant x <= m && forall y :: y in s ==> y <= m
        decreases m
      {
        m := m - 1;
      }
    }
  }

  method MinEntry(s: set<nat>, n: nat) returns (m: nat)
    requires forall x :: x in s ==> x < n
    ensures if s == {} then m == 0 else IsMin(s, m)
  {
    m := 0;
    if s != {} {
      m := FirstTask(s, n);
    }
  }

  /** All tasks linked to one of the barriers. */
  function UsersOf(producers: IndexSets, barriers: set<nat>): set<nat>
  {
    set b, t | b in barriers && b < |producers| && t in producers[b] :: t
  }

  //
  // Why a batch ends
  //

  /** Task `t` does not fit into the part, or has another executor, or starts the producers of a barrier that do not
      fit into the part as a whole. */
  ghost predicate Forced(bi: BarrierInfo, producers: IndexSets, waits: set<nat>, part: set<nat>, t: nat, available: nat,
                         byExecutor: bool)
  {
    || SlotSum(bi.slots, part + {t}, |bi.slots|) > available
    || Mixed(Kinds(bi, byExecutor), part, t)
    || exists w :: w in waits && w < |producers| && IsMin(producers[w], t) &&
                   SlotSum(bi.slots, part + producers[w], |bi.slots|) > available
  }

  ghost predicate ForcedAt(bi: BarrierInfo, producers: IndexSets, waits: set<nat>, parts: seq<set<nat>>, available: nat,
                           byExecutor: bool, i: nat)
    requires i + 1 < |parts|
  {
    forall t :: IsMin(parts[i + 1], t) ==> Forced(bi, producers, waits, parts[i], t, available, byExecutor)
  }

  /** No batch ends without need. */
  ghost predicate Tight(bi: BarrierInfo, producers: IndexSets, waits: set<nat>, parts: seq<set<nat>>, available: nat,
                        byExecutor: bool)
  {
    forall i :: 0 <= i && i + 1 < |parts| ==> ForcedAt(bi, producers, waits, parts, available, byExecutor, i)
  }

  lemma MaximalTight(bi: BarrierInfo, producers: IndexSets, waits: set<nat>, parts: seq<set<nat>>, available: nat,
                     byExecutor: bool)
    requires Maximal(bi.slots, Kinds(bi, byExecutor), parts, available)
    ensures Tight(bi, producers, waits, parts, available, byExecutor)
  {
    forall i | 0 <= i && i + 1 < |parts|
      ensures ForcedAt(bi, producers, waits, parts, available, byExecutor, i)
    {
      assert FullAt(bi.slots, Kinds(bi, byExecutor), parts, available, i);
    }
  }

  lemma GrowTight(bi: BarrierInfo, producers: IndexSets, waits: set<nat>, a: seq<set<nat>>, s: set<nat>, t: set<nat>,
                  available: nat, byExecutor: bool)
    requires a != [] && a[|a| - 1] != {} && a[|a| - 1] <= s && Before(s, t)
    requires Tight(bi, producers, waits, a, available, byExecutor)
    ensures Tight(bi, producers, waits, a[|a| - 1 := a[|a| - 1] + t], available, byExecutor)
  {
    var c := a[|a| - 1 := a[|a| - 1] + t];
    forall i | 0 <= i && i + 1 < |c|
      ensures ForcedAt(bi, producers, waits, c, available, byExecutor, i)
    {
      assert ForcedAt(bi, producers, waits, a, available, byExecutor, i);
      var next, next' := a[i + 1], c[i + 1];
      forall m | IsMin(next', m)
        ensures IsMin(next, m)
      {
        if i + 2 == |a| { var x := MinOf(next); }
      }
    }
  }

  lemma AppendTight(bi: BarrierInfo, producers: IndexSets, waits: set<nat>, a: seq<set<nat>>, b: seq<set<nat>>, w: nat,
                    available: nat, byExecutor: bool)
    requires a != [] && Tight(bi, producers, waits, a, available, byExecutor)
    requires Maximal(bi.slots, Kinds(bi, byExecutor), b, available) && w in waits && w < |producers|
    requires RunsOf(b, producers[w])
    requires SlotSum(bi.slots, a[|a| - 1] + producers[w], |bi.slots|) > available
    ensures Tight(bi, producers, waits, a + b, available, byExecutor)
  {
    var c := a + b;
    forall i | 0 <= i && i + 1 < |c|
      ensures ForcedAt(bi, producers, waits, c, available, byExecutor, i)
    {
      if i + 1 < |a| {
        assert ForcedAt(bi, producers, waits, a, available, byExecutor, i);
      } else if i + 1 == |a| {
        forall t | IsMin(b[0], t)
          ensures Forced(bi, producers, waits, a[i], t, available, byExecutor)
        {
          FirstOfRuns(b, producers[w], t);
        }
      } else {
        assert FullAt(bi.slots, Kinds(bi, byExecutor), b, available, i - |a|);
      }
    }
  }

  lemma FirstOfRuns(parts: seq<set<nat>>, tasks: set<nat>, t: nat)
    requires RunsOf(parts, tasks) && parts != [] && IsMin(parts[0], t)
    ensures IsMin(tasks, t)
  {
    forall x | x in tasks
      ensures t <= x
    {
      assert InPart(parts, x);
      var i :| 0 <= i < |parts| && x in parts[i];
    }
  }

  /** Batches collected so far: a barrier without producers blocks any further one. */
  ghost predicate BatchState(bi: BarrierInfo, batches: seq<set<nat>>, prevLast: nat, tasks: set<nat>, available: nat)
  {
    || (batches == [{}] && tasks == {} && prevLast == bi.numTasks)
    || (Division(bi.slots, batches, tasks, available) && batches[|batches| - 1] != {} &&
        forall x :: x in tasks ==> x <= prevLast)
  }

  /** The same, once a second barrier has been taken in. */
  ghost predicate BatchesSoFar(bi: BarrierInfo, batches: seq<set<nat>>, prevLast: nat, tasks: set<nat>, available: nat,
                               several: bool)
  {
    && batches != [] && BatchState(bi, batches, prevLast, tasks, available)
    && (several ==> Division(bi.slots, batches, tasks, available))
  }

  /** Batches for the producers of the first barrier. */
  method StartBatches(bi: BarrierInfo, tasks: set<nat>, available: nat, byExecutor: bool)
    returns (batches: seq<set<nat>>, last: nat)
    requires bi.ValidConfig() && forall t :: t in tasks ==> t < bi.numTasks
    ensures batches != [] && BatchState(bi, batches, last, tasks, available) && LaterNonEmpty(batches)
    ensures Maximal(bi.slots, Kinds(bi, byExecutor), batches, available)
  {
    last := MaxEntry(tasks, bi.numTasks);
    if tasks == {} {
      batches := [{}];
    } else {
      batches := BatchesOf(bi, tasks, available, byExecutor);
      LastHolds(batches, tasks);
    }
  }

  lemma LastHolds(batches: seq<set<nat>>, tasks: set<nat>)
    requires RunsOf(batches, tasks) && batches != [] && LaterNonEmpty(batches) && tasks != {}
    ensures batches[|batches| - 1] != {}
  {
    var x :| x in tasks;
    assert InPart(batches, x);
    assert |batches| > 1 ==> Occupied(batches[|batches| - 1]);
  }

  /** Adds the producers of a further barrier, if they all come after the tasks batched so far. This puts an empty batch
      in between exactly if they do not fit into the last batch and the first of them does not fit at all. */
  method ExtendBatches(bi: BarrierInfo, batches: seq<set<nat>>, prevLast: nat, tasks: set<nat>, available: nat,
                       byExecutor: bool, ghost s: set<nat>, ghost producers: IndexSets, ghost waits: set<nat>,
                       ghost w: nat) returns (ok: bool, batches': seq<set<nat>>, last: nat, ghost s': set<nat>)
    requires bi.ValidConfig() && batches != [] && BatchState(bi, batches, prevLast, s, available)
    requires w in waits && w < |producers| && tasks == producers[w]
    requires Tight(bi, producers, waits, batches, available, byExecutor)
    requires forall t :: t in tasks ==> t < bi.numTasks
    ensures s' == s + tasks && (ok ==> BatchesSoFar(bi, batches', last, s', available, true))
    ensures ok ==> Tight(bi, producers, waits, batches', available, byExecutor)
    ensures ok && LaterNonEmpty(batches) ==>
              (LaterNonEmpty(batches') <==>
               SlotSum(bi.slots, batches[|batches| - 1] + tasks, |bi.slots|) <= available ||
               FirstFits(bi.slots, tasks, available))
  {
    s' := s + tasks;
    var first := MinEntry(tasks, bi.numTasks);
    if prevLast >= first {
      return false, batches, prevLast, s';
    }
    ok := true;
    assert Before(s, tasks);
    last := MaxEntry(tasks, bi.numTasks);
    var joined := batches[|batches| - 1] + tasks;
    if SlotSum(bi.slots, joined, bi.numTasks) <= available {
      GrowDivision(bi.slots, batches, s, tasks, available);
      GrowTight(bi, producers, waits, batches, s, tasks, available, byExecutor);
      batches' := batches[|batches| - 1 := joined];
    } else {
      var more := BatchesOf(bi, tasks, available, byExecutor);
      AppendDivision(bi.slots, batches, s, more, tasks, available);
      AppendTight(bi, producers, waits, batches, more, w, available, byExecutor);
      LastHolds(more, tasks);
      batches' := batches + more;
    }
  }

  lemma GrowDivision(slots: seq<nat>, a: seq<set<nat>>, s: set<nat>, t: set<nat>, available: nat)
    requires Division(slots, a, s, available) && Before(s, t)
    requires SlotSum(slots, a[|a| - 1] + t, |slots|) <= available
    ensures var c := a[|a| - 1 := a[|a| - 1] + t];
            Division(slots, c, s + t, available) && (LaterNonEmpty(a) ==> LaterNonEmpty(c))
  {
    GrowLastRuns(a, s, t);
    if LaterNonEmpty(a) { LastGrows(a, t); }
    if AllFit(slots, s, available) { GrowLegal(slots, a, t, available); }
  }

  lemma GrowLegal(slots: seq<nat>, a: seq<set<nat>>, t: set<nat>, available: nat)
    requires a != [] && NoEmptyPart(a) && PartsWithin(slots, a, available)
    requires SlotSum(slots, a[|a| - 1] + t, |slots|) <= available
    ensures NoEmptyPart(a[|a| - 1 := a[|a| - 1] + t]) && PartsWithin(slots, a[|a| - 1 := a[|a| - 1] + t], available)
  {
  }

  lemma AppendDivision(slots: seq<nat>, a: seq<set<nat>>, s: set<nat>, b: seq<set<nat>>, t: set<nat>, available: nat)
    requires Division(slots, a, s, available) && Division(slots, b, t, available) && Before(s, t) && LaterNonEmpty(b)
    ensures Division(slots, a + b, s + t, available)
    ensures LaterNonEmpty(a) ==> (LaterNonEmpty(a + b) <==> b[0] != {})
  {
    ConcatRuns(a, s, b, t);
    if LaterNonEmpty(a) { LaterAppended(a, b); }
  }

  lemma LastGrows(a: seq<set<nat>>, t: set<nat>)
    requires a != [] && LaterNonEmpty(a)
    ensures LaterNonEmpty(a[|a| - 1 := a[|a| - 1] + t])
  {
    assert |a| > 1 ==> Occupied(a[|a| - 1]);
    forall i {:trigger Occupied(a[|a| - 1 := a[|a| - 1] + t][i])} | 0 < i < |a|
      ensures Occupied(a[|a| - 1 := a[|a| - 1] + t][i])
    {
      assert Occupied(a[i]);
    }
  }

  lemma LaterAppended(a: seq<set<nat>>, b: seq<set<nat>>)
    requires a != [] && b != [] && LaterNonEmpty(a) && LaterNonEmpty(b)
    ensures LaterNonEmpty(a + b) <==> b[0] != {}
  {
    var c := a + b;
    assert c[|a|] == b[0];
    if b[0] != {} {
      forall i {:trigger Occupied(c[i])} | 0 < i < |c|
        ensures Occupied(c[i])
      {
        if i < |a| { assert Occupied(a[i]); }
        if i > |a| { assert Occupied(b[i - |a|]); }
      }
    } else {
      assert !Occupied(c[|a|]);
    }
  }

  lemma ProducersSplit(producers: IndexSets, waits: set<nat>, rest: set<nat>, w: nat)
    requires w < |producers| && w in rest && rest <= waits
    ensures UsersOf(producers, waits - (rest - {w})) == UsersOf(producers, waits - rest) + producers[w]
    ensures rest == waits ==> UsersOf(producers, waits - rest) == {}
  {
    assert waits - (rest - {w}) == (waits - rest) + {w};
  }

  /** The first producer of each barrier fits. */
  ghost predicate Smooth(slots: seq<nat>, producers: IndexSets, waits: set<nat>, available: nat)
  {
    forall b :: b in waits && b < |producers| ==> FirstFits(slots, producers[b], available)
  }

  /** `createProducerBatches`: reuses the existing barriers as batches if their producers come one after the other;
      otherwise there is no result. */
  method ProducerBatches(bi: BarrierInfo, waits: set<nat>, available: nat, byExecutor: bool)
    returns (batches: seq<set<nat>>)
    requires bi.Valid() && |waits| >= 2 && (forall b :: b in waits ==> b < |bi.producers|)
    ensures batches == [] || Division(bi.slots, batches, UsersOf(bi.producers, waits), available)
    ensures Smooth(bi.slots, bi.producers, waits, available) ==> LaterNonEmpty(batches)
    ensures Tight(bi, bi.producers, waits, batches, available, byExecutor)
  {
    var w :| w in waits;
    assert waits != {w};
    var rest := waits - {w};
    ProducersSplit(bi.producers, waits, waits, w);
    var last;
    batches, last := StartBatches(bi, bi.producers[w], available, byExecutor);
    MaximalTight(bi, bi.producers, waits, batches, available, byExecutor);
    ghost var users, several := bi.producers[w], false;
    while rest != {}
      invariant rest <= waits && users == UsersOf(bi.producers, waits - rest) && (several || rest != {})
      invariant BatchesSoFar(bi, batches, last, users, available, several)
      invariant Tight(bi, bi.producers, waits, batches, available, byExecutor)
      invariant Smooth(bi.slots, bi.producers, waits, available) ==> LaterNonEmpty(batches)
      decreases rest
    {
      w :| w in rest;
      ProducersSplit(bi.producers, waits, rest, w);
      var ok;
      ok, batches, last, users := ExtendBatches(bi, batches, last, bi.producers[w], available, byExecutor, users,
                                                bi.producers, waits, w);
      if !ok {
        return [];
      }
      rest, several := rest - {w}, true;
    }
    assert waits - rest == waits;
  }

  //
  // Chains of barriers
  //

  /** What waits for batch `i` of a chain that ends in `last`. */
  function Next(batches: seq<set<nat>>, last: set<nat>, i: nat): set<nat>
    requires i < |batches|
  {
    if i + 1 < |batches| then batches[i + 1] else last
  }

  /** Producers of the barriers between the batches, last barrier first. */
  ghost function ChainProducers(batches: seq<set<nat>>, i: nat): IndexSets
    requires i <= |batches|
    decreases |batches| - i
  {
    if i == |batches| then [] else ChainProducers(batches, i + 1) + [batches[i]]
  }

  ghost function ChainConsumers(batches: seq<set<nat>>, last: set<nat>, i: nat): (r: IndexSets)
    requires i <= |batches|
    ensures |r| == |batches| - i
    ensures forall j :: 0 <= j < |r| ==> r[j] == Next(batches, last, |batches| - 1 - j)
    decreases |batches| - i
  {
    if i == |batches| then [] else ChainConsumers(batches, last, i + 1) + [Next(batches, last, i)]
  }

  lemma {:induction false} ChainProducersAt(batches: seq<set<nat>>, i: nat)
    requires i <= |batches|
    ensures |ChainProducers(batches, i)| == |batches| - i
    ensures forall j :: 0 <= j < |batches| - i ==> ChainProducers(batches, i)[j] == batches[|batches| - 1 - j]
    decreases |batches| - i
  {
    if i < |batches| {
      ChainProducersAt(batches, i + 1);
    }
  }

  /** The barriers created so far enforce the links from batch `i` on. */
  lemma {:induction false} ChainGraph(p: IndexSets, c: IndexSets, batches: seq<set<nat>>, last: set<nat>, i: nat)
    requires |p| == |c| && i <= |batches|
    ensures |ChainProducers(batches, i)| == |ChainConsumers(batches, last, i)|
    ensures BarrierEdges(p + ChainProducers(batches, i), c + ChainConsumers(batches, last, i))
            == BarrierEdges(p, c) + Links(batches + [last], i, |batches| + 1)
    decreases |batches| - i
  {
    ChainProducersAt(batches, i);
    if i == |batches| {
      assert p + [] == p && c + [] == c;
    } else {
      ChainGraph(p, c, batches, last, i + 1);
      var p', c' := p + ChainProducers(batches, i + 1), c + ChainConsumers(batches, last, i + 1);
      AppendEdges(p', c', batches[i], Next(batches, last, i));
      assert p + ChainProducers(batches, i) == p' + [batches[i]];
      assert c + ChainConsumers(batches, last, i) == c' + [Next(batches, last, i)];
      LinksFirst(batches + [last], i, |batches| + 1);
    }
  }

  /** Every task of the batches precedes every task at the end of the chain, if no batch but the first is empty. */
  lemma BatchesPrecede(batches: seq<set<nat>>, tasks: set<nat>, last: set<nat>, x: nat, y: nat)
    requires RunsOf(batches, tasks) && LaterNonEmpty(batches) && x in tasks && y in last
    ensures Reach(Chain(batches + [last]), x, y)
  {
    var parts := batches + [last];
    assert InPart(batches, x);
    var i :| 0 <= i < |batches| && x in batches[i];
    forall k {:trigger Occupied(parts[k])} | i < k < |batches| && k < |parts|
      ensures Occupied(parts[k])
    {
      assert Occupied(batches[k]);
    }
    ChainReach(parts, i, |batches|, x, y);
  }

  /** The exact condition under which a chain keeps all order between the batches and its end: no empty batch comes
      after one that holds a task. */
  lemma ChainKeepsAll(batches: seq<set<nat>>, tasks: set<nat>, last: set<nat>)
    requires RunsOf(batches, tasks) && Before(tasks, last) && last != {}
    ensures (forall x, y :: x in tasks && y in last ==> Reach(Chain(batches + [last]), x, y))
            <==> forall i :: 0 <= i < |batches| && Occupied(batches[i]) ==> Unbroken(batches, i, |batches|)
  {
    var parts := batches + [last];
    BatchesAscend(batches, tasks, last);
    forall i, x, y | 0 <= i < |batches| && x in batches[i] && y in last
      ensures x in tasks && (Reach(Chain(parts), x, y) <==> Unbroken(batches, i, |batches|))
    {
      assert batches[i] <= tasks;
      ChainOrder(parts, i, |batches|, x, y);
      SameParts(batches, last, i);
    }
    assert forall x :: x in tasks ==> InPart(batches, x);
    if forall x, y :: x in tasks && y in last ==> Reach(Chain(parts), x, y) {
      forall i | 0 <= i < |batches| && Occupied(batches[i])
        ensures Unbroken(batches, i, |batches|)
      {
        var x, y :| x in batches[i] && y in last;
      }
    }
  }

  lemma SameParts(batches: seq<set<nat>>, last: set<nat>, i: nat)
    ensures Unbroken(batches + [last], i, |batches|) <==> Unbroken(batches, i, |batches|)
  {
    assert forall k {:trigger Occupied(batches[k])} :: 0 <= k < |batches| ==> (batches + [last])[k] == batches[k];
    if Unbroken(batches + [last], i, |batches|) {
      forall k {:trigger Occupied(batches[k])} | i < k < |batches|
        ensures Occupied(batches[k])
      {
        assert Occupied((batches + [last])[k]);
      }
    }
    if Unbroken(batches, i, |batches|) {
      var parts := batches + [last];
      forall k {:trigger Occupied(parts[k])} | i < k < |batches| && k < |parts|
        ensures Occupied(parts[k])
      {
        assert Occupied(batches[k]);
      }
    }
  }

  lemma BatchesAscend(batches: seq<set<nat>>, tasks: set<nat>, last: set<nat>)
    requires RunsOf(batches, tasks) && Before(tasks, last)
    ensures PartsAscending(batches + [last])
  {
    var parts := batches + [last];
    forall i, j | 0 <= i < j < |parts|
      ensures Before(parts[i], parts[j])
    {
      assert parts[i] == batches[i] <= tasks;
      if j < |batches| { assert parts[j] == batches[j]; }
    }
  }

  /** `linearizeLegalParallelProducers`: a barrier between any two successive batches, the last one in front of `last`.
      */
  method AddChain(bi: BarrierInfo, batches: seq<set<nat>>, last: set<nat>, ghost tasks: set<nat>)
    requires bi.Valid() && bi.fifoDeps == [] && RunsOf(batches, tasks)
    requires forall t :: t in tasks || t in last ==> t < bi.numTasks
    modifies bi`producers, bi`consumers, bi`updates, bi`waits, bi`opCount
    ensures bi.Valid()
    ensures bi.producers == old(bi.producers) + ChainProducers(batches, 0)
    ensures bi.consumers == old(bi.consumers) + ChainConsumers(batches, last, 0)
  {
    ghost var p0, c0 := bi.producers, bi.consumers;
    var next := last;
    var i := |batches|;
    assert p0 + [] == p0 && c0 + [] == c0;
    while i > 0
      invariant 0 <= i <= |batches| && bi.Valid() && bi.fifoDeps == []
      invariant next == if i == |batches| then last else batches[i]
      invariant bi.producers == p0 + ChainProducers(batches, i) && bi.consumers == c0 + ChainConsumers(batches, last, i)
    {
      i := i - 1;
      assert batches[i] <= tasks && next == Next(batches, last, i);
      AddBarrier(bi, batches[i], next);
      ChainStep(p0, c0, batches, last, i);
      next := batches[i];
    }
  }

  lemma ChainStep(p: IndexSets, c: IndexSets, batches: seq<set<nat>>, last: set<nat>, i: nat)
    requires i < |batches|
    ensures p + ChainProducers(batches, i) == p + ChainProducers(batches, i + 1) + [batches[i]]
    ensures c + ChainConsumers(batches, last, i) == c + ChainConsumers(batches, last, i + 1) + [Next(batches, last, i)]
  {
  }

  //
  // Parallel consumers
  //

  /** The tasks of the set that wait for exactly these barriers. */
  ghost function WithWaits(rows: IndexSets, tasks: set<nat>, waits: set<nat>): set<nat>
  {
    set t | t in tasks && t < |rows| && rows[t] == waits
  }

  /** All tasks are chosen, or one that is not would exceed the limit. */
  ghost predicate AsManyAsFit(slots: seq<nat>, chosen: set<nat>, tasks: set<nat>, limit: nat)
  {
    && chosen <= tasks && SlotSum(slots, chosen, |slots|) <= limit
    && (chosen == tasks || exists t :: t in tasks - chosen && SlotSum(slots, chosen + {t}, |slots|) > limit)
  }

  /** Consumers with exactly the wait barriers `waits`, as many as fit, in whatever order the set is iterated. */
  method SelectConsumers(bi: BarrierInfo, waits: set<nat>, candidates: set<nat>, available: nat)
    returns (chosen: set<nat>)
    requires bi.Valid() && forall t :: t in candidates ==> t < bi.numTasks
    ensures chosen <= candidates && forall t :: t in chosen ==> bi.waits[t] == waits
    ensures SlotSum(bi.slots, chosen, bi.numTasks) <= available && AllFit(bi.slots, chosen, available)
    ensures var same := WithWaits(bi.waits, candidates, waits);
            AllFit(bi.slots, same, available) && same != {} ==> chosen != {}
    ensures AsManyAsFit(bi.slots, chosen, WithWaits(bi.waits, candidates, waits), available)
  {
    chosen := {};
    var count, rest := 0, candidates;
    SlotSumEmpty(bi.slots, bi.numTasks);
    while rest != {}
      invariant rest <= candidates && chosen <= candidates - rest && forall t :: t in chosen ==> bi.waits[t] == waits
      invariant count == SlotSum(bi.slots, chosen, bi.numTasks) <= available && AllFit(bi.slots, chosen, available)
      invariant chosen == WithWaits(bi.waits, candidates - rest, waits)
      decreases rest
    {
      var t :| t in rest;
      rest := rest - {t};
      if bi.waits[t] == waits {
        SlotSumAdd(bi.slots, chosen, t, bi.numTasks);
        if count + bi.slots[t] > available {
          assert t in WithWaits(bi.waits, candidates, waits) - chosen;
          return;
        }
        chosen, count := chosen + {t}, count + bi.slots[t];
      }
    }
  }

  lemma SameSizeSubset(a: set<nat>, b: set<nat>)
    requires a <= b && |a| == |b|
    ensures a == b
  {
    if x :| x in b && x !in a {
      FifoDependencies.SubsetSize(a, b - {x});
    }
  }

  lemma ProperSubset(a: set<nat>, b: set<nat>)
    requires a <= b && |a| != |b|
    ensures b - a != {}
  {
    assert !(b <= a) by { assert b <= a ==> b == a; }
    var x :| x in b && x !in a;
    assert x in b - a;
  }

  /** The tasks no longer wait for the barriers; a barrier left without consumers is emptied. */
  ghost predicate Unlinked(p: IndexSets, c: IndexSets, p0: IndexSets, c0: IndexSets, waits: set<nat>, tasks: set<nat>)
  {
    && |p| == |c| == |p0| == |c0|
    && (forall b :: 0 <= b < |p| ==> c[b] == if b in waits then c0[b] - tasks else c0[b])
    && (forall b :: 0 <= b < |p| ==> p[b] == if b in waits && c[b] == {} then {} else p0[b])
  }

  method Unlink(bi: BarrierInfo, waits: set<nat>, tasks: set<nat>)
    requires bi.Valid() && tasks != {} && forall t :: t in tasks ==> t < bi.numTasks
    requires forall b :: b in waits ==> b < |bi.consumers| && tasks <= bi.consumers[b]
    modifies bi`producers, bi`consumers, bi`updates, bi`waits
    ensures bi.Valid() && Unlinked(bi.producers, bi.consumers, old(bi.producers), old(bi.consumers), waits, tasks)
  {
    var done, rest := {}, waits;
    while rest != {}
      invariant done + rest == waits && done !! rest && bi.Valid()
      invariant Unlinked(bi.producers, bi.consumers, old(bi.producers), old(bi.consumers), done, tasks)
      decreases rest
    {
      var w :| w in rest;
      if |bi.consumers[w]| == |tasks| {
        SameSizeSubset(tasks, bi.consumers[w]);
        bi.ResetBarrier(w);
      } else {
        ProperSubset(tasks, bi.consumers[w]);
        bi.RemoveConsumers(w, tasks);
      }
      done, rest := done + {w}, rest - {w};
    }
    assert done == waits;
  }

  /** Unlinking loses no edges but those from the barriers' producers to the unlinked tasks. */
  lemma UnlinkedEdges(p: IndexSets, c: IndexSets, p0: IndexSets, c0: IndexSets, waits: set<nat>, tasks: set<nat>)
    requires Unlinked(p, c, p0, c0, waits, tasks)
    ensures BarrierEdges(p, c) <= BarrierEdges(p0, c0)
    ensures forall x, y :: (x, y) in BarrierEdges(p0, c0) && !(x in UsersOf(p0, waits) && y in tasks) ==>
              (x, y) in BarrierEdges(p, c)
  {
  }

  //
  // One task
  //

  /** Links `tasks` to `last` through new barriers between `batches`. */
  ghost predicate Chained(p: IndexSets, c: IndexSets, p0: IndexSets, c0: IndexSets, batches: seq<set<nat>>,
                          tasks: set<nat>, last: set<nat>)
  {
    && |p0| == |c0| && batches != [] && RunsOf(batches, tasks) && Before(tasks, last)
    && p == p0 + ChainProducers(batches, 0) && c == c0 + ChainConsumers(batches, last, 0)
  }

  ghost predicate ChainWithin(slots: seq<nat>, batches: seq<set<nat>>, last: set<nat>, limit: nat)
  {
    forall i :: 0 <= i < |batches| ==>
      SlotSum(slots, batches[i], |slots|) + SlotSum(slots, Next(batches, last, i), |slots|) <= limit
  }

  /** `mergeLegalParallelProducers` */
  method MergeProducers(bi: BarrierInfo, tasks: set<nat>, last: set<nat>) returns (batches: seq<set<nat>>)
    requires bi.Valid() && bi.fifoDeps == [] && Before(tasks, last)
    requires forall t :: t in tasks || t in last ==> t < bi.numTasks
    modifies bi`producers, bi`consumers, bi`updates, bi`waits, bi`opCount
    ensures bi.Valid()
    ensures Chained(bi.producers, bi.consumers, old(bi.producers), old(bi.consumers), batches, tasks, last)
    ensures batches == [tasks]
  {
    batches := [tasks];
    assert forall t :: t in tasks ==> t in batches[0];
    AddBarrier(bi, tasks, last);
    ChainStep([], [], batches, last, 0);
    assert ChainProducers(batches, 0) == [tasks] && ChainConsumers(batches, last, 0) == [last];
  }

  /** Batches of the parallel producers, from the existing barriers where possible. */
  method ParallelBatches(bi: BarrierInfo, waits: set<nat>, tasks: set<nat>, available: nat, byExecutor: bool)
    returns (batches: seq<set<nat>>)
    requires bi.Valid() && |waits| >= 2 && (forall b :: b in waits ==> b < |bi.producers|)
    requires tasks == UsersOf(bi.producers, waits) && tasks != {}
    ensures Division(bi.slots, batches, tasks, available)
    ensures Smooth(bi.slots, bi.producers, waits, available) ==> LaterNonEmpty(batches)
    ensures Tight(bi, bi.producers, waits, batches, available, byExecutor)
  {
    batches := ProducerBatches(bi, waits, available, byExecutor);
    if batches == [] {
      batches := CreateLegalBatches(bi, tasks, available, byExecutor);
      MaximalTight(bi, bi.producers, waits, batches, available, byExecutor);
    }
  }

  /** Merges the parallel producers into one barrier if their slots allow it and linearizes them otherwise. */
  method Rewire(bi: BarrierInfo, waits: set<nat>, tasks: set<nat>, last: set<nat>, available: nat, forLast: nat,
                byExecutor: bool) returns (batches: seq<set<nat>>)
    requires bi.Valid() && bi.fifoDeps == [] && |waits| >= 2 && (forall b :: b in waits ==> b < |bi.producers|)
    requires tasks == UsersOf(bi.producers, waits) && Before(tasks, last) && forall t :: t in last ==> t < bi.numTasks
    requires SlotSum(bi.slots, last, bi.numTasks) <= forLast <= 2 * available
    requires SlotSum(bi.slots, tasks, bi.numTasks) > 2 * available - forLast ==> forLast == available
    modifies bi`producers, bi`consumers, bi`updates, bi`waits, bi`opCount
    ensures bi.Valid()
    ensures Chained(bi.producers, bi.consumers, old(bi.producers), old(bi.consumers), batches, tasks, last)
    ensures AllFit(bi.slots, tasks, available) ==> ChainWithin(bi.slots, batches, last, 2 * available)
    ensures Smooth(bi.slots, old(bi.producers), waits, available) ==> LaterNonEmpty(batches)
    ensures SlotSum(bi.slots, tasks, bi.numTasks) <= 2 * available - forLast ==> batches == [tasks]
    ensures Tight(bi, old(bi.producers), waits, batches, available, byExecutor)
  {
    UsersInRange(bi, waits);
    SlotSumEmpty(bi.slots, bi.numTasks);
    if SlotSum(bi.slots, tasks, bi.numTasks) <= 2 * available - forLast {
      batches := MergeProducers(bi, tasks, last);
    } else {
      batches := ParallelBatches(bi, waits, tasks, available, byExecutor);
      AddChain(bi, batches, last, tasks);
    }
  }

  lemma UsersInRange(bi: BarrierInfo, waits: set<nat>)
    requires bi.Valid()
    ensures forall t :: t in UsersOf(bi.producers, waits) ==> t < bi.numTasks
    ensures forall t :: t in UsersOf(bi.consumers, waits) ==> t < bi.numTasks
  {
  }

  lemma ChainUsers(p0: IndexSets, more: IndexSets, waits: set<nat>)
    requires forall b :: b in waits ==> b < |p0|
    ensures UsersOf(p0 + more, waits) == UsersOf(p0, waits)
  {
    forall t | t in UsersOf(p0, waits)
      ensures t in UsersOf(p0 + more, waits)
    {
      var b :| b in waits && b < |p0| && t in p0[b];
      assert t in (p0 + more)[b];
    }
  }

  /** Only edges from the producers to the moved tasks go away, and the chain replaces these unless it is broken. */
  lemma EliminatedOrder(p2: IndexSets, c2: IndexSets, p1: IndexSets, c1: IndexSets, p0: IndexSets, c0: IndexSets,
                        batches: seq<set<nat>>, waits: set<nat>, tasks: set<nat>, last: set<nat>)
    requires Chained(p1, c1, p0, c0, batches, tasks, last) && Unlinked(p2, c2, p1, c1, waits, last)
    requires (forall b :: b in waits ==> b < |p0|) && tasks == UsersOf(p0, waits) && Forward(BarrierEdges(p0, c0))
    ensures Forward(BarrierEdges(p2, c2))
    ensures LaterNonEmpty(batches) ==> KeepsOrder(BarrierEdges(p0, c0), BarrierEdges(p2, c2))
  {
    var g0, g2, chain := BarrierEdges(p0, c0), BarrierEdges(p2, c2), Chain(batches + [last]);
    ChainGraph(p0, c0, batches, last, 0);
    BatchesAscend(batches, tasks, last);
    AscendingForward(batches + [last]);
    ChainUsers(p0, ChainProducers(batches, 0), waits);
    UnlinkedEdges(p2, c2, p1, c1, waits, last);
    if LaterNonEmpty(batches) {
      ChainSurvives(p2, c2, p1, c1, p0, c0, batches, waits, tasks, last);
      SubsetKeepsOrder(chain, g2);
      forall x, y | (x, y) in g0
        ensures Reach(g2, x, y)
      {
        if x in tasks && y in last {
          BatchesPrecede(batches, tasks, last, x, y);
        } else {
          EdgeReach(g2, x, y);
        }
      }
      EdgesKeepOrder(g0, g2);
    }
  }

  lemma ChainSurvives(p2: IndexSets, c2: IndexSets, p1: IndexSets, c1: IndexSets, p0: IndexSets, c0: IndexSets,
                      batches: seq<set<nat>>, waits: set<nat>, tasks: set<nat>, last: set<nat>)
    requires Chained(p1, c1, p0, c0, batches, tasks, last) && Unlinked(p2, c2, p1, c1, waits, last)
    requires forall b :: b in waits ==> b < |p0|
    ensures Chain(batches + [last]) <= BarrierEdges(p2, c2)
  {
    ChainGraph([], [], batches, last, 0);
    var cp, cc := ChainProducers(batches, 0), ChainConsumers(batches, last, 0);
    assert [] + cp == cp && [] + cc == cc;
    forall e | e in Chain(batches + [last])
      ensures e in BarrierEdges(p2, c2)
    {
      assert e in BarrierEdges(cp, cc);
      var b :| 0 <= b < |cp| && e.0 in cp[b] && e.1 in cc[b];
      assert p2[|p0| + b] == cp[b] && c2[|p0| + b] == cc[b];
    }
  }

  /** The moved tasks end up with one wait barrier; later tasks are not affected at all. */
  lemma EliminatedWaits(p2: IndexSets, c2: IndexSets, p1: IndexSets, c1: IndexSets, p0: IndexSets, c0: IndexSets,
                        w0: IndexSets, w2: IndexSets, batches: seq<set<nat>>, waits: set<nat>, tasks: set<nat>,
                        last: set<nat>, top: nat)
    requires Chained(p1, c1, p0, c0, batches, tasks, last) && Unlinked(p2, c2, p1, c1, waits, last)
    requires |w0| == |w2| && Inverse(w0, c0) && Inverse(w2, c2) && forall b :: b in waits ==> b < |p0|
    requires top in last && top < |w0| && w0[top] == waits && forall x :: x in last ==> x <= top
    ensures w2[top] == {|p0|}
    ensures forall x :: top < x < |w0| ==> w2[x] == w0[x]
  {
    forall x | top <= x < |w0|
      ensures w2[x] == if x == top then {|p0|} else w0[x]
    {
      forall b
        ensures b in w2[x] <==> b in if x == top then {|p0|} else w0[x]
      {
        if 0 <= b < |p0| {
          assert b in w2[x] <==> x in c2[b];
          assert b in w0[x] <==> x in c0[b];
          assert c1[b] == c0[b];
        } else if |p0| <= b < |p2| {
          ChainUser(c0, batches, tasks, last, b - |p0|, x);
          assert c2[b] == c1[b] == ChainConsumers(batches, last, 0)[b - |p0|];
          assert b in w2[x] <==> x in c2[b];
          assert b !in w0[x];
        }
      }
    }
  }

  lemma ChainUser(c0: IndexSets, batches: seq<set<nat>>, tasks: set<nat>, last: set<nat>, j: nat, x: nat)
    requires RunsOf(batches, tasks) && Before(tasks, last) && j < |batches|
    requires exists y :: y in last && y <= x
    ensures x in ChainConsumers(batches, last, 0)[j] <==> j == 0 && x in last
  {
  }

  /** Barriers from `from` on use at most `limit` slots. */
  ghost predicate CreatedWithin(slots: seq<nat>, p: IndexSets, c: IndexSets, from: nat, limit: nat)
  {
    |p| == |c| && forall b :: from <= b < |p| ==> SlotSum(slots, p[b], |slots|) + SlotSum(slots, c[b], |slots|) <= limit
  }

  lemma EliminatedSlots(slots: seq<nat>, p2: IndexSets, c2: IndexSets, p1: IndexSets, c1: IndexSets, p0: IndexSets,
                        c0: IndexSets, batches: seq<set<nat>>, waits: set<nat>, tasks: set<nat>, last: set<nat>,
                        from: nat, limit: nat)
    requires Chained(p1, c1, p0, c0, batches, tasks, last) && Unlinked(p2, c2, p1, c1, waits, last)
    requires (forall b :: b in waits ==> b < |p0|) && ChainWithin(slots, batches, last, limit)
    requires CreatedWithin(slots, p0, c0, from, limit)
    ensures CreatedWithin(slots, p2, c2, from, limit)
  {
    ChainProducersAt(batches, 0);
    forall b | from <= b < |p2|
      ensures SlotSum(slots, p2[b], |slots|) + SlotSum(slots, c2[b], |slots|) <= limit
    {
      if b < |p0| {
        SlotSumMono(slots, p2[b], p0[b], |slots|);
        SlotSumMono(slots, c2[b], c0[b], |slots|);
      } else {
        var i := |batches| - 1 - (b - |p0|);
        assert p2[b] == batches[i] && c2[b] == Next(batches, last, i);
      }
    }
  }

  /** The producers leave room for the consumers: they take the even share at most or, with `uneven`, every consumer
      fits into what they leave of both shares. */
  ghost predicate Mergeable(bi: BarrierInfo, consumers: set<nat>, producers: set<nat>, available: nat, uneven: bool)
    requires bi.ValidConfig()
  {
    var used := SlotSum(bi.slots, producers, bi.numTasks);
    used <= available || (uneven && used < 2 * available && AllFit(bi.slots, consumers, 2 * available - used))
  }

  /** The even share or, if all consumers fit into it, what the producers leave of both shares. */
  ghost function ConsumerSlots(bi: BarrierInfo, consumers: set<nat>, producers: set<nat>, available: nat,
                               uneven: bool): nat
    requires bi.ValidConfig()
  {
    var used := SlotSum(bi.slots, producers, bi.numTasks);
    if uneven && used < 2 * available && AllFit(bi.slots, consumers, 2 * available - used) then 2 * available - used
    else available
  }

  /** Slots given to the consumers: the even share or, with `uneven`, whatever the producers leave if every consumer
      fits in that. */
  method ConsumerShare(bi: BarrierInfo, waits: set<nat>, tasks: set<nat>, consumers: set<nat>, available: nat,
                       uneven: bool)
    returns (forLast: nat)
    requires bi.Valid() && forall t :: t in consumers ==> t < bi.numTasks
    ensures forLast <= 2 * available
    ensures SlotSum(bi.slots, tasks, bi.numTasks) > 2 * available - forLast ==> forLast == available
    ensures AllFit(bi.slots, WithWaits(bi.waits, consumers, waits), available) ==>
              AllFit(bi.slots, WithWaits(bi.waits, consumers, waits), forLast)
    ensures SlotSum(bi.slots, tasks, bi.numTasks) <= 2 * available - forLast <==>
              Mergeable(bi, WithWaits(bi.waits, consumers, waits), tasks, available, uneven)
    ensures forLast == ConsumerSlots(bi, WithWaits(bi.waits, consumers, waits), tasks, available, uneven)
  {
    forLast := available;
    var used := SlotSum(bi.slots, tasks, bi.numTasks);
    if uneven && used < 2 * available {
      if forall t :: t in consumers ==> bi.waits[t] != waits || bi.slots[t] <= 2 * available - used {
        forLast := 2 * available - used;
      }
    }
  }

  /** Every producer of every barrier fits. */
  ghost predicate ProducersFit(slots: seq<nat>, p: IndexSets, available: nat)
  {
    forall b :: 0 <= b < |p| ==> AllFit(slots, p[b], available)
  }

  lemma EliminatedFit(slots: seq<nat>, p2: IndexSets, c2: IndexSets, p1: IndexSets, c1: IndexSets, p0: IndexSets,
                      c0: IndexSets, batches: seq<set<nat>>, waits: set<nat>, tasks: set<nat>, last: set<nat>,
                      available: nat)
    requires Chained(p1, c1, p0, c0, batches, tasks, last) && Unlinked(p2, c2, p1, c1, waits, last)
    requires tasks == UsersOf(p0, waits) && ProducersFit(slots, p0, available)
    ensures ProducersFit(slots, p2, available)
  {
    ChainProducersAt(batches, 0);
    forall b | 0 <= b < |p2|
      ensures AllFit(slots, p2[b], available)
    {
      if b >= |p0| {
        var i := |batches| - 1 - (b - |p0|);
        assert p1[b] == batches[i] <= tasks;
      } else {
        assert p2[b] <= p0[b];
      }
    }
  }

  /** Merging the producers into one barrier leaves the task graph as it is. */
  lemma MergedGraph(p2: IndexSets, c2: IndexSets, p0: IndexSets, c0: IndexSets, waits: set<nat>, tasks: set<nat>,
                    last: set<nat>)
    requires |p2| == |c2| == |p0| + 1 && |p0| == |c0| && p2[|p0|] == tasks && c2[|p0|] == last
    requires forall b :: 0 <= b < |p0| ==> c2[b] == if b in waits then c0[b] - last else c0[b]
    requires forall b :: 0 <= b < |p0| ==> p2[b] == if b in waits && c2[b] == {} then {} else p0[b]
    requires tasks == UsersOf(p0, waits) && forall b :: b in waits ==> b < |p0| && last <= c0[b]
    ensures BarrierEdges(p2, c2) == BarrierEdges(p0, c0)
  {
    var n := |p0|;
    forall e | e in BarrierEdges(p0, c0)
      ensures e in BarrierEdges(p2, c2)
    {
      var b :| 0 <= b < n && e.0 in p0[b] && e.1 in c0[b];
      if b in waits && e.1 in last {
        assert e.0 in p2[n] && e.1 in c2[n];
      } else {
        assert e.0 in p2[b] && e.1 in c2[b];
      }
    }
    forall e | e in BarrierEdges(p2, c2)
      ensures e in BarrierEdges(p0, c0)
    {
      var b :| 0 <= b < |p2| && e.0 in p2[b] && e.1 in c2[b];
      if b == n {
        var w :| w in waits && w < n && e.0 in p0[w];
        assert e.1 in c0[w];
      } else {
        assert e.0 in p0[b] && e.1 in c0[b];
      }
    }
  }

  lemma OneLink(tasks: set<nat>, last: set<nat>)
    ensures ChainProducers([tasks], 0) == [tasks] && ChainConsumers([tasks], last, 0) == [last]
  {
    ChainStep([], [], [tasks], last, 0);
  }

  /** Only tasks that had several wait barriers still have. */
  lemma MergedWaits(p2: IndexSets, c2: IndexSets, p1: IndexSets, c1: IndexSets, p0: IndexSets, c0: IndexSets,
                    w0: IndexSets, w2: IndexSets, waits: set<nat>, tasks: set<nat>, last: set<nat>)
    requires Chained(p1, c1, p0, c0, [tasks], tasks, last) && Unlinked(p2, c2, p1, c1, waits, last)
    requires |w0| == |w2| && Inverse(w0, c0) && Inverse(w2, c2) && forall b :: b in waits ==> b < |p0|
    requires forall x :: x in last ==> x < |w0| && w0[x] == waits
    ensures forall x :: 0 <= x < |w0| ==> w2[x] == if x in last then {|p0|} else w0[x]
  {
    var n := |p0|;
    OneLink(tasks, last);
    assert c1[n] == last && c2[n] == last;
    forall x | 0 <= x < |w0|
      ensures w2[x] == if x in last then {n} else w0[x]
    {
      forall b
        ensures b in w2[x] <==> b in if x in last then {n} else w0[x]
      {
        if 0 <= b < n {
          assert c1[b] == c0[b];
          assert b in w2[x] <==> x in c2[b];
          assert b in w0[x] <==> x in c0[b];
        } else if b == n {
          assert b in w2[x] <==> x in c2[b];
        }
      }
    }
  }

  /** A chain orders nothing but the producers it linearizes. */
  lemma ChainOrdersProducers(p2: IndexSets, c2: IndexSets, p1: IndexSets, c1: IndexSets, p0: IndexSets, c0: IndexSets,
                             batches: seq<set<nat>>, waits: set<nat>, tasks: set<nat>, last: set<nat>)
    requires Chained(p1, c1, p0, c0, batches, tasks, last) && Unlinked(p2, c2, p1, c1, waits, last)
    requires tasks == UsersOf(p0, waits) && forall b :: b in waits ==> b < |p0| && last <= c0[b]
    ensures OrdersOnly(BarrierEdges(p0, c0), BarrierEdges(p2, c2), tasks)
  {
    ChainProducersAt(batches, 0);
    forall x, y | (x, y) in BarrierEdges(p2, c2)
      ensures (x, y) in BarrierEdges(p0, c0) || (x in tasks && y in tasks)
    {
      var b :| 0 <= b < |p2| && x in p2[b] && y in c2[b];
      if b < |p0| {
        assert x in p0[b] && y in c0[b];
      } else {
        ChainBarrierEdge(p0, c0, batches, waits, tasks, last, |batches| - 1 - (b - |p0|), x, y);
      }
    }
  }

  lemma ChainBarrierEdge(p0: IndexSets, c0: IndexSets, batches: seq<set<nat>>, waits: set<nat>, tasks: set<nat>,
                         last: set<nat>, i: nat, x: nat, y: nat)
    requires |p0| == |c0| && RunsOf(batches, tasks) && i < |batches| && x in batches[i] && y in Next(batches, last, i)
    requires tasks == UsersOf(p0, waits) && forall b :: b in waits ==> b < |p0| && last <= c0[b]
    ensures (x, y) in BarrierEdges(p0, c0) || (x in tasks && y in tasks)
  {
    assert batches[i] <= tasks;
    if i + 1 == |batches| {
      var w :| w in waits && w < |p0| && x in p0[w];
      assert y in c0[w];
    } else {
      assert batches[i + 1] <= tasks;
    }
  }

  /** New edges join some of the tasks. */
  ghost predicate OrdersOnly(e: Edges, e': Edges, tasks: set<nat>)
  {
    forall x, y :: (x, y) in e' ==> (x, y) in e || (x in tasks && y in tasks)
  }

  lemma EliminatedGraph(p2: IndexSets, c2: IndexSets, p1: IndexSets, c1: IndexSets, p0: IndexSets, c0: IndexSets,
                        w0: IndexSets, w2: IndexSets, batches: seq<set<nat>>, waits: set<nat>, tasks: set<nat>,
                        last: set<nat>)
    requires Chained(p1, c1, p0, c0, batches, tasks, last) && Unlinked(p2, c2, p1, c1, waits, last)
    requires |w0| == |w2| && Inverse(w0, c0) && Inverse(w2, c2) && forall b :: b in waits ==> b < |p0| && last <= c0[b]
    requires tasks == UsersOf(p0, waits) && forall x :: x in last ==> x < |w0| && w0[x] == waits
    ensures OrdersOnly(BarrierEdges(p0, c0), BarrierEdges(p2, c2), tasks)
    ensures batches == [tasks] ==> Merged(BarrierEdges(p0, c0), BarrierEdges(p2, c2), w0, w2)
  {
    ChainOrdersProducers(p2, c2, p1, c1, p0, c0, batches, waits, tasks, last);
    if batches == [tasks] {
      OneLink(tasks, last);
      assert forall b :: 0 <= b < |p0| ==> p1[b] == p0[b] && c1[b] == c0[b];
      assert p1[|p0|] == tasks && c1[|p0|] == last;
      MergedGraph(p2, c2, p0, c0, waits, tasks, last);
      MergedWaits(p2, c2, p1, c1, p0, c0, w0, w2, waits, tasks, last);
    }
  }

  /** The task graph is the same, and only tasks that had several wait barriers still have, then the same ones. */
  ghost predicate Merged(e: Edges, e': Edges, waits: IndexSets, waits': IndexSets)
  {
    e' == e && |waits'| == |waits| && forall x :: 0 <= x < |waits| && |waits'[x]| >= 2 ==> waits'[x] == waits[x]
  }

  /** The tasks of `last` no longer wait for `waits` but for a chain of new barriers between `batches`. */
  ghost predicate Replaced(p: IndexSets, c: IndexSets, p0: IndexSets, c0: IndexSets, waits: set<nat>,
                           batches: seq<set<nat>>, last: set<nat>)
    requires |p0| == |c0|
  {
    var n := |p0|;
    && |p| == |c| == n + |batches|
    && (forall b :: 0 <= b < n ==> c[b] == if b in waits then c0[b] - last else c0[b])
    && (forall b :: 0 <= b < n ==> p[b] == if b in waits && c[b] == {} then {} else p0[b])
    && p[n..] == ChainProducers(batches, 0) && c[n..] == ChainConsumers(batches, last, 0)
  }

  lemma IsReplaced(p2: IndexSets, c2: IndexSets, p1: IndexSets, c1: IndexSets, p0: IndexSets, c0: IndexSets,
                   batches: seq<set<nat>>, waits: set<nat>, tasks: set<nat>, last: set<nat>)
    requires Chained(p1, c1, p0, c0, batches, tasks, last) && Unlinked(p2, c2, p1, c1, waits, last)
    requires forall b :: b in waits ==> b < |p0|
    ensures Replaced(p2, c2, p0, c0, waits, batches, last)
  {
    ChainProducersAt(batches, 0);
    assert forall b :: 0 <= b < |p0| ==> p1[b] == p0[b] && c1[b] == c0[b];
    assert p2[|p0|..] == p1[|p0|..] && c2[|p0|..] == c1[|p0|..];
  }

  /** What is chosen: consumers with the same wait barriers as far as their share goes, and one batch if the producers
      leave room for them, otherwise batches that end only where they have to. */
  ghost predicate RightParts(bi: BarrierInfo, p0: IndexSets, same: set<nat>, waits: set<nat>, batches: seq<set<nat>>,
                             last: set<nat>, available: nat, byExecutor: bool, uneven: bool)
    requires bi.ValidConfig()
  {
    var tasks := UsersOf(p0, waits);
    && last != {} && AsManyAsFit(bi.slots, last, same, ConsumerSlots(bi, same, tasks, available, uneven))
    && RunsOf(batches, tasks) && Tight(bi, p0, waits, batches, available, byExecutor)
    && (Mergeable(bi, same, tasks, available, uneven) ==> batches == [tasks])
    && (AllFit(bi.slots, tasks, available) ==> ChainWithin(bi.slots, batches, last, 2 * available))
  }

  /** The tasks that wait for the same barriers as `t`. */
  ghost function Rivals(c: IndexSets, waits: IndexSets, t: nat): set<nat>
    requires t < |waits|
  {
    WithWaits(waits, UsersOf(c, waits[t]), waits[t])
  }

  /** The whole new state after an elimination. */
  ghost predicate RightlyReplaced(bi: BarrierInfo, p: IndexSets, c: IndexSets, p0: IndexSets, c0: IndexSets,
                                  same: set<nat>, waits: set<nat>, available: nat, byExecutor: bool, uneven: bool)
    requires |p0| == |c0| && bi.ValidConfig()
  {
    exists batches, last :: Replaced(p, c, p0, c0, waits, batches, last) &&
                            RightParts(bi, p0, same, waits, batches, last, available, byExecutor, uneven)
  }

  /** What an elimination for a task that waits for `waits` does to the graph. */
  ghost predicate Eliminated(bi: BarrierInfo, p0: IndexSets, c0: IndexSets, p: IndexSets, c: IndexSets, waits: set<nat>,
                             available: nat, from: nat)
    requires |p0| == |c0| && |p| == |c|
  {
    && (Smooth(bi.slots, p0, waits, available) ==> KeepsOrder(BarrierEdges(p0, c0), BarrierEdges(p, c)))
    && (ProducersFit(bi.slots, p0, available) ==> ProducersFit(bi.slots, p, available))
    && (AllTasksFit(bi, available) && CreatedWithin(bi.slots, p0, c0, from, 2 * available) ==>
          CreatedWithin(bi.slots, p, c, from, 2 * available))
  }

  /** `eliminateParallelWaitBarriers`: some tasks that wait for the same barriers as `t` get a single one instead. It
      gives up only if one of these tasks takes more than the available slots, and has to if none of them fits twice
      as many. */
  method Eliminate(bi: BarrierInfo, t: nat, available: nat, byExecutor: bool, uneven: bool, ghost from: nat)
    returns (ok: bool)
    requires bi.Valid() && bi.fifoDeps == [] && Forward(bi.Graph()) && t < bi.numTasks && |bi.waits[t]| >= 2
    modifies bi`producers, bi`consumers, bi`updates, bi`waits, bi`opCount
    ensures bi.Valid() && Forward(bi.Graph())
    ensures ok ==> Weight(bi.waits, bi.numTasks) < Weight(old(bi.waits), bi.numTasks)
    ensures Eliminated(bi, old(bi.producers), old(bi.consumers), bi.producers, bi.consumers, old(bi.waits)[t],
                       available, from)
    ensures Mergeable(bi, Rivals(old(bi.consumers), old(bi.waits), t), UsersOf(old(bi.producers), old(bi.waits)[t]),
                      available, uneven) ==>
              Merged(old(bi.Graph()), bi.Graph(), old(bi.waits), bi.waits)
    ensures OrdersOnly(old(bi.Graph()), bi.Graph(), UsersOf(old(bi.producers), old(bi.waits)[t]))
    ensures ok ==> RightlyReplaced(bi, bi.producers, bi.consumers, old(bi.producers), old(bi.consumers),
                                   Rivals(old(bi.consumers), old(bi.waits), t), old(bi.waits)[t], available, byExecutor,
                                   uneven)
    ensures !ok ==> bi.producers == old(bi.producers) && bi.consumers == old(bi.consumers)
    ensures !ok ==> exists x: nat :: SameWaits(old(bi.waits), t, x) && x < bi.numTasks && bi.slots[x] > available
    ensures ok ==> exists x: nat :: SameWaits(old(bi.waits), t, x) && x < bi.numTasks && bi.slots[x] <= 2 * available
  {
    ghost var p0, c0, w0 := bi.producers, bi.consumers, bi.waits;
    var waits := bi.waits[t];
    var tasks, consumers := UsersOf(bi.producers, waits), UsersOf(bi.consumers, waits);
    UsersInRange(bi, waits);
    var forLast := ConsumerShare(bi, waits, tasks, consumers, available, uneven);
    ConsumesAll(bi, waits, t);
    assert t in WithWaits(bi.waits, consumers, waits);
    var last := SelectConsumers(bi, waits, consumers, forLast);
    if last == {} {
      TooLargeConsumer(bi, t, consumers, available, forLast);
      return false;
    }
    UsersBefore(bi, waits, tasks, last);
    ghost var batches, top := MoveConsumers(bi, waits, tasks, last, available, forLast, byExecutor, from);
    assert SameWaits(w0, t, top);
    ok := true;
  }

  /** The chosen consumers leave the barriers `waits` for the new ones. */
  method MoveConsumers(bi: BarrierInfo, waits: set<nat>, tasks: set<nat>, last: set<nat>, available: nat, forLast: nat,
                       byExecutor: bool, ghost from: nat) returns (ghost batches: seq<set<nat>>, ghost top: nat)
    requires bi.Valid() && bi.fifoDeps == [] && Forward(bi.Graph()) && |waits| >= 2 && last != {}
    requires forall b :: b in waits ==> b < |bi.producers| && last <= bi.consumers[b]
    requires forall x :: x in last ==> x < bi.numTasks && bi.waits[x] == waits
    requires tasks == UsersOf(bi.producers, waits) && Before(tasks, last)
    requires SlotSum(bi.slots, last, bi.numTasks) <= forLast <= 2 * available
    requires SlotSum(bi.slots, tasks, bi.numTasks) > 2 * available - forLast ==> forLast == available
    modifies bi`producers, bi`consumers, bi`updates, bi`waits, bi`opCount
    ensures bi.Valid() && Forward(bi.Graph())
    ensures top in last && Weight(bi.waits, bi.numTasks) < Weight(old(bi.waits), bi.numTasks)
    ensures Eliminated(bi, old(bi.producers), old(bi.consumers), bi.producers, bi.consumers, waits, available, from)
    ensures Replaced(bi.producers, bi.consumers, old(bi.producers), old(bi.consumers), waits, batches, last)
    ensures RunsOf(batches, tasks) && Tight(bi, old(bi.producers), waits, batches, available, byExecutor)
    ensures AllFit(bi.slots, tasks, available) ==> ChainWithin(bi.slots, batches, last, 2 * available)
    ensures OrdersOnly(old(bi.Graph()), bi.Graph(), tasks)
    ensures SlotSum(bi.slots, tasks, bi.numTasks) <= 2 * available - forLast ==>
              batches == [tasks] && Merged(old(bi.Graph()), bi.Graph(), old(bi.waits), bi.waits)
  {
    ghost var p0, c0, w0 := bi.producers, bi.consumers, bi.waits;
    var parts := Rewire(bi, waits, tasks, last, available, forLast, byExecutor);
    batches := parts;
    ghost var p1, c1 := bi.producers, bi.consumers;
    assert forall b :: b in waits ==> c1[b] == c0[b];
    Unlink(bi, waits, last);
    EliminatedAll(bi, bi.producers, bi.consumers, p1, c1, p0, c0, batches, waits, tasks, last, available, from);
    IsReplaced(bi.producers, bi.consumers, p1, c1, p0, c0, batches, waits, tasks, last);
    EliminatedGraph(bi.producers, bi.consumers, p1, c1, p0, c0, w0, bi.waits, batches, waits, tasks, last);
    top := EliminatedWeight(bi.producers, bi.consumers, p1, c1, p0, c0, w0, bi.waits, batches, waits, tasks, last);
  }

  lemma EliminatedWeight(p2: IndexSets, c2: IndexSets, p1: IndexSets, c1: IndexSets, p0: IndexSets, c0: IndexSets,
                         w0: IndexSets, w2: IndexSets, batches: seq<set<nat>>, waits: set<nat>, tasks: set<nat>,
                         last: set<nat>) returns (top: nat)
    requires Chained(p1, c1, p0, c0, batches, tasks, last) && Unlinked(p2, c2, p1, c1, waits, last)
    requires |w0| == |w2| && Inverse(w0, c0) && Inverse(w2, c2) && (forall b :: b in waits ==> b < |p0|)
    requires last != {} && |waits| >= 2 && forall x :: x in last ==> x < |w0| && w0[x] == waits
    ensures top in last && Weight(w2, |w2|) < Weight(w0, |w0|)
  {
    top := MaxOf(last, |w0|);
    EliminatedWaits(p2, c2, p1, c1, p0, c0, w0, w2, batches, waits, tasks, last, top);
    WeightDrops(w0, w2, top, |w0|);
  }

  ghost predicate SameWaits(waits: IndexSets, t: nat, x: nat)
  {
    t < |waits| && x < |waits| && waits[x] == waits[t]
  }

  lemma TooLargeConsumer(bi: BarrierInfo, t: nat, consumers: set<nat>, available: nat, forLast: nat)
    requires bi.Valid() && t < bi.numTasks && t in consumers
    requires AllFit(bi.slots, WithWaits(bi.waits, consumers, bi.waits[t]), available) ==>
               AllFit(bi.slots, WithWaits(bi.waits, consumers, bi.waits[t]), forLast)
    requires !AllFit(bi.slots, WithWaits(bi.waits, consumers, bi.waits[t]), forLast)
    ensures exists x: nat :: SameWaits(bi.waits, t, x) && x < bi.numTasks && bi.slots[x] > available
  {
    var x :| x in WithWaits(bi.waits, consumers, bi.waits[t]) && x < |bi.slots| && bi.slots[x] > available;
    assert SameWaits(bi.waits, t, x);
  }

  lemma EliminatedAll(bi: BarrierInfo, p2: IndexSets, c2: IndexSets, p1: IndexSets, c1: IndexSets, p0: IndexSets,
                      c0: IndexSets, batches: seq<set<nat>>, waits: set<nat>, tasks: set<nat>, last: set<nat>,
                      available: nat, from: nat)
    requires Chained(p1, c1, p0, c0, batches, tasks, last) && Unlinked(p2, c2, p1, c1, waits, last)
    requires (forall b :: b in waits ==> b < |p0|) && tasks == UsersOf(p0, waits)
    requires AllFit(bi.slots, tasks, available) ==> ChainWithin(bi.slots, batches, last, 2 * available)
    requires Smooth(bi.slots, p0, waits, available) ==> LaterNonEmpty(batches)
    requires Forward(BarrierEdges(p0, c0))
    ensures Eliminated(bi, p0, c0, p2, c2, waits, available, from) && Forward(BarrierEdges(p2, c2))
  {
    EliminatedOrder(p2, c2, p1, c1, p0, c0, batches, waits, tasks, last);
    if ProducersFit(bi.slots, p0, available) {
      EliminatedFit(bi.slots, p2, c2, p1, c1, p0, c0, batches, waits, tasks, last, available);
    }
    if AllTasksFit(bi, available) && CreatedWithin(bi.slots, p0, c0, from, 2 * available) {
      EliminatedSlots(bi.slots, p2, c2, p1, c1, p0, c0, batches, waits, tasks, last, from, 2 * available);
    }
  }

  lemma ConsumesAll(bi: BarrierInfo, waits: set<nat>, t: nat)
    requires bi.Valid() && t < bi.numTasks && bi.waits[t] == waits && |waits| >= 2
    ensures t in UsersOf(bi.consumers, waits)
    ensures forall b, x :: b in waits && 0 <= x < bi.numTasks && bi.waits[x] == waits ==>
              b < |bi.consumers| && x in bi.consumers[b]
  {
  }

  lemma UsersBefore(bi: BarrierInfo, waits: set<nat>, tasks: set<nat>, last: set<nat>)
    requires bi.Valid() && Forward(bi.Graph()) && tasks == UsersOf(bi.producers, waits)
    requires forall x, b :: x in last && b in waits ==> b < |bi.consumers| && x in bi.consumers[b]
    ensures Before(tasks, last)
  {
    forall x, y | x in tasks && y in last
      ensures x < y
    {
      var b :| b in waits && b < |bi.producers| && x in bi.producers[b];
      assert (x, y) in bi.Graph();
    }
  }

  lemma MaxOf(s: set<nat>, n: nat) returns (m: nat)
    requires s != {} && forall x :: x in s ==> x < n
    ensures m in s && forall x :: x in s ==> x <= m
  {
    m :| m in s;
    while exists x :: x in s && x > m
      invariant m in s
      decreases n - m
    {
      var x :| x in s && x > m;
      m := x;
    }
  }

  //
  // All tasks
  //

  ghost predicate SingleWaits(waits: IndexSets)
  {
    forall t :: 0 <= t < |waits| ==> |waits[t]| < 2
  }

  /** The direct predecessors of a task. */
  ghost function Predecessors(e: Edges, t: nat): set<nat>
  {
    set x | x in e && x.1 == t :: x.0
  }

  /** The direct predecessors of every task with several wait barriers take the available slots at most or, with
      `uneven`, leave room for the task in twice as many. */
  ghost predicate AllMergeable(bi: BarrierInfo, e: Edges, waits: IndexSets, available: nat, uneven: bool)
    requires bi.ValidConfig() && |waits| == bi.numTasks
  {
    forall t :: 0 <= t < bi.numTasks && |waits[t]| >= 2 ==> TaskMergeable(bi, e, t, available, uneven)
  }

  ghost predicate TaskMergeable(bi: BarrierInfo, e: Edges, t: nat, available: nat, uneven: bool)
    requires bi.ValidConfig() && t < bi.numTasks
  {
    var used := SlotSum(bi.slots, Predecessors(e, t), bi.numTasks);
    used <= available || (uneven && used < 2 * available && used + bi.slots[t] <= 2 * available)
  }

  /** The producers of the wait barriers of a task are its direct predecessors. */
  lemma PredecessorsOf(bi: BarrierInfo, t: nat)
    requires bi.Valid() && t < bi.numTasks
    ensures Predecessors(bi.Graph(), t) == UsersOf(bi.producers, bi.waits[t])
  {
    forall x
      ensures x in Predecessors(bi.Graph(), t) <==> x in UsersOf(bi.producers, bi.waits[t])
    {
      if x in Predecessors(bi.Graph(), t) {
        var b :| 0 <= b < |bi.producers| && x in bi.producers[b] && t in bi.consumers[b];
        assert b in bi.waits[t];
      }
      if x in UsersOf(bi.producers, bi.waits[t]) {
        var b :| b in bi.waits[t] && b < |bi.producers| && x in bi.producers[b];
        assert (x, t) in bi.Graph() by { assert t in bi.consumers[b]; }
      }
    }
  }

  lemma MergeableTask(bi: BarrierInfo, t: nat, available: nat, uneven: bool)
    requires bi.Valid() && t < bi.numTasks && |bi.waits[t]| >= 2
    requires AllMergeable(bi, bi.Graph(), bi.waits, available, uneven)
    ensures Mergeable(bi, Rivals(bi.consumers, bi.waits, t), UsersOf(bi.producers, bi.waits[t]), available, uneven)
  {
    PredecessorsOf(bi, t);
    assert TaskMergeable(bi, bi.Graph(), t, available, uneven);
    var same := Rivals(bi.consumers, bi.waits, t);
    forall x | x in same && x < |bi.slots|
      ensures TaskMergeable(bi, bi.Graph(), x, available, uneven)
      ensures Predecessors(bi.Graph(), x) == UsersOf(bi.producers, bi.waits[t])
    {
      PredecessorsOf(bi, x);
    }
  }

  /** As long as everything could be merged, the task graph has not changed. */
  ghost predicate GraphKept(bi: BarrierInfo, e0: Edges, w0: IndexSets, available: nat, uneven: bool)
    requires |bi.producers| == |bi.consumers| && bi.ValidConfig() && |w0| == |bi.waits| == bi.numTasks
    reads bi
  {
    AllMergeable(bi, e0, w0, available, uneven) ==> Merged(e0, bi.Graph(), w0, bi.waits)
  }

  /** Order and sizes since the start with producers `p0` and consumers `c0`. */
  ghost predicate OrderAndSizes(bi: BarrierInfo, p0: IndexSets, c0: IndexSets, p: IndexSets, c: IndexSets,
                                available: nat)
    requires |p0| == |c0| && |p| == |c|
  {
    && (ProducersFit(bi.slots, p0, available) ==>
          ProducersFit(bi.slots, p, available) && KeepsOrder(BarrierEdges(p0, c0), BarrierEdges(p, c)))
    && (AllTasksFit(bi, available) ==> CreatedWithin(bi.slots, p, c, |p0|, 2 * available))
  }

  lemma EliminatedMore(bi: BarrierInfo, p0: IndexSets, c0: IndexSets, p1: IndexSets, c1: IndexSets, p: IndexSets,
                       c: IndexSets, waits: set<nat>, available: nat)
    requires |p0| == |c0| && |p1| == |c1| && |p| == |c|
    requires OrderAndSizes(bi, p0, c0, p1, c1, available) && Eliminated(bi, p1, c1, p, c, waits, available, |p0|)
    ensures OrderAndSizes(bi, p0, c0, p, c, available)
  {
    if ProducersFit(bi.slots, p0, available) {
      assert Smooth(bi.slots, p1, waits, available);
      KeepsOrderTrans(BarrierEdges(p0, c0), BarrierEdges(p1, c1), BarrierEdges(p, c));
    }
  }

  /** The users of all barriers, and the barriers each task waits for. */
  datatype State = State(producers: IndexSets, consumers: IndexSets, waits: IndexSets)

  ghost function StateOf(bi: BarrierInfo): State
    reads bi
  {
    State(bi.producers, bi.consumers, bi.waits)
  }

  /** Task `t` is visited: it is left alone, or it is one of those whose wait barriers are replaced. */
  ghost predicate VisitedTask(bi: BarrierInfo, s: State, t: nat, s': State, available: nat, byExecutor: bool,
                              uneven: bool)
    requires bi.ValidConfig()
  {
    && t < |s.waits| == |s'.waits| && |s.producers| == |s.consumers| && |s'.producers| == |s'.consumers|
    && Inverse(s'.consumers, s'.waits)
    && if |s.waits[t]| < 2 then s' == s
       else RightlyReplaced(bi, s'.producers, s'.consumers, s.producers, s.consumers, Rivals(s.consumers, s.waits, t),
                            s.waits[t], available, byExecutor, uneven)
  }

  /** `states` lists what the visits of the tasks from the first on lead to. */
  ghost predicate Visits(bi: BarrierInfo, states: seq<State>, available: nat, byExecutor: bool, uneven: bool)
    requires bi.ValidConfig()
  {
    forall t :: 0 <= t && t + 1 < |states| ==>
      VisitedTask(bi, states[t], t, states[t + 1], available, byExecutor, uneven)
  }

  ghost predicate FromTo(states: seq<State>, s: State, s': State)
  {
    states != [] && states[0] == s && states[|states| - 1] == s'
  }

  /** All tasks are visited one after the other. */
  ghost predicate Visited(bi: BarrierInfo, s: State, s': State, available: nat, byExecutor: bool, uneven: bool)
    requires bi.ValidConfig()
  {
    exists states :: FromTo(states, s, s') && |states| == bi.numTasks + 1 &&
                     Visits(bi, states, available, byExecutor, uneven)
  }

  /** `states` lists what the passes over all tasks lead to. Each of them starts with some task that has several wait
      barriers. */
  ghost predicate Passes(bi: BarrierInfo, states: seq<State>, available: nat, byExecutor: bool, uneven: bool)
    requires bi.ValidConfig()
  {
    forall i :: 0 <= i && i + 1 < |states| ==>
      !SingleWaits(states[i].waits) && Visited(bi, states[i], states[i + 1], available, byExecutor, uneven)
  }

  /** All tasks are visited again and again, or at most once if not `iteratively`. */
  ghost predicate Iterated(bi: BarrierInfo, s: State, s': State, iteratively: bool, available: nat, byExecutor: bool,
                           uneven: bool)
    requires bi.ValidConfig()
  {
    exists states :: FromTo(states, s, s') && (iteratively || |states| <= 2) &&
                     Passes(bi, states, available, byExecutor, uneven)
  }

  lemma VisitNext(bi: BarrierInfo, states: seq<State>, s: State, m: State, s': State, available: nat, byExecutor: bool,
                  uneven: bool)
    requires bi.ValidConfig() && FromTo(states, s, m) && Visits(bi, states, available, byExecutor, uneven)
    requires VisitedTask(bi, m, |states| - 1, s', available, byExecutor, uneven)
    ensures FromTo(states + [s'], s, s') && Visits(bi, states + [s'], available, byExecutor, uneven)
  {
  }

  lemma PassNext(bi: BarrierInfo, states: seq<State>, s: State, m: State, s': State, available: nat, byExecutor: bool,
                 uneven: bool)
    requires bi.ValidConfig() && FromTo(states, s, m) && Passes(bi, states, available, byExecutor, uneven)
    requires !SingleWaits(m.waits) && Visited(bi, m, s', available, byExecutor, uneven)
    ensures FromTo(states + [s'], s, s') && Passes(bi, states + [s'], available, byExecutor, uneven)
  {
  }

  /** One task of a pass. */
  method VisitTask(bi: BarrierInfo, t: nat, available: nat, byExecutor: bool, uneven: bool, ghost p0: IndexSets,
                   ghost c0: IndexSets, ghost w0: IndexSets) returns (ok: bool)
    requires bi.Valid() && bi.fifoDeps == [] && Forward(bi.Graph()) && t < bi.numTasks
    requires |p0| == |c0| && OrderAndSizes(bi, p0, c0, bi.producers, bi.consumers, available)
    requires |w0| == bi.numTasks && GraphKept(bi, BarrierEdges(p0, c0), w0, available, uneven)
    modifies bi`producers, bi`consumers, bi`updates, bi`waits, bi`opCount
    ensures bi.Valid() && Forward(bi.Graph()) && (AllTasksFit(bi, available) ==> ok)
    ensures OrderAndSizes(bi, p0, c0, bi.producers, bi.consumers, available)
    ensures GraphKept(bi, BarrierEdges(p0, c0), w0, available, uneven)
    ensures ok ==> VisitedTask(bi, old(StateOf(bi)), t, StateOf(bi), available, byExecutor, uneven)
    ensures |old(bi.waits)[t]| < 2 ==> ok && StateOf(bi) == old(StateOf(bi))
    ensures |old(bi.waits)[t]| >= 2 && ok ==> Weight(bi.waits, bi.numTasks) < Weight(old(bi.waits), bi.numTasks)
  {
    ok := true;
    if |bi.waits[t]| >= 2 {
      ghost var p1, c1, waits := bi.producers, bi.consumers, bi.waits[t];
      if AllMergeable(bi, BarrierEdges(p0, c0), w0, available, uneven) { MergeableTask(bi, t, available, uneven); }
      ok := Eliminate(bi, t, available, byExecutor, uneven, |p0|);
      EliminatedMore(bi, p0, c0, p1, c1, bi.producers, bi.consumers, waits, available);
    }
  }

  /** One pass over the tasks, eliminating as it goes. */
  method EliminatePass(bi: BarrierInfo, available: nat, byExecutor: bool, uneven: bool, ghost p0: IndexSets,
                       ghost c0: IndexSets, ghost w0: IndexSets) returns (ok: bool, modified: bool)
    requires bi.Valid() && bi.fifoDeps == [] && Forward(bi.Graph())
    requires |p0| == |c0| && OrderAndSizes(bi, p0, c0, bi.producers, bi.consumers, available)
    requires |w0| == bi.numTasks && GraphKept(bi, BarrierEdges(p0, c0), w0, available, uneven)
    modifies bi`producers, bi`consumers, bi`updates, bi`waits, bi`opCount
    ensures bi.Valid() && Forward(bi.Graph())
    ensures OrderAndSizes(bi, p0, c0, bi.producers, bi.consumers, available) && (AllTasksFit(bi, available) ==> ok)
    ensures ok ==> (modified <==> !SingleWaits(old(bi.waits)))
    ensures ok ==> if modified then Weight(bi.waits, bi.numTasks) < Weight(old(bi.waits), bi.numTasks)
                   else bi.waits == old(bi.waits)
    ensures !ok ==> !SingleWaits(old(bi.waits))
    ensures ok ==> Visited(bi, old(StateOf(bi)), StateOf(bi), available, byExecutor, uneven)
    ensures GraphKept(bi, BarrierEdges(p0, c0), w0, available, uneven)
  {
    ghost var s0, states := StateOf(bi), [StateOf(bi)];
    modified, ok := false, true;
    var t := 0;
    while ok && t < bi.numTasks
      invariant 0 <= t <= bi.numTasks && bi.Valid() && Forward(bi.Graph())
      invariant OrderAndSizes(bi, p0, c0, bi.producers, bi.consumers, available) && (AllTasksFit(bi, available) ==> ok)
      invariant GraphKept(bi, BarrierEdges(p0, c0), w0, available, uneven)
      invariant ok && modified ==> Weight(bi.waits, bi.numTasks) < Weight(s0.waits, bi.numTasks)
      invariant modified || !ok ==> !SingleWaits(s0.waits)
      invariant ok && !modified ==> bi.waits == s0.waits && forall x :: 0 <= x < t ==> |bi.waits[x]| < 2
      invariant ok ==> |states| == t + 1 && FromTo(states, s0, StateOf(bi))
      invariant Visits(bi, states, available, byExecutor, uneven)
    {
      ghost var s := StateOf(bi);
      var several := |bi.waits[t]| >= 2;
      ok := VisitTask(bi, t, available, byExecutor, uneven, p0, c0, w0);
      if ok {
        modified := modified || several;
        VisitNext(bi, states, s0, s, StateOf(bi), available, byExecutor, uneven);
        states := states + [StateOf(bi)];
      }
      t := t + 1;
    }
  }

  method ParallelTasks(bi: BarrierInfo) returns (tasks: set<nat>)
    requires bi.Valid()
    ensures forall t :: t in tasks <==> 0 <= t < bi.numTasks && |bi.waits[t]| >= 2
  {
    tasks := set t: nat | t < bi.numTasks && |bi.waits[t]| >= 2;
  }

  lemma SeveralWait(waits: IndexSets, tasks: set<nat>)
    requires tasks != {} && forall t :: t in tasks <==> 0 <= t < |waits| && |waits[t]| >= 2
    ensures !SingleWaits(waits)
  {
    var t :| t in tasks;
    assert |waits[t]| >= 2;
  }

  /** One pass and the check that it changed the tasks with several wait barriers. */
  method NextPass(bi: BarrierInfo, previous: set<nat>, available: nat, byExecutor: bool, uneven: bool,
                  ghost p0: IndexSets, ghost c0: IndexSets, ghost w0: IndexSets) returns (ok: bool, tasks: set<nat>)
    requires bi.Valid() && bi.fifoDeps == [] && Forward(bi.Graph()) && previous != {}
    requires |p0| == |c0| && OrderAndSizes(bi, p0, c0, bi.producers, bi.consumers, available)
    requires |w0| == bi.numTasks && GraphKept(bi, BarrierEdges(p0, c0), w0, available, uneven)
    requires forall t :: t in previous <==> 0 <= t < bi.numTasks && |bi.waits[t]| >= 2
    modifies bi`producers, bi`consumers, bi`updates, bi`waits, bi`opCount
    ensures bi.Valid() && Forward(bi.Graph()) && (AllTasksFit(bi, available) ==> ok)
    ensures OrderAndSizes(bi, p0, c0, bi.producers, bi.consumers, available)
    ensures GraphKept(bi, BarrierEdges(p0, c0), w0, available, uneven)
    ensures ok ==> forall t :: t in tasks <==> 0 <= t < bi.numTasks && |bi.waits[t]| >= 2
    ensures ok ==> Weight(bi.waits, bi.numTasks) < Weight(old(bi.waits), bi.numTasks)
    ensures ok ==> Visited(bi, old(StateOf(bi)), StateOf(bi), available, byExecutor, uneven)
    ensures !SingleWaits(old(bi.waits))
  {
    SeveralWait(bi.waits, previous);
    ghost var w := bi.waits;
    var modified;
    ok, modified := EliminatePass(bi, available, byExecutor, uneven, p0, c0, w0);
    tasks := ParallelTasks(bi);
    if ok && tasks == previous {
      WeightOfSet(w, bi.waits, bi.numTasks);
      assert false;
      return false, tasks;
    }
  }

  /** `ensureTasksDrivenBySingleBarrier`: the iteration ends on every input, and its check for progress never fires. It
      gives up only on a task that does not fit, and iteratively it otherwise ends with at most one wait barrier per
      task. No order is lost if every producer fits, and what is created uses at most twice the available slots if
      every task fits. Where the direct predecessors of each task leave room for it, the task graph does not change at
      all. */
  method EnsureSingleWait(bi: BarrierInfo, available: nat, iteratively: bool, byExecutor: bool, uneven: bool)
    returns (ok: bool, modified: bool)
    requires bi.Valid() && bi.fifoDeps == [] && Forward(bi.Graph())
    modifies bi`producers, bi`consumers, bi`updates, bi`waits, bi`opCount
    ensures bi.Valid() && Forward(bi.Graph()) && (AllTasksFit(bi, available) ==> ok)
    ensures ok && iteratively ==> SingleWaits(bi.waits)
    ensures ok ==> (modified <==> !SingleWaits(old(bi.waits)))
    ensures SingleWaits(old(bi.waits)) ==> ok && bi.waits == old(bi.waits)
    ensures ProducersFit(bi.slots, old(bi.producers), available) ==> KeepsOrder(old(bi.Graph()), bi.Graph())
    ensures AllTasksFit(bi, available) ==>
              CreatedWithin(bi.slots, bi.producers, bi.consumers, |old(bi.producers)|, 2 * available)
    ensures AllMergeable(bi, old(bi.Graph()), old(bi.waits), available, uneven) ==> bi.Graph() == old(bi.Graph())
    ensures ok ==> Iterated(bi, old(StateOf(bi)), StateOf(bi), iteratively, available, byExecutor, uneven)
  {
    ghost var p0, c0, w0 := bi.producers, bi.consumers, bi.waits;
    ghost var s0, states := StateOf(bi), [StateOf(bi)];
    modified := false;
    var tasks := ParallelTasks(bi);
    while tasks != {}
      invariant bi.Valid() && bi.fifoDeps == [] && Forward(bi.Graph())
      invariant OrderAndSizes(bi, p0, c0, bi.producers, bi.consumers, available)
      invariant GraphKept(bi, BarrierEdges(p0, c0), w0, available, uneven)
      invariant forall t :: t in tasks <==> 0 <= t < bi.numTasks && |bi.waits[t]| >= 2
      invariant modified ==> !SingleWaits(old(bi.waits))
      invariant !modified ==> bi.waits == old(bi.waits)
      invariant FromTo(states, s0, StateOf(bi)) && (iteratively || |states| == 1)
      invariant Passes(bi, states, available, byExecutor, uneven)
      decreases Weight(bi.waits, bi.numTasks)
    {
      ghost var s := StateOf(bi);
      ok, tasks := NextPass(bi, tasks, available, byExecutor, uneven, p0, c0, w0);
      if !ok {
        return;
      }
      modified := true;
      PassNext(bi, states, s0, s, StateOf(bi), available, byExecutor, uneven);
      states := states + [StateOf(bi)];
      if !iteratively {
        break;
      }
    }
    ok := true;
  }
}
