/** Greedy division of a set of tasks into batches that fit the slots of a barrier. */
module VariantBatches {
  import opened Barriers

  ghost predicate AllFit(slots: seq<nat>, tasks: set<nat>, available: nat)
  {
    forall t :: t in tasks && t < |slots| ==> slots[t] <= available
  }

  ghost predicate AllTasksFit(bi: BarrierInfo, available: nat)
  {
    forall t :: 0 <= t < |bi.slots| ==> bi.slots[t] <= available
  }

  /** The parts cover exactly `tasks`, each part lying entirely before the next. */
  ghost predicate RunsOf(parts: seq<set<nat>>, tasks: set<nat>)
  {
    && (forall i :: 0 <= i < |parts| ==> parts[i] <= tasks)
    && (forall t {:trigger InPart(parts, t)} :: t in tasks ==> InPart(parts, t))
    && (forall i, j, x, y :: 0 <= i < j < |parts| && x in parts[i] && y in parts[j] ==> x < y)
  }

  ghost predicate InPart(parts: seq<set<nat>>, t: nat)
  {
    exists i :: 0 <= i < |parts| && t in parts[i]
  }

  ghost predicate PartsWithin(slots: seq<nat>, parts: seq<set<nat>>, available: nat)
  {
    forall i :: 0 <= i < |parts| ==> SlotSum(slots, parts[i], |slots|) <= available
  }

  ghost predicate NoEmptyPart(parts: seq<set<nat>>)
  {
    forall i :: 0 <= i < |parts| ==> parts[i] != {}
  }

  /** All tasks of a part have the same executor. */
  ghost predicate OneExecutor(executor: seq<nat>, parts: seq<set<nat>>)
  {
    forall i, x, y :: 0 <= i < |parts| && x in parts[i] && y in parts[i] && x < |executor| && y < |executor| ==>
      executor[x] == executor[y]
  }

  ghost predicate IsMin(s: set<nat>, t: nat)
  {
    t in s && forall x :: x in s ==> t <= x
  }

  /** The task has another kind than some task of the part. */
  ghost predicate Mixed(kinds: seq<nat>, part: set<nat>, t: nat)
  {
    exists x :: x in part && x < |kinds| && t < |kinds| && kinds[x] != kinds[t]
  }

  /** Part `i` has no room for the first task of the next one, or a task of another kind. */
  ghost predicate FullAt(slots: seq<nat>, kinds: seq<nat>, parts: seq<set<nat>>, available: nat, i: nat)
    requires i + 1 < |parts|
  {
    forall t :: IsMin(parts[i + 1], t) ==>
      SlotSum(slots, parts[i] + {t}, |slots|) > available || Mixed(kinds, parts[i], t)
  }

  /** No part has room for the first task of the next one, tasks of another kind apart. */
  ghost predicate Maximal(slots: seq<nat>, kinds: seq<nat>, parts: seq<set<nat>>, available: nat)
  {
    forall i :: 0 <= i && i + 1 < |parts| ==> FullAt(slots, kinds, parts, available, i)
  }

  lemma {:induction false} SlotSumAdd(slots: seq<nat>, s: set<nat>, t: nat, n: nat)
    requires n <= |slots| && t !in s
    ensures SlotSum(slots, s + {t}, n) == SlotSum(slots, s, n) + if t < n then slots[t] else 0
  {
    if n > 0 {
      SlotSumAdd(slots, s, t, n - 1);
    }
  }

  lemma {:induction false} SlotSumMono(slots: seq<nat>, s: set<nat>, s': set<nat>, n: nat)
    requires n <= |slots| && s <= s'
    ensures SlotSum(slots, s, n) <= SlotSum(slots, s', n)
  {
    if n > 0 {
      SlotSumMono(slots, s, s', n - 1);
    }
  }

  lemma {:induction false} SlotSumEmpty(slots: seq<nat>, n: nat)
    requires n <= |slots|
    ensures SlotSum(slots, {}, n) == 0
  {
    if n > 0 {
      SlotSumEmpty(slots, n - 1);
    }
  }

  /** Putting the next task into the last part or into a new one. */
  lemma RunsExtend(parts: seq<set<nat>>, tasks: set<nat>, t: nat, parts': seq<set<nat>>)
    requires RunsOf(parts, tasks) && parts != [] && forall x :: x in tasks ==> x < t
    requires parts' == parts[|parts| - 1 := parts[|parts| - 1] + {t}] || parts' == parts + [{t}]
    ensures RunsOf(parts', tasks + {t})
  {
    forall x | x in tasks + {t}
      ensures InPart(parts', x)
    {
      if x in tasks {
        assert InPart(parts, x);
        var i :| 0 <= i < |parts| && x in parts[i];
        assert x in parts'[i];
      } else {
        assert x in parts'[|parts'| - 1];
      }
    }
  }

  lemma ExecutorExtend(executor: seq<nat>, parts: seq<set<nat>>, kind: nat, parts': seq<set<nat>>)
    requires parts != [] && OneExecutor(executor, parts) && |parts'| >= |parts| && |parts'| <= |parts| + 1
    requires forall i :: 0 <= i < |parts'| - 1 ==> parts'[i] == parts[i]
    requires OfKind(executor, parts'[|parts'| - 1], kind)
    ensures OneExecutor(executor, parts')
  {
  }

  ghost predicate AllBelow(s: set<nat>, t: nat)
  {
    forall x :: x in s ==> x < t
  }

  /** A larger last part keeps its first task, so the part before it stays full. */
  lemma MaximalJoin(slots: seq<nat>, kinds: seq<nat>, parts: seq<set<nat>>, available: nat, t: nat)
    requires parts != [] && Maximal(slots, kinds, parts, available) && parts[|parts| - 1] != {}
    requires AllBelow(parts[|parts| - 1], t)
    ensures Maximal(slots, kinds, parts[|parts| - 1 := parts[|parts| - 1] + {t}], available)
  {
    var parts' := parts[|parts| - 1 := parts[|parts| - 1] + {t}];
    forall i | 0 <= i && i + 1 < |parts'|
      ensures FullAt(slots, kinds, parts', available, i)
    {
      assert FullAt(slots, kinds, parts, available, i);
      var next, next' := parts[i + 1], parts'[i + 1];
      forall m | IsMin(next', m)
        ensures IsMin(next, m)
      {
        if i + 2 == |parts| { var x := MinOf(next); }
      }
    }
  }

  lemma MaximalOpen(slots: seq<nat>, kinds: seq<nat>, parts: seq<set<nat>>, available: nat, t: nat)
    requires parts != [] && Maximal(slots, kinds, parts, available)
    requires SlotSum(slots, parts[|parts| - 1] + {t}, |slots|) > available || Mixed(kinds, parts[|parts| - 1], t)
    ensures Maximal(slots, kinds, parts + [{t}], available)
  {
    var parts' := parts + [{t}];
    forall i | 0 <= i && i + 1 < |parts'|
      ensures FullAt(slots, kinds, parts', available, i)
    {
      if i + 1 < |parts| { assert FullAt(slots, kinds, parts, available, i); }
    }
  }

  ghost predicate IsSingle(part: set<nat>)
  {
    exists t :: t in part && forall x :: x in part ==> x == t
  }

  /** The part is within the limit, or nothing but one task. */
  ghost predicate PartLegal(slots: seq<nat>, part: set<nat>, available: nat)
  {
    SlotSum(slots, part, |slots|) <= available || IsSingle(part)
  }

  ghost predicate PartsLegal(slots: seq<nat>, parts: seq<set<nat>>, available: nat)
  {
    forall i {:trigger PartLegal(slots, parts[i], available)} :: 0 <= i < |parts| ==>
      PartLegal(slots, parts[i], available)
  }

  ghost predicate Occupied(part: set<nat>) { part != {} }

  ghost predicate LaterNonEmpty(parts: seq<set<nat>>)
  {
    forall i {:trigger Occupied(parts[i])} :: 0 < i < |parts| ==> Occupied(parts[i])
  }

  /** The first task of the set fits a barrier. */
  ghost predicate FirstFits(slots: seq<nat>, tasks: set<nat>, available: nat)
  {
    forall m :: 0 <= m < |slots| && IsMin(tasks, m) ==> slots[m] <= available
  }

  /** Size and fullness of the batches formed so far. */
  ghost predicate SizesOk(slots: seq<nat>, parts: seq<set<nat>>, total: nat, available: nat, kinds: seq<nat>)
  {
    && parts != [] && total == SlotSum(slots, parts[|parts| - 1], |slots|)
    && PartsLegal(slots, parts, available) && LaterNonEmpty(parts)
    && Maximal(slots, kinds, parts, available)
  }

  lemma SizesJoin(slots: seq<nat>, parts: seq<set<nat>>, total: nat, available: nat, kinds: seq<nat>, t: nat)
    requires SizesOk(slots, parts, total, available, kinds) && t < |slots| && total + slots[t] <= available
    requires AllBelow(parts[|parts| - 1], t)
    ensures SizesOk(slots, parts[|parts| - 1 := parts[|parts| - 1] + {t}], total + slots[t], available, kinds)
  {
    var last := parts[|parts| - 1];
    SlotSumAdd(slots, last, t, |slots|);
    assert |parts| > 1 ==> Occupied(last);
    if |parts| > 1 { MaximalJoin(slots, kinds, parts, available, t); }
  }

  lemma SizesOpen(slots: seq<nat>, parts: seq<set<nat>>, total: nat, available: nat, kinds: seq<nat>, t: nat)
    requires SizesOk(slots, parts, total, available, kinds) && t < |slots| && AllBelow(parts[|parts| - 1], t)
    requires total + slots[t] > available || Mixed(kinds, parts[|parts| - 1], t)
    ensures SizesOk(slots, parts + [{t}], slots[t], available, kinds)
  {
    SlotSumEmpty(slots, |slots|);
    SlotSumAdd(slots, {}, t, |slots|);
    assert {} + {t} == {t};
    SlotSumAdd(slots, parts[|parts| - 1], t, |slots|);
    MaximalOpen(slots, kinds, parts, available, t);
  }

  /** Where every task fits, every batch is within the limit. */
  lemma FitWithin(slots: seq<nat>, parts: seq<set<nat>>, tasks: set<nat>, available: nat)
    requires RunsOf(parts, tasks) && PartsLegal(slots, parts, available) && AllFit(slots, tasks, available)
    ensures PartsWithin(slots, parts, available)
  {
    forall i | 0 <= i < |parts|
      ensures SlotSum(slots, parts[i], |slots|) <= available
    {
      assert PartLegal(slots, parts[i], available);
      if t :| t in parts[i] && forall x :: x in parts[i] ==> x == t {
        assert parts[i] == {t};
        assert t in parts[i];
        SingleSum(slots, t);
      }
    }
  }

  lemma SingleSum(slots: seq<nat>, t: nat)
    ensures SlotSum(slots, {t}, |slots|) == if t < |slots| then slots[t] else 0
  {
    SlotSumEmpty(slots, |slots|);
    SlotSumAdd(slots, {}, t, |slots|);
    assert {} + {t} == {t};
  }

  /** One batch is enough exactly if the tasks do not exceed the limit. */
  lemma OneBatch(slots: seq<nat>, parts: seq<set<nat>>, tasks: set<nat>, available: nat)
    requires parts != [] && RunsOf(parts, tasks) && PartsLegal(slots, parts, available)
    requires Maximal(slots, [], parts, available)
    requires LaterNonEmpty(parts) && (parts[0] != {} <==> FirstFits(slots, tasks, available))
    ensures |parts| == 1 <==> SlotSum(slots, tasks, |slots|) <= available
  {
    if |parts| == 1 {
      assert forall t :: t in tasks ==> InPart(parts, t);
      assert parts[0] == tasks && PartLegal(slots, parts[0], available);
      if t :| t in parts[0] && forall x :: x in parts[0] ==> x == t {
        assert parts[0] == {t};
        SingleSum(slots, t);
        assert IsMin(tasks, t);
      }
    } else {
      assert Occupied(parts[1]);
      var t := MinOf(parts[1]);
      assert FullAt(slots, [], parts, available, 0);
      assert parts[0] <= tasks && parts[1] <= tasks;
      SlotSumMono(slots, parts[0] + {t}, tasks, |slots|);
    }
  }

  method FirstTask(tasks: set<nat>, n: nat) returns (t: nat)
    requires tasks != {} && forall x :: x in tasks ==> x < n
    ensures IsMin(tasks, t)
  {
    t := 0;
    ghost var x :| x in tasks;
    while t !in tasks
      invariant t <= x && forall y :: y in tasks ==> t <= y
      decreases x - t
    {
      t := t + 1;
    }
  }

  /** The kinds that may not share a batch. */
  ghost function Kinds(bi: BarrierInfo, byExecutor: bool): seq<nat> { if byExecutor then bi.executor else [] }

  /** `createLegalVariantBatches`. Only the first batch can be empty, and it is exactly if the first task alone exceeds
      the limit. */
  method CreateLegalBatches(bi: BarrierInfo, tasks: set<nat>, available: nat, byExecutor: bool)
    returns (batches: seq<set<nat>>)
    requires bi.ValidConfig() && tasks != {} && forall t :: t in tasks ==> t < bi.numTasks
    ensures batches != [] && RunsOf(batches, tasks) && LaterNonEmpty(batches)
    ensures PartsLegal(bi.slots, batches, available)
    ensures batches[0] != {} <==> FirstFits(bi.slots, tasks, available)
    ensures AllFit(bi.slots, tasks, available) ==> PartsWithin(bi.slots, batches, available) && NoEmptyPart(batches)
    ensures byExecutor ==> OneExecutor(bi.executor, batches)
    ensures Maximal(bi.slots, Kinds(bi, byExecutor), batches, available)
    ensures !byExecutor ==> (|batches| == 1 <==> SlotSum(bi.slots, tasks, |bi.slots|) <= available)
  {
    batches := [{}];
    var total: nat := 0;
    var t := FirstTask(tasks, bi.numTasks);
    ghost var first := t;
    var kind := bi.executor[t];
    ghost var done: set<nat> := {};
    SlotSumEmpty(bi.slots, bi.numTasks);
    while t < bi.numTasks
      invariant first <= t <= bi.numTasks
      invariant Batched(bi, done, first, batches, total, kind, available, byExecutor)
      invariant forall x :: x in done <==> x in tasks && x < t
    {
      if t in tasks {
        if total + bi.slots[t] > available || (byExecutor && bi.executor[t] != kind) {
          BatchOpened(bi, done, first, batches, total, kind, available, byExecutor, t);
          batches := batches + [{t}];
          total, kind := bi.slots[t], bi.executor[t];
        } else {
          BatchJoined(bi, done, first, batches, total, kind, available, byExecutor, t);
          batches := batches[|batches| - 1 := batches[|batches| - 1] + {t}];
          total := total + bi.slots[t];
        }
        done := done + {t};
      }
      t := t + 1;
    }
    assert done == tasks;
    AllBatched(bi, tasks, first, batches, total, kind, available, byExecutor);
  }

  /** The first batch is empty if the first task does not fit, and then it is not the last one. */
  ghost predicate HeadOk(batches: seq<set<nat>>, fits: bool)
  {
    batches != [] && (batches[0] != {} <==> fits) && (batches[0] == {} ==> |batches| > 1)
  }

  lemma AllBatched(bi: BarrierInfo, tasks: set<nat>, first: nat, batches: seq<set<nat>>, total: nat, kind: nat,
                   available: nat, byExecutor: bool)
    requires Batched(bi, tasks, first, batches, total, kind, available, byExecutor) && IsMin(tasks, first)
    requires first < |bi.slots|
    ensures batches[0] != {} <==> FirstFits(bi.slots, tasks, available)
    ensures AllFit(bi.slots, tasks, available) ==> PartsWithin(bi.slots, batches, available) && NoEmptyPart(batches)
    ensures !byExecutor ==> (|batches| == 1 <==> SlotSum(bi.slots, tasks, |bi.slots|) <= available)
  {
    assert FirstFits(bi.slots, tasks, available) <==> bi.slots[first] <= available;
    if AllFit(bi.slots, tasks, available) {
      FitWithin(bi.slots, batches, tasks, available);
      assert forall i :: 0 < i < |batches| ==> Occupied(batches[i]);
    }
    if !byExecutor { OneBatch(bi.slots, batches, tasks, available); }
  }

  /** The tasks of `done` are in batches; the last batch takes `total` slots, and its tasks have executor `kind` if that
      matters. */
  ghost predicate Batched(bi: BarrierInfo, done: set<nat>, first: nat, batches: seq<set<nat>>, total: nat, kind: nat,
                          available: nat, byExecutor: bool)
  {
    && first < |bi.slots| == |bi.executor|
    && SizesOk(bi.slots, batches, total, available, Kinds(bi, byExecutor)) && RunsOf(batches, done)
    && (if done == {} then batches == [{}] && kind == bi.executor[first]
        else HeadOk(batches, bi.slots[first] <= available))
    && (byExecutor ==> OneExecutor(bi.executor, batches) && OfKind(bi.executor, batches[|batches| - 1], kind))
  }

  ghost predicate OfKind(executor: seq<nat>, part: set<nat>, kind: nat)
  {
    forall x :: x in part && x < |executor| ==> executor[x] == kind
  }

  lemma BatchOpened(bi: BarrierInfo, done: set<nat>, first: nat, batches: seq<set<nat>>, total: nat, kind: nat,
                    available: nat, byExecutor: bool, t: nat)
    requires Batched(bi, done, first, batches, total, kind, available, byExecutor)
    requires t < |bi.slots| && AllBelow(done, t) && (done == {} ==> t == first)
    requires total + bi.slots[t] > available || (byExecutor && bi.executor[t] != kind)
    ensures Batched(bi, done + {t}, first, batches + [{t}], bi.slots[t], bi.executor[t], available, byExecutor)
  {
    assert batches[|batches| - 1] <= done;
    SlotSumEmpty(bi.slots, |bi.slots|);
    if total + bi.slots[t] <= available {
      assert |batches| > 1 ==> Occupied(batches[|batches| - 1]);
      var x :| x in batches[|batches| - 1];
      assert x < |bi.executor|;
    }
    SizesOpen(bi.slots, batches, total, available, Kinds(bi, byExecutor), t);
    RunsExtend(batches, done, t, batches + [{t}]);
    if byExecutor { ExecutorExtend(bi.executor, batches, bi.executor[t], batches + [{t}]); }
  }

  lemma BatchJoined(bi: BarrierInfo, done: set<nat>, first: nat, batches: seq<set<nat>>, total: nat, kind: nat,
                    available: nat, byExecutor: bool, t: nat)
    requires Batched(bi, done, first, batches, total, kind, available, byExecutor)
    requires t < |bi.slots| && AllBelow(done, t) && (done == {} ==> t == first)
    requires total + bi.slots[t] <= available && (byExecutor ==> bi.executor[t] == kind)
    ensures Batched(bi, done + {t}, first, batches[|batches| - 1 := batches[|batches| - 1] + {t}], total + bi.slots[t],
                    kind, available, byExecutor)
  {
    assert batches[|batches| - 1] <= done;
    SlotSumEmpty(bi.slots, |bi.slots|);
    var batches' := batches[|batches| - 1 := batches[|batches| - 1] + {t}];
    SizesJoin(bi.slots, batches, total, available, Kinds(bi, byExecutor), t);
    RunsExtend(batches, done, t, batches');
    if byExecutor { ExecutorExtend(bi.executor, batches, kind, batches'); }
  }

  lemma MinOf(s: set<nat>) returns (t: nat)
    requires s != {}
    ensures IsMin(s, t)
  {
    t :| t in s;
    while exists x :: x in s && x < t
      invariant t in s
      decreases t
    {
      var x :| x in s && x < t;
      t := x;
    }
  }

  /** A part of consecutive runs that holds two tasks holds everything between them. */
  lemma PartIsInterval(parts: seq<set<nat>>, tasks: set<nat>, j: nat, s: nat, t: nat, x: nat)
    requires RunsOf(parts, tasks) && j < |parts| && s in parts[j] && t in parts[j] && x in tasks && s <= x <= t
    ensures x in parts[j]
  {
    assert InPart(parts, x);
  }

  /** The first task of the `i`-th greedy part is not earlier than part `i` of any other division. */
  lemma {:induction false} StaysAhead(slots: seq<nat>, tasks: set<nat>, available: nat, greedy: seq<set<nat>>,
                                      other: seq<set<nat>>, i: nat, t: nat) returns (j: nat)
    requires RunsOf(greedy, tasks) && NoEmptyPart(greedy) && Maximal(slots, [], greedy, available)
    requires RunsOf(other, tasks) && PartsWithin(slots, other, available)
    requires i < |greedy| && IsMin(greedy[i], t)
    ensures i <= j < |other| && t in other[j]
  {
    assert t in tasks && InPart(other, t);
    j :| 0 <= j < |other| && t in other[j];
    if i > 0 {
      var s := MinOf(greedy[i - 1]);
      var k := StaysAhead(slots, tasks, available, greedy, other, i - 1, s);
      assert s < t;
      assert k <= j;
      if k == j {
        CannotShare(slots, tasks, available, greedy, other, i, j, s, t);
      }
    }
  }

  lemma CannotShare(slots: seq<nat>, tasks: set<nat>, available: nat, greedy: seq<set<nat>>, other: seq<set<nat>>,
                    i: nat, j: nat, s: nat, t: nat)
    requires RunsOf(greedy, tasks) && Maximal(slots, [], greedy, available)
    requires RunsOf(other, tasks) && PartsWithin(slots, other, available)
    requires 0 < i < |greedy| && IsMin(greedy[i - 1], s) && IsMin(greedy[i], t) && j < |other| && s in other[j]
    ensures t !in other[j]
  {
    var h := i - 1;
    assert FullAt(slots, [], greedy, available, h);
    if t in other[j] {
      forall x | x in greedy[i - 1] + {t}
        ensures x in other[j]
      {
        PartIsInterval(other, tasks, j, s, t, x);
      }
      SlotSumMono(slots, greedy[i - 1] + {t}, other[j], |slots|);
    }
  }

  /** No division into consecutive runs within the same limit has fewer parts than the greedy one. */
  lemma GreedyIsOptimal(slots: seq<nat>, tasks: set<nat>, available: nat, greedy: seq<set<nat>>, other: seq<set<nat>>)
    requires RunsOf(greedy, tasks) && NoEmptyPart(greedy) && Maximal(slots, [], greedy, available)
    requires RunsOf(other, tasks) && PartsWithin(slots, other, available)
    ensures |greedy| <= |other|
  {
    if greedy != [] {
      var t := MinOf(greedy[|greedy| - 1]);
      var j := StaysAhead(slots, tasks, available, greedy, other, |greedy| - 1, t);
    }
  }
}
