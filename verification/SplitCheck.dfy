/** `verifyControlGraphSplit`: the test that a graph respects its sync points. */
module SplitCheck {
  import opened TaskGraph
  import opened Barriers
  import opened FifoDependencies
  import opened OptimizeBarriers
  import opened ControlShapes
  import opened ControlMap

  //
  // Blocks of a graph with sync points
  //

  /** The block of task `t`, searched from block `k` on. */
  function BlockIndex(syncs: seq<nat>, t: nat, k: nat): (r: nat)
    requires k <= |syncs|
    ensures k <= r <= |syncs|
    ensures r < |syncs| ==> t <= syncs[r]
    ensures forall i :: k <= i < r ==> syncs[i] < t
    decreases |syncs| - k
  {
    if k == |syncs| || t <= syncs[k] then k else BlockIndex(syncs, t, k + 1)
  }

  function BlockOf(bi: BarrierInfo, t: nat): (k: nat)
    ensures k < bi.BlockCount()
  {
    BlockIndex(bi.syncTasks, t, 0)
  }

  lemma BlockBounds(bi: BarrierInfo, t: nat)
    requires bi.ValidConfig() && t < bi.numTasks
    ensures var k := BlockOf(bi, t);
            && (bi.IsSyncPoint(t) ==> k < |bi.syncTasks| && t == bi.BlockHi(k))
            && bi.BlockLo(k) <= t <= bi.BlockHi(k) && bi.BlockFrom(k) <= t && (!bi.IsSyncPoint(t) ==>
                 t <= bi.BlockLast(k))
  {
  }

  lemma BlocksAscend(bi: BarrierInfo, a: nat, b: nat)
    requires bi.ValidConfig() && a <= b < bi.numTasks
    ensures BlockOf(bi, a) <= BlockOf(bi, b)
  {
  }

  /** A sync point, or the last task, leads to the next block; any other task stays in its block. */
  predicate SplitEdge(bi: BarrierInfo, x: nat, y: nat)
    requires bi.numTasks > 0
  {
    var k := BlockOf(bi, x);
    BlockOf(bi, y) == if x == (if k == |bi.syncTasks| then bi.numTasks - 1 else bi.syncTasks[k]) then k + 1 else k
  }

  ghost predicate AllSplit(bi: BarrierInfo, e: Edges)
    requires bi.numTasks > 0
  {
    forall x, y :: (x, y) in e ==> SplitEdge(bi, x, y)
  }

  /** A block of a split graph never leads past its own sync point. */
  lemma SplitStaysInside(bi: BarrierInfo, e: Edges, k: nat)
    requires bi.ValidConfig() && k < bi.BlockCount() && AllSplit(bi, e)
    requires forall x, y :: (x, y) in e ==> x < bi.numTasks && y < bi.numTasks
    ensures !LinksOutside(e, bi.BlockLo(k), bi.BlockHi(k), bi.IsSyncPoint(bi.BlockHi(k)))
  {
  }

  /** Tests every edge. */
  method CheckEdges(bi: BarrierInfo) returns (local: bool)
    requires bi.Valid()
    ensures local <==> AllSplit(bi, bi.Graph())
  {
    var t := 0;
    while t < bi.numTasks
      invariant t <= bi.numTasks
      invariant forall x, y :: (x, y) in bi.Graph() && x < t ==> SplitEdge(bi, x, y)
    {
      local := CheckTask(bi, t);
      if !local { return false; }
      t := t + 1;
    }
    assert forall x, y :: (x, y) in bi.Graph() ==> x < bi.numTasks;
    return true;
  }

  method CheckTask(bi: BarrierInfo, t: nat) returns (local: bool)
    requires bi.Valid() && t < bi.numTasks
    ensures local <==> forall y :: (t, y) in bi.Graph() ==> SplitEdge(bi, t, y)
  {
    var done, rest := {}, bi.updates[t];
    while rest != {}
      invariant done + rest == bi.updates[t]
      invariant forall b, y :: b in done && y in bi.consumers[b] ==> SplitEdge(bi, t, y)
      decreases rest
    {
      var b :| b in rest;
      if y :| y in bi.consumers[b] && !SplitEdge(bi, t, y) {
        assert t in bi.producers[b] && (t, y) in bi.Graph();
        return false;
      }
      done, rest := done + {b}, rest - {b};
    }
    forall y | (t, y) in bi.Graph()
      ensures SplitEdge(bi, t, y)
    {
      var b :| 0 <= b < |bi.producers| && t in bi.producers[b] && y in bi.consumers[b];
      assert b in bi.updates[t] && b in done;
    }
    return true;
  }

  //
  // Paths to and from the sync points
  //

  /** Barriers, and queue order among the tasks of block `k` that are not sync points. */
  ghost function BlockOrder(bi: BarrierInfo, e: Edges, k: nat): Edges
    requires bi.ValidConfig() && k < bi.BlockCount()
  {
    e + BlockFifo(bi, k, true, bi.Tracked())
  }

  /** A path inside block `k` as the control map records it. */
  ghost predicate BlockPath(bi: BarrierInfo, e: Edges, k: nat, a: nat, b: nat)
    requires bi.ValidConfig() && k < bi.BlockCount()
  {
    var lo, hi := bi.BlockLo(k), bi.BlockHi(k);
    Zigzags(Within(e + BlockLinks(bi, k, true), lo, hi), RangeEnd(hi, bi.IsSyncPoint(hi)), hi, a, b)
  }

  lemma BlockPathReal(bi: BarrierInfo, e: Edges, k: nat, a: nat, b: nat)
    requires bi.ValidConfig() && k < bi.BlockCount() && BlockPath(bi, e, k, a, b)
    ensures Reach(BlockOrder(bi, e, k), a, b)
  {
    var lo, hi, h := bi.BlockLo(k), bi.BlockHi(k), e + BlockLinks(bi, k, true);
    ZigzagsReach(Within(h, lo, hi), RangeEnd(hi, bi.IsSyncPoint(hi)), hi, a, b);
    NeighboursWithinFifo(bi.queue, bi.Tracked(), bi.BlockFrom(k), bi.BlockLast(k));
    SubsetKeepsOrder(Within(h, lo, hi), BlockOrder(bi, e, k));
  }

  /** On forward graphs these are all ordered pairs of the block. */
  lemma BlockPathExact(bi: BarrierInfo, e: Edges, k: nat, a: nat, b: nat)
    requires bi.ValidConfig() && k < bi.BlockCount() && Forward(e) && bi.BlockLo(k) <= a && b <= bi.BlockHi(k)
    ensures BlockPath(bi, e, k, a, b) <==> Reach(BlockOrder(bi, e, k), a, b)
  {
    var lo, hi, h := bi.BlockLo(k), bi.BlockHi(k), e + BlockLinks(bi, k, true);
    if BlockPath(bi, e, k, a, b) {
      BlockPathReal(bi, e, k, a, b);
    }
    if Reach(BlockOrder(bi, e, k), a, b) {
      NeighboursOrder(bi.queue, bi.Tracked(), bi.BlockFrom(k), bi.BlockLast(k), e);
      ForwardZigzags(h, lo, hi, RangeEnd(hi, bi.IsSyncPoint(hi)), a, b);
    }
  }

  /** The next task on the queue of `t`; none for queues that are not tracked. */
  ghost predicate IsNext(bi: BarrierInfo, t: nat, next: int)
    requires bi.ValidConfig() && t < bi.numTasks
  {
    if bi.queue[t] !in bi.trackedQueues then next == -1
    else && (next == -1 || (t < next < bi.numTasks && bi.queue[next] == bi.queue[t]))
         && forall x :: t < x < (if next == -1 then bi.numTasks else next) ==> bi.queue[x] != bi.queue[t]
  }

  method NextOnQueue(bi: BarrierInfo, t: nat) returns (next: int)
    requires bi.ValidConfig() && t < bi.numTasks
    ensures IsNext(bi, t, next)
  {
    if bi.queue[t] in bi.trackedQueues {
      next := FindOnQueue(bi.queue, bi.queue[t], t + 1, bi.numTasks);
    } else {
      next := -1;
    }
  }

  ghost predicate LeadsToSync(bi: BarrierInfo, e: Edges, t: nat)
    requires bi.ValidConfig()
  {
    var k := BlockOf(bi, t);
    k < |bi.syncTasks| ==> BlockPath(bi, e, k, t, bi.syncTasks[k])
  }

  ghost predicate FollowsSync(bi: BarrierInfo, e: Edges, t: nat)
    requires bi.ValidConfig()
  {
    var k := BlockOf(bi, t);
    k > 0 ==> BlockPath(bi, e, k, bi.syncTasks[k - 1], t)
  }

  /** What is demanded of task `t`, whose next task on the queue is `next`. */
  ghost predicate Passes(bi: BarrierInfo, e: Edges, t: nat, next: int)
    requires bi.ValidConfig() && next >= -1
  {
    bi.IsSyncPoint(t) ||
    if next == -1 then LeadsToSync(bi, e, t) && FollowsSync(bi, e, t)
    else BlockOf(bi, t) == |bi.syncTasks| || BlockOf(bi, next) == BlockOf(bi, t)
         || (LeadsToSync(bi, e, t) && FollowsSync(bi, e, next))
  }

  ghost predicate AllPass(bi: BarrierInfo, e: Edges, n: nat)
    requires bi.ValidConfig() && n <= bi.numTasks
  {
    forall t, next :: 0 <= t < n && IsNext(bi, t, next) ==> Passes(bi, e, t, next)
  }

  lemma NextUnique(bi: BarrierInfo, t: nat, a: int, b: int)
    requires bi.ValidConfig() && t < bi.numTasks && IsNext(bi, t, a) && IsNext(bi, t, b)
    ensures a == b
  {
  }

  /** A test against the control map of block `k`. */
  method HasPath(bi: BarrierInfo, k: nat, a: nat, b: nat) returns (found: bool)
    requires bi.Valid() && bi.fifoDeps == [] && k < bi.BlockCount() && AllSplit(bi, bi.Graph())
    requires bi.BlockLo(k) <= a <= bi.BlockHi(k) && bi.BlockLo(k) <= b <= bi.BlockHi(k) && a != b
    modifies bi`producers, bi`consumers, bi`updates, bi`waits, bi`fifoDeps
    ensures bi.Valid() && bi.fifoDeps == [] && bi.producers == old(bi.producers) && bi.consumers == old(bi.consumers)
    ensures bi.updates == old(bi.updates) && bi.waits == old(bi.waits)
    ensures found <==> BlockPath(bi, bi.Graph(), k, a, b)
  {
    SplitStaysInside(bi, bi.Graph(), k);
    var ok, rows := BuildTaskControlMap(bi, k, true, false);
    found := ControlPathExists(rows, a, b, false);
  }

  /** `ok` is false where the original gives up because the task belongs to no known queue. */
  method CheckPaths(bi: BarrierInfo, t: nat) returns (ok: bool, pass: bool, ghost next: int)
    requires bi.Valid() && bi.fifoDeps == [] && t < bi.numTasks && AllSplit(bi, bi.Graph())
    modifies bi`producers, bi`consumers, bi`updates, bi`waits, bi`fifoDeps
    ensures bi.Valid() && bi.fifoDeps == [] && bi.producers == old(bi.producers) && bi.consumers == old(bi.consumers)
    ensures bi.updates == old(bi.updates) && bi.waits == old(bi.waits)
    ensures IsNext(bi, t, next) && (pass <==> Passes(bi, bi.Graph(), t, next))
    ensures ok <==> pass || bi.queue[t] in bi.trackedQueues
  {
    var following := NextOnQueue(bi, t);
    next := following;
    ok := true;
    if bi.IsSyncPoint(t) {
      return true, true, next;
    }
    var k := BlockOf(bi, t);
    if following != -1 {
      var j := BlockOf(bi, following);
      if k == |bi.syncTasks| || j == k {
        return true, true, next;
      }
      BlocksAscend(bi, t, following);
      pass := CheckToSync(bi, t);
      if pass {
        pass := CheckFromSync(bi, following);
      }
    } else {
      pass := CheckToSync(bi, t);
      if pass {
        pass := CheckFromSync(bi, t);
      }
      ok := pass || bi.queue[t] in bi.trackedQueues;
    }
  }

  method CheckToSync(bi: BarrierInfo, t: nat) returns (pass: bool)
    requires bi.Valid() && bi.fifoDeps == [] && t < bi.numTasks && !bi.IsSyncPoint(t) && AllSplit(bi, bi.Graph())
    modifies bi`producers, bi`consumers, bi`updates, bi`waits, bi`fifoDeps
    ensures bi.Valid() && bi.fifoDeps == [] && bi.producers == old(bi.producers) && bi.consumers == old(bi.consumers)
    ensures bi.updates == old(bi.updates) && bi.waits == old(bi.waits)
    ensures pass <==> LeadsToSync(bi, bi.Graph(), t)
  {
    var k := BlockOf(bi, t);
    BlockBounds(bi, t);
    if k == |bi.syncTasks| { return true; }
    pass := HasPath(bi, k, t, bi.syncTasks[k]);
  }

  method CheckFromSync(bi: BarrierInfo, t: nat) returns (pass: bool)
    requires bi.Valid() && bi.fifoDeps == [] && t < bi.numTasks && AllSplit(bi, bi.Graph())
    modifies bi`producers, bi`consumers, bi`updates, bi`waits, bi`fifoDeps
    ensures bi.Valid() && bi.fifoDeps == [] && bi.producers == old(bi.producers) && bi.consumers == old(bi.consumers)
    ensures bi.updates == old(bi.updates) && bi.waits == old(bi.waits)
    ensures pass <==> FollowsSync(bi, bi.Graph(), t)
  {
    var k := BlockOf(bi, t);
    BlockBounds(bi, t);
    if k == 0 { return true; }
    pass := HasPath(bi, k, bi.syncTasks[k - 1], t);
  }

  //
  // The verdict
  //

  /** Every task of a block with a sync point runs before it. */
  ghost predicate BeforeSyncPoints(bi: BarrierInfo, h: Edges)
    requires bi.ValidConfig()
  {
    forall t :: 0 <= t < bi.numTasks && !bi.IsSyncPoint(t) && BlockOf(bi, t) < |bi.syncTasks| ==>
      Reach(h, t, bi.syncTasks[BlockOf(bi, t)])
  }

  /** By induction along the queue: the last task of a queue in a block is checked, the others precede it. */
  lemma {:induction false} PassingTask(bi: BarrierInfo, e: Edges, t: nat)
    requires bi.ValidConfig() && AllPass(bi, e, bi.numTasks)
    requires t < bi.numTasks && !bi.IsSyncPoint(t) && BlockOf(bi, t) < |bi.syncTasks|
    ensures Reach(e + QueueEdges(bi.queue, bi.Tracked()), t, bi.syncTasks[BlockOf(bi, t)])
    decreases bi.numTasks - t
  {
    var k, h := BlockOf(bi, t), e + QueueEdges(bi.queue, bi.Tracked());
    var next := NextTask(bi, t);
    assert Passes(bi, e, t, next);
    if next != -1 && BlockOf(bi, next) == k {
      assert bi.queue[t] in bi.Tracked();
      EdgeReach(h, t, next);
      BlockBounds(bi, next);
      if next != bi.syncTasks[k] {
        PassingTask(bi, e, next);
        ReachTrans(h, t, next, bi.syncTasks[k]);
      }
    } else {
      BlockPathReal(bi, e, k, t, bi.syncTasks[k]);
      FifoWithinQueues(bi.queue, bi.Tracked(), bi.Tracked(), bi.BlockFrom(k), bi.BlockLast(k));
      SubsetKeepsOrder(BlockOrder(bi, e, k), h);
    }
  }

  lemma NextTask(bi: BarrierInfo, t: nat) returns (next: int)
    requires bi.ValidConfig() && t < bi.numTasks
    ensures IsNext(bi, t, next)
  {
    next := -1;
    if bi.queue[t] in bi.trackedQueues {
      next := t + 1;
      while next < bi.numTasks && bi.queue[next] != bi.queue[t]
        invariant t < next <= bi.numTasks && forall x :: t < x < next ==> bi.queue[x] != bi.queue[t]
      {
        next := next + 1;
      }
      if next == bi.numTasks { next := -1; }
    }
  }

  lemma PassingGraph(bi: BarrierInfo, e: Edges)
    requires bi.ValidConfig() && AllPass(bi, e, bi.numTasks)
    ensures BeforeSyncPoints(bi, e + QueueEdges(bi.queue, bi.Tracked()))
  {
    forall t | 0 <= t < bi.numTasks && !bi.IsSyncPoint(t) && BlockOf(bi, t) < |bi.syncTasks|
      ensures Reach(e + QueueEdges(bi.queue, bi.Tracked()), t, bi.syncTasks[BlockOf(bi, t)])
    {
      PassingTask(bi, e, t);
    }
  }

  /** The first task that fails its test is on a known queue. */
  ghost predicate FirstFailureKnown(bi: BarrierInfo, e: Edges)
    requires bi.ValidConfig()
  {
    exists t, next :: 0 <= t < bi.numTasks && AllPass(bi, e, t) && IsNext(bi, t, next) && !Passes(bi, e, t, next)
                      && bi.queue[t] in bi.trackedQueues
  }

  lemma FirstFailure(bi: BarrierInfo, e: Edges, t: nat, next: int)
    requires bi.ValidConfig() && t < bi.numTasks && AllPass(bi, e, t) && IsNext(bi, t, next) && !Passes(bi, e, t, next)
    ensures FirstFailureKnown(bi, e) <==> bi.queue[t] in bi.trackedQueues
    ensures !AllPass(bi, e, bi.numTasks)
  {
    if FirstFailureKnown(bi, e) {
      var u, v :| 0 <= u < bi.numTasks && AllPass(bi, e, u) && IsNext(bi, u, v) && !Passes(bi, e, u, v)
                  && bi.queue[u] in bi.trackedQueues;
      assert u == t;
    }
  }

  /** `ok` is false exactly where the original throws: no queue is known, or the first task that fails is on no known
      queue. The verdict is exact for any graph. */
  method VerifySplit(bi: BarrierInfo) returns (ok: bool, verdict: bool)
    requires bi.Valid() && bi.fifoDeps == []
    modifies bi`producers, bi`consumers, bi`updates, bi`waits, bi`fifoDeps
    ensures bi.Valid() && bi.fifoDeps == [] && bi.producers == old(bi.producers) && bi.consumers == old(bi.consumers)
    ensures bi.updates == old(bi.updates) && bi.waits == old(bi.waits)
    ensures verdict ==> ok
    ensures verdict && bi.syncTasks != [] ==> AllSplit(bi, bi.Graph()) && BeforeSyncPoints(bi, bi.Order())
    ensures verdict <==> bi.syncTasks == []
                         || (&& AllSplit(bi, bi.Graph()) && bi.trackedQueues != []
                             && AllPass(bi, bi.Graph(), bi.numTasks))
    ensures ok <==> verdict || !AllSplit(bi, bi.Graph())
                    || (bi.trackedQueues != [] && FirstFailureKnown(bi, bi.Graph()))
  {
    if bi.syncTasks == [] {
      return true, true;
    }
    var local := CheckEdges(bi);
    if !local {
      return true, false;
    }
    if bi.trackedQueues == [] {
      return false, false;
    }
    var t := 0;
    while t < bi.numTasks
      invariant t <= bi.numTasks && bi.Valid() && bi.fifoDeps == []
      invariant bi.producers == old(bi.producers) && bi.consumers == old(bi.consumers)
      invariant bi.updates == old(bi.updates) && bi.waits == old(bi.waits)
      invariant AllSplit(bi, bi.Graph()) && AllPass(bi, bi.Graph(), t)
    {
      ghost var next;
      ok, verdict, next := CheckPaths(bi, t);
      if !verdict {
        FirstFailure(bi, bi.Graph(), t, next);
        return;
      }
      AllPassStep(bi, bi.Graph(), t, next);
      t := t + 1;
    }
    PassingGraph(bi, bi.Graph());
    return true, true;
  }

  lemma AllPassStep(bi: BarrierInfo, e: Edges, t: nat, next: int)
    requires bi.ValidConfig() && t < bi.numTasks && AllPass(bi, e, t) && IsNext(bi, t, next) && Passes(bi, e, t, next)
    ensures AllPass(bi, e, t + 1)
  {
    forall u, v | 0 <= u < t + 1 && IsNext(bi, u, v)
      ensures Passes(bi, e, u, v)
    {
      if u == t { NextUnique(bi, t, next, v); }
    }
  }
}
