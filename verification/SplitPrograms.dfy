/** Split programs in the passes that follow the split: the graph is read again, now with its sync points, and the
    passes that work block by block accept it. */
module SplitPrograms {
  import opened TaskGraph
  import opened Barriers
  import opened BarrierEdits
  import opened OptimizeBarriers
  import opened ControlMap
  import opened RemoveRedundant
  import Layouts = SplitLayout
  import Shapes = ControlGraphSplit
  import Splits = BlockSplit
  import Orders = SplitOrder
  import Checks = SplitCheck
  import Agreement = SplitAgreement

  //
  // Reading a program
  //

  /** `addTaskOp` */
  method AddTask(info: BarrierInfo, t: nat, waits: set<nat>, updates: set<nat>)
    requires info.Valid() && t < info.numTasks && forall b :: b in waits || b in updates ==> b < |info.producers|
    modifies info`producers, info`consumers, info`updates, info`waits
    ensures info.Valid() && |info.producers| == old(|info.producers|)
    ensures info.waits == old(info.waits)[t := old(info.waits)[t] + waits]
    ensures info.updates == old(info.updates)[t := old(info.updates)[t] + updates]
  {
    var rest := waits;
    assert old(info.waits)[t] + (waits - rest) == info.waits[t];
    while rest != {}
      invariant info.Valid() && rest <= waits && |info.producers| == old(|info.producers|)
      invariant info.waits == old(info.waits)[t := old(info.waits)[t] + (waits - rest)]
      invariant info.updates == old(info.updates)
      decreases rest
    {
      var b :| b in rest;
      info.AddConsumer(b, t);
      assert old(info.waits)[t] + (waits - rest) + {b} == old(info.waits)[t] + (waits - (rest - {b}));
      rest := rest - {b};
    }
    assert waits - rest == waits;
    rest := updates;
    assert old(info.updates)[t] + (updates - rest) == info.updates[t];
    while rest != {}
      invariant info.Valid() && rest <= updates && |info.producers| == old(|info.producers|)
      invariant info.waits == old(info.waits)[t := old(info.waits)[t] + waits]
      invariant info.updates == old(info.updates)[t := old(info.updates)[t] + (updates - rest)]
      decreases rest
    {
      var b :| b in rest;
      info.AddProducer(b, t);
      assert old(info.updates)[t] + (updates - rest) + {b} == old(info.updates)[t] + (updates - (rest - {b}));
      rest := rest - {b};
    }
    assert updates - rest == updates;
  }

  /** `buildBarrierMaps` for the program that `bi` describes, some of its tasks now marked as sync points. */
  method Rebuild(bi: BarrierInfo, syncs: seq<nat>) returns (info: BarrierInfo)
    requires bi.Valid() && SyncPointsOk(syncs, bi.numTasks)
    ensures fresh(info) && info.Valid() && info.fifoDeps == [] && info.syncTasks == syncs
    ensures info.numTasks == bi.numTasks && info.queue == bi.queue && info.trackedQueues == bi.trackedQueues
    ensures info.slots == bi.slots && info.executor == bi.executor
    ensures info.producers == bi.producers && info.consumers == bi.consumers
    ensures info.updates == bi.updates && info.waits == bi.waits
  {
    info := new BarrierInfo(bi.numTasks, bi.slots, bi.executor, bi.queue, bi.trackedQueues, syncs, |bi.producers|);
    var t := 0;
    while t < bi.numTasks
      invariant t <= bi.numTasks && fresh(info) && info.Valid() && info.fifoDeps == []
      invariant |info.producers| == |bi.producers|
      invariant info.updates[..t] == bi.updates[..t] && info.waits[..t] == bi.waits[..t]
      invariant forall u :: t <= u < bi.numTasks ==> info.updates[u] == {} && info.waits[u] == {}
    {
      assert {} + bi.waits[t] == bi.waits[t] && {} + bi.updates[t] == bi.updates[t];
      AddTask(info, t, bi.waits[t], bi.updates[t]);
      t := t + 1;
    }
    assert info.updates == bi.updates && info.waits == bi.waits;
    InverseUnique(bi.producers, info.producers, bi.updates);
    InverseUnique(bi.consumers, info.consumers, bi.waits);
  }

  //
  // Split graphs are accepted block by block
  //

  /** `info` describes a program split along `l`. */
  ghost predicate InBlocks(info: BarrierInfo, l: Layouts.Layout)
  {
    info.ValidConfig() && l.Ok() && info.syncTasks == l.syncs && |l.blockOf| == info.numTasks
  }

  lemma BlockMembers(info: BarrierInfo, l: Layouts.Layout, k: nat, t: nat)
    requires InBlocks(info, l) && k < info.BlockCount() && t < info.numTasks
    ensures l.blockOf[t] == k <==> info.BlockFrom(k) <= t <= info.BlockHi(k)
    ensures info.IsSyncPoint(t) <==> l.IsSync(t)
  {
    Layouts.SyncOfBlock(l, t);
    if k > 0 {
      var h := k - 1;
      assert l.blockOf[t] <= h <==> t <= l.syncs[h];
    }
  }

  /** An edge of a split graph that starts in block `k`, or at the sync point in front of it, ends in block `k`. */
  lemma EdgeInBlock(info: BarrierInfo, l: Layouts.Layout, k: nat, x: nat, y: nat)
    requires InBlocks(info, l) && k < info.BlockCount() && Shapes.LocalEdge(l, x, y)
    requires info.BlockLo(k) <= x <= info.BlockHi(k) && !(k < |l.syncs| && x == l.syncs[k])
    ensures l.blockOf[y] == k && info.BlockFrom(k) <= y <= info.BlockHi(k)
  {
    BlockMembers(info, l, k, x);
    BlockMembers(info, l, k, y);
    Layouts.SyncOfBlock(l, x);
    Layouts.SyncOfBlock(l, y);
    if k > 0 { Layouts.SyncBlock(l, k - 1); }
  }

  /** The source of an edge into block `k` is in the block or the sync point in front of it. */
  lemma EdgeFromBlock(info: BarrierInfo, l: Layouts.Layout, k: nat, x: nat, y: nat)
    requires InBlocks(info, l) && k < info.BlockCount() && Shapes.LocalEdge(l, x, y)
    requires info.BlockFrom(k) <= y <= info.BlockHi(k)
    ensures info.BlockLo(k) <= x <= info.BlockHi(k) && !(k < |l.syncs| && x == l.syncs[k])
  {
    BlockMembers(info, l, k, x);
    BlockMembers(info, l, k, y);
    Layouts.SyncOfBlock(l, x);
    Layouts.SyncOfBlock(l, y);
  }

  lemma NoneOutside(info: BarrierInfo, l: Layouts.Layout, g: Edges, k: nat)
    requires InBlocks(info, l) && k < info.BlockCount() && forall x, y :: (x, y) in g ==> Shapes.LocalEdge(l, x, y)
    ensures !LinksOutside(g, info.BlockLo(k), info.BlockHi(k), info.IsSyncPoint(info.BlockHi(k)))
  {
    var lo, hi := info.BlockLo(k), info.BlockHi(k);
    forall t | lo <= t < if info.IsSyncPoint(hi) then hi else hi + 1
      ensures StaysInside(g, t, lo, hi)
    {
      forall y | (t, y) in g
        ensures lo <= y <= hi
      {
        if k < |l.syncs| { assert info.IsSyncPoint(l.syncs[k]); }
        EdgeInBlock(info, l, k, t, y);
      }
    }
  }

  lemma ProducersAccepted(info: BarrierInfo, l: Layouts.Layout, p: IndexSets, c: IndexSets, k: nat)
    requires InBlocks(info, l) && k < info.BlockCount() && |p| == |c| && Splits.AllUsed(l, p, c)
    requires forall x, y :: (x, y) in BarrierEdges(p, c) ==> Shapes.LocalEdge(l, x, y)
    ensures SideAccepted(info, p, info.BlockLo(k), info.BlockHi(k), info.BlockLo(k), info.BlockLast(k))
  {
    forall b, x | 0 <= b < |p| && x in p[b] && info.BlockLo(k) <= x <= info.BlockLast(k)
      ensures PairsInRange(info, p[b], info.BlockLo(k), info.BlockHi(k), info.numTasks)
    {
      assert Splits.Used(l, p[b], c[b]);
      if z :| z in c[b] {
        assert (x, z) in BarrierEdges(p, c);
        EdgeInBlock(info, l, k, x, z);
        forall y | y in p[b]
          ensures info.BlockLo(k) <= y <= info.BlockHi(k)
        {
          assert (y, z) in BarrierEdges(p, c);
          EdgeFromBlock(info, l, k, y, z);
        }
      } else {
        var i :| 0 <= i < |l.syncs| && p[b] == {l.syncs[i]};
        assert info.IsSyncPoint(l.syncs[i]);
      }
    }
  }

  lemma ConsumersAccepted(info: BarrierInfo, l: Layouts.Layout, p: IndexSets, c: IndexSets, k: nat)
    requires InBlocks(info, l) && k < info.BlockCount() && |p| == |c| && Splits.AllUsed(l, p, c)
    requires forall x, y :: (x, y) in BarrierEdges(p, c) ==> Shapes.LocalEdge(l, x, y)
    ensures SideAccepted(info, c, info.BlockLo(k), info.BlockHi(k), info.BlockFrom(k), info.BlockHi(k))
  {
    forall b, y | 0 <= b < |c| && y in c[b] && info.BlockFrom(k) <= y <= info.BlockHi(k)
      ensures PairsInRange(info, c[b], info.BlockLo(k), info.BlockHi(k), info.numTasks)
    {
      assert Splits.Used(l, p[b], c[b]);
      var w :| w in p[b];
      assert (w, y) in BarrierEdges(p, c);
      EdgeFromBlock(info, l, k, w, y);
      forall z | z in c[b]
        ensures info.BlockLo(k) <= z <= info.BlockHi(k)
      {
        assert (w, z) in BarrierEdges(p, c);
        EdgeInBlock(info, l, k, w, z);
      }
    }
  }

  /** No pass rejects a split graph: no edge jumps over a sync point, and every block is accepted. */
  lemma SplitAccepted(info: BarrierInfo, l: Layouts.Layout, p: IndexSets, c: IndexSets)
    requires InBlocks(info, l) && |p| == |c| && Splits.AllUsed(l, p, c)
    requires forall x, y :: (x, y) in BarrierEdges(p, c) ==> Shapes.LocalEdge(l, x, y)
    ensures NoCrossing(info.syncTasks, BarrierEdges(p, c)) && AllAccepted(info, p, c)
  {
    forall x, y, i | (x, y) in BarrierEdges(p, c) && 0 <= i < |l.syncs|
      ensures !(x < l.syncs[i] < y)
    {
      Layouts.SyncOfBlock(l, x);
      Layouts.SyncOfBlock(l, y);
      assert (l.blockOf[x] <= i <==> x <= l.syncs[i]) && (l.blockOf[y] <= i <==> y <= l.syncs[i]);
    }
    forall k | 0 <= k < info.BlockCount()
      ensures BlockAccepted(info, k, p, c)
    {
      NoneOutside(info, l, BarrierEdges(p, c), k);
      ProducersAccepted(info, l, p, c, k);
      ConsumersAccepted(info, l, p, c, k);
    }
  }

  //
  // From the split to the optimized program
  //

  ghost predicate AllQueuesTracked(bi: BarrierInfo)
  {
    forall t :: 0 <= t < |bi.queue| ==> bi.queue[t] in bi.Tracked()
  }

  /** Equal runs mean equal order. */
  lemma SameRunsOrder(e: Edges, f: Edges, n: nat)
    requires Forward(e) && Forward(f) && SameRuns(e, f, n)
    requires forall a, b :: (a, b) in e || (a, b) in f ==> a < n && b < n
    ensures SameOrder(e, f)
  {
    RunsDetermineOrder(e, f, n);
    RunsDetermineOrder(f, e, n);
  }

  lemma OrderInRange(info: BarrierInfo)
    requires info.Valid() && Forward(info.Graph())
    ensures Forward(info.Order()) && forall a, b :: (a, b) in info.Order() ==> a < info.numTasks && b < info.numTasks
  {
  }

  /** Removing redundant users and optimizing a program succeeds if its blocks are accepted, and changes no run. */
  method Tidy(info: BarrierInfo, fifo: bool, active: set<nat>, check: bool, limit: nat) returns (ok: bool)
    requires info.Valid() && info.fifoDeps == [] && Forward(info.Graph()) && active <= info.Tracked()
    requires NoCrossing(info.syncTasks, info.Graph()) && AllAccepted(info, info.producers, info.consumers)
    modifies info`producers, info`consumers, info`updates, info`waits, info`fifoDeps
    ensures ok && info.Valid() && info.fifoDeps == [] && Forward(info.Graph())
    ensures SameOrder(old(info.Order()), info.Order())
    ensures BlocksAntichain(info, fifo, active, info.producers, info.consumers, info.BlockCount())
  {
    OrderInRange(info);
    ok := Remove(info, fifo);
    OrderInRange(info);
    ghost var e := info.Order();
    SameRunsOrder(old(info.Order()), e, info.numTasks);
    assert NoCrossing(info.syncTasks, info.Graph());
    ok := Optimize(info, fifo, active, check, limit);
    OrderInRange(info);
    SameRunsOrder(e, info.Order(), info.numTasks);
    KeepsOrderTrans(old(info.Order()), e, info.Order());
    KeepsOrderTrans(info.Order(), e, old(info.Order()));
  }

  lemma QueuesAreTracked(bi: BarrierInfo)
    requires AllQueuesTracked(bi)
    ensures QueueEdges(bi.queue, bi.Tracked()) == Splits.AllQueues(bi.queue)
  {
  }

  /** The split, the passes that follow it on the marked program, and what holds in the end: the passes accept every
      split graph, the sync points are the last tasks of full blocks, and tasks follow each other by index, but within
      a block as they did before. */
  method SplitAndTidy(bi: BarrierInfo, blockSize: nat, fifo: bool, active: set<nat>, check: bool, limit: nat)
    returns (ok: bool, info: BarrierInfo)
    requires bi.Valid() && bi.fifoDeps == [] && Forward(bi.Graph()) && active <= bi.Tracked() && AllQueuesTracked(bi)
    modifies bi`producers, bi`consumers, bi`updates, bi`waits, bi`opCount
    ensures ok <==> 2 <= blockSize && bi.syncTasks == []
                    && (blockSize < bi.numTasks ==> Splits.BothSides(old(bi.producers), old(bi.consumers)))
    ensures ok ==> fresh(info) && info.Valid() && Forward(info.Graph()) && info.queue == bi.queue
    ensures ok ==> KeepsOrder(old(bi.Order()), info.Order())
    ensures ok ==> BlocksAntichain(info, fifo, active, info.producers, info.consumers, info.BlockCount())
    ensures ok && blockSize < bi.numTasks ==>
              var l := Layouts.Layout(Splits.BlocksOf(bi.numTasks, blockSize), info.syncTasks, old(|bi.producers|));
              (forall t: nat :: t in info.syncTasks <==> (t + 1) % blockSize == 0 && t + 1 < bi.numTasks)
              && l.syncs != [] && (forall t :: 0 <= t < bi.numTasks ==> l.blockOf[t] == t / blockSize)
              && Splits.Fenced(l, bi.queue, old(bi.consumers), info.Order())
              && Orders.OrderExact(l, old(bi.Order()), info.Order())
    ensures ok && bi.numTasks <= blockSize ==> SameOrder(old(bi.Order()), info.Order())
  {
    QueuesAreTracked(bi);
    ghost var e0 := bi.Order();
    ghost var base := |bi.producers|;
    var syncs;
    ok, syncs := Splits.SplitToBlocks(bi, blockSize);
    info := bi;
    if ok {
      info := Rebuild(bi, syncs);
      ghost var e := info.Order();
      if blockSize < bi.numTasks {
        SplitAccepted(info, Layouts.Layout(Splits.BlocksOf(bi.numTasks, blockSize), syncs, base), info.producers,
                      info.consumers);
      } else {
        UnsplitAccepted(info);
      }
      ok := Tidy(info, fifo, active, check, limit);
      KeepsOrderTrans(e0, e, info.Order());
      if blockSize < bi.numTasks {
        Orders.ExactSameOrder(Layouts.Layout(Splits.BlocksOf(bi.numTasks, blockSize), syncs, base), e0, e,
                              info.Order());
      } else {
        KeepsOrderTrans(info.Order(), e, e0);
      }
    }
  }

  lemma UnsplitAccepted(info: BarrierInfo)
    requires info.Valid() && info.syncTasks == []
    ensures NoCrossing(info.syncTasks, info.Graph()) && AllAccepted(info, info.producers, info.consumers)
  {
    SingleBlock(info, info.producers, info.consumers);
  }

  //
  // A split that its own check rejects
  //

  /** Three tasks on three queues: task 0 precedes task 1, and task 2 is idle. */
  method ThreeTasks() returns (bi: BarrierInfo)
    ensures fresh(bi) && bi.Valid() && bi.fifoDeps == [] && Forward(bi.Graph()) && bi.syncTasks == []
    ensures bi.numTasks == 3 && bi.queue == [0, 1, 2] && bi.trackedQueues == [0, 1, 2]
    ensures bi.producers == [{0}] && bi.consumers == [{1}]
  {
    bi := new BarrierInfo(3, [1, 1, 1], [0, 0, 0], [0, 1, 2], [0, 1, 2], [], 1);
    assert {} + {0} == {0} && {} + {1} == {1};
    assert bi.producers == [{}] && bi.consumers == [{}];
    bi.AddProducer(0, 0);
    assert bi.producers == [{0}];
    bi.AddConsumer(0, 1);
    assert bi.consumers == [{1}];
  }

  /** Blocks of two tasks: the split succeeds, leaves task 2 unordered with the sync point in front of it, and the
      check of the split rejects the result. */
  method SplitLeavesLastTask() returns (bi: BarrierInfo, syncs: seq<nat>, verdict: bool)
    ensures fresh(bi) && bi.Valid() && syncs == [1]
    ensures !Reach(bi.Graph() + Splits.AllQueues(bi.queue), 1, 2) && !verdict
  {
    bi := ThreeTasks();
    ghost var p0, c0 := bi.producers, bi.consumers;
    var ok;
    ok, syncs := Splits.SplitToBlocks(bi, 2);
    assert ok && 1 in syncs && |syncs| == 1 && syncs == [1];
    ghost var l := Layouts.Layout(Splits.BlocksOf(3, 2), syncs, 1);
    assert !Layouts.SharesQueue(bi.queue, 1) && Layouts.Idle(c0, 2);
    var info := Rebuild(bi, syncs);
    Agreement.CheckAcceptsSplit(info, l, p0, c0, info.Graph());
    ok, verdict := Checks.VerifySplit(info);
  }
}
