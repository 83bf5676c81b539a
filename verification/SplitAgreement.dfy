/** The split and the check of the split: which split graphs the check accepts. */
module SplitAgreement {
  import opened TaskGraph
  import opened Barriers
  import opened FifoDependencies
  import opened OptimizeBarriers
  import Layouts = SplitLayout
  import Shapes = ControlGraphSplit
  import Splits = BlockSplit
  import Checks = SplitCheck

  /** `bi` describes the program that was split along `l`, with the order of all queues known. */
  ghost predicate Describes(bi: BarrierInfo, l: Layouts.Layout)
  {
    && bi.ValidConfig() && l.Ok() && bi.syncTasks == l.syncs != [] && |l.blockOf| == bi.numTasks
    && forall t :: 0 <= t < bi.numTasks ==> bi.queue[t] in bi.trackedQueues
  }

  lemma SameBlocks(bi: BarrierInfo, l: Layouts.Layout, t: nat)
    requires Describes(bi, l) && t < bi.numTasks
    ensures Checks.BlockOf(bi, t) == l.blockOf[t]
  {
    var r := Checks.BlockOf(bi, t);
    if r > 0 {
      var h := r - 1;
      assert l.blockOf[t] <= h <==> t <= l.syncs[h];
    }
  }

  /** Edges of a split graph are edges the check accepts. */
  lemma SplitEdges(bi: BarrierInfo, l: Layouts.Layout, g: Edges)
    requires Describes(bi, l) && forall x, y :: (x, y) in g ==> Shapes.LocalEdge(l, x, y)
    ensures Checks.AllSplit(bi, g)
  {
    forall x, y | (x, y) in g
      ensures Checks.SplitEdge(bi, x, y)
    {
      SameBlocks(bi, l, x);
      SameBlocks(bi, l, y);
      Layouts.SyncOfBlock(l, x);
      Layouts.SyncOfBlock(l, y);
      Splits.LastInLastBlock(l);
    }
  }

  ghost function BlockQueues(bi: BarrierInfo, k: nat): Edges
    requires bi.ValidConfig() && k < bi.BlockCount()
  {
    BlockFifo(bi, k, true, bi.Tracked())
  }

  lemma QueuesKnown(bi: BarrierInfo, l: Layouts.Layout, k: nat)
    requires Describes(bi, l) && k < bi.BlockCount()
    ensures Layouts.QueuesIn(l, bi.queue, BlockQueues(bi, k), k)
  {
    forall i, j | 0 <= i < j < bi.numTasks && bi.queue[i] == bi.queue[j] &&
                  l.blockOf[i] == l.blockOf[j] == k && !l.IsSync(j)
      ensures (i, j) in BlockQueues(bi, k)
    {
      Layouts.SyncOfBlock(l, i);
      Layouts.SyncOfBlock(l, j);
      assert bi.queue[i] in bi.Tracked();
    }
  }

  ghost predicate IsSplit(bi: BarrierInfo, l: Layouts.Layout, p0: IndexSets, c0: IndexSets, g: Edges)
  {
    Describes(bi, l) && Layouts.ProperBarriers(l, p0, c0) && Splits.Replaces(l, bi.queue, p0, c0, g)
  }

  lemma AllLeadToSync(bi: BarrierInfo, l: Layouts.Layout, p0: IndexSets, c0: IndexSets, g: Edges, t: nat)
    requires IsSplit(bi, l, p0, c0, g) && t < bi.numTasks && !bi.IsSyncPoint(t)
    ensures Checks.LeadsToSync(bi, g, t)
  {
    var k := l.blockOf[t];
    SameBlocks(bi, l, t);
    if k < |l.syncs| {
      QueuesKnown(bi, l, k);
      Layouts.TasksBeforeSync(l, bi.queue, p0, c0, g, BlockQueues(bi, k), t);
      Checks.BlockBounds(bi, t);
      Checks.BlockPathExact(bi, g, k, t, l.syncs[k]);
    }
  }

  lemma MostFollowSync(bi: BarrierInfo, l: Layouts.Layout, p0: IndexSets, c0: IndexSets, g: Edges, t: nat)
    requires IsSplit(bi, l, p0, c0, g) && t < bi.numTasks && (t + 1 < bi.numTasks || !Layouts.Idle(c0, t))
    ensures Checks.FollowsSync(bi, g, t)
  {
    var k := l.blockOf[t];
    SameBlocks(bi, l, t);
    if k > 0 {
      QueuesKnown(bi, l, k);
      Layouts.TasksAfterSync(l, bi.queue, p0, c0, g, BlockQueues(bi, k), t);
      Checks.BlockBounds(bi, t);
      Checks.BlockPathExact(bi, g, k, l.syncs[k - 1], t);
    }
  }

  /** A task behind the last sync point shares the queue of the last task. */
  ghost predicate SharesInside(bi: BarrierInfo, s: nat)
    requires |bi.queue| > 0
  {
    exists u :: s < u < |bi.queue| - 1 && bi.queue[u] == bi.queue[|bi.queue| - 1]
  }

  lemma LastFollowsSync(bi: BarrierInfo, l: Layouts.Layout, p0: IndexSets, c0: IndexSets, g: Edges)
    requires IsSplit(bi, l, p0, c0, g) && Layouts.Idle(c0, bi.numTasks - 1)
    ensures Checks.FollowsSync(bi, g, bi.numTasks - 1) <==> SharesInside(bi, l.syncs[|l.syncs| - 1])
  {
    var m, t := |l.syncs|, bi.numTasks - 1;
    var s, q := l.syncs[m - 1], BlockQueues(bi, m);
    Splits.LastInLastBlock(l);
    SameBlocks(bi, l, t);
    QueuesKnown(bi, l, m);
    Checks.BlockPathExact(bi, g, m, s, t);
    if SharesInside(bi, s) {
      var u :| s < u < t && bi.queue[u] == bi.queue[t];
      assert bi.queue[u] in bi.Tracked();
      Layouts.QueueAfterSync(l, bi.queue, p0, c0, g, q, s, u, t);
    }
    if Checks.FollowsSync(bi, g, t) {
      var u := ReachLast(g + q, s, t);
      assert (u, t) in q;
    }
  }

  /** All but the last task are tied to the sync points around their block. */
  ghost predicate Ties(bi: BarrierInfo, g: Edges)
    requires bi.ValidConfig()
  {
    && (forall t :: 0 <= t < bi.numTasks && !bi.IsSyncPoint(t) ==> Checks.LeadsToSync(bi, g, t))
    && (forall t :: 0 <= t < bi.numTasks - 1 ==> Checks.FollowsSync(bi, g, t))
  }

  lemma SplitTies(bi: BarrierInfo, l: Layouts.Layout, p0: IndexSets, c0: IndexSets, g: Edges)
    requires IsSplit(bi, l, p0, c0, g)
    ensures Ties(bi, g)
  {
    forall t | 0 <= t < bi.numTasks && !bi.IsSyncPoint(t)
      ensures Checks.LeadsToSync(bi, g, t)
    {
      AllLeadToSync(bi, l, p0, c0, g, t);
    }
    forall t | 0 <= t < bi.numTasks - 1
      ensures Checks.FollowsSync(bi, g, t)
    {
      MostFollowSync(bi, l, p0, c0, g, t);
    }
  }

  /** Then the test of the last task decides. */
  lemma LastDecides(bi: BarrierInfo, g: Edges)
    requires bi.ValidConfig() && Ties(bi, g) && !bi.IsSyncPoint(bi.numTasks - 1)
    ensures Checks.AllPass(bi, g, bi.numTasks) <==> Checks.FollowsSync(bi, g, bi.numTasks - 1)
  {
    if Checks.FollowsSync(bi, g, bi.numTasks - 1) {
      forall t, next | 0 <= t < bi.numTasks && Checks.IsNext(bi, t, next)
        ensures Checks.Passes(bi, g, t, next)
      {
        TaskPasses(bi, g, t, next);
      }
    }
    if Checks.AllPass(bi, g, bi.numTasks) {
      LastTaskChecked(bi, g);
    }
  }

  lemma TaskPasses(bi: BarrierInfo, g: Edges, t: nat, next: int)
    requires bi.ValidConfig() && Ties(bi, g) && t < bi.numTasks && Checks.IsNext(bi, t, next)
    requires Checks.FollowsSync(bi, g, bi.numTasks - 1)
    ensures Checks.Passes(bi, g, t, next)
  {
    var u := if next == -1 then t else next;
    assert Checks.FollowsSync(bi, g, u);
    assert bi.IsSyncPoint(t) || Checks.LeadsToSync(bi, g, t);
  }

  lemma LastTaskChecked(bi: BarrierInfo, g: Edges)
    requires bi.ValidConfig() && Checks.AllPass(bi, g, bi.numTasks) && !bi.IsSyncPoint(bi.numTasks - 1)
    ensures Checks.FollowsSync(bi, g, bi.numTasks - 1)
  {
    assert Checks.IsNext(bi, bi.numTasks - 1, -1);
    assert Checks.Passes(bi, g, bi.numTasks - 1, -1);
  }

  /** The check accepts the result of a split exactly if the last task waits for some barrier or shares its queue with
      another task behind the last sync point: the split does not tie it down otherwise. */
  lemma CheckAcceptsSplit(bi: BarrierInfo, l: Layouts.Layout, p0: IndexSets, c0: IndexSets, g: Edges)
    requires IsSplit(bi, l, p0, c0, g)
    ensures Forward(g) && Checks.AllSplit(bi, g)
    ensures Checks.AllPass(bi, g, bi.numTasks) <==>
            !Layouts.Idle(c0, bi.numTasks - 1) || SharesInside(bi, l.syncs[|l.syncs| - 1])
  {
    SplitEdges(bi, l, g);
    SplitTies(bi, l, p0, c0, g);
    LastDecides(bi, g);
    LastDecided(bi, l, p0, c0, g);
  }

  lemma LastDecided(bi: BarrierInfo, l: Layouts.Layout, p0: IndexSets, c0: IndexSets, g: Edges)
    requires IsSplit(bi, l, p0, c0, g)
    ensures Checks.FollowsSync(bi, g, bi.numTasks - 1) <==>
            !Layouts.Idle(c0, bi.numTasks - 1) || SharesInside(bi, l.syncs[|l.syncs| - 1])
  {
    if Layouts.Idle(c0, bi.numTasks - 1) {
      LastFollowsSync(bi, l, p0, c0, g);
    } else {
      MostFollowSync(bi, l, p0, c0, g, bi.numTasks - 1);
    }
  }
}
