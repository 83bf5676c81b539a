/** The exact order of a split graph. */
module SplitOrder {
  import opened TaskGraph
  import opened Barriers
  import opened SplitLayout
  import opened ControlGraphSplit

  /** Two ordinary tasks of one block. */
  ghost predicate Companions(l: Layout, x: nat, y: nat)
    requires x < |l.blockOf| && y < |l.blockOf|
  {
    l.blockOf[x] == l.blockOf[y] && !l.IsSync(x) && !l.IsSync(y)
  }

  /** In the order `h` tasks follow each other by index, but ordinary tasks of one block are ordered as in `h0`. The
      last task is the exception as long as nothing ties it to the sync point in front of it. */
  ghost predicate OrderExact(l: Layout, h0: Edges, h: Edges)
    requires l.syncs != []
  {
    forall x, y :: 0 <= x < |l.blockOf| && 0 <= y < |l.blockOf| &&
                   (y + 1 < |l.blockOf| || Reach(h, l.syncs[|l.syncs| - 1], y)) ==>
      (Reach(h, x, y) <==> if Companions(l, x, y) then Reach(h0, x, y) else x < y)
  }

  /** Between two tasks of a block there are only tasks of the block, and no sync point. */
  lemma Between(l: Layout, x: nat, m: nat, y: nat)
    requires l.Ok() && x <= m <= y < |l.blockOf| && Companions(l, x, y)
    ensures Companions(l, x, m) && Companions(l, m, y)
  {
    BlockMonotone(l, x, m);
    BlockMonotone(l, m, y);
    SyncOfBlock(l, m);
    SyncOfBlock(l, y);
  }

  /** A path between ordinary tasks of one block uses edges of the original graph only. */
  lemma {:induction false} InnerOrder(l: Layout, e0: Edges, g: Edges, q: Edges, x: nat, y: nat)
    requires l.Ok() && Forward(q) && x < |l.blockOf| && y < |l.blockOf| && Companions(l, x, y)
    requires forall a, b :: (a, b) in g ==> LocalEdge(l, a, b) && InnerEdge(l, e0, a, b)
    requires Reach(g + q, x, y)
    ensures Reach(e0 + q, x, y)
    decreases if x < y then y - x else 0
  {
    ForwardReach(g + q, x, y);
    var m := ReachFirst(g + q, x, y);
    if m != y { ForwardReach(g + q, m, y); }
    Between(l, x, m, y);
    assert (x, m) in e0 + q;
    EdgeReach(e0 + q, x, m);
    if m != y {
      InnerOrder(l, e0, g, q, m, y);
      ReachTrans(e0 + q, x, m, y);
    }
  }

  /** Tasks of different blocks, and sync points, are ordered through the sync points in between. */
  lemma OuterOrder(l: Layout, queue: seq<nat>, p0: IndexSets, c0: IndexSets, g: Edges, q: Edges, x: nat, y: nat)
    requires l.Ok() && |queue| == |l.blockOf| && ProperBarriers(l, p0, c0) && Forward(g)
    requires Kept0(l, p0, c0, g) && IdleLinked(l, queue, p0, g) && StartersLinked(l, queue, c0, g) && SyncsLinked(l, g)
    requires forall i, j :: 0 <= i < j < |queue| && queue[i] == queue[j] ==> (i, j) in q
    requires x < y < |l.blockOf| && !Companions(l, x, y) && l.syncs != []
    requires y + 1 < |l.blockOf| || Reach(g + q, l.syncs[|l.syncs| - 1], y)
    ensures Reach(g + q, x, y)
  {
    BlockMonotone(l, x, y);
    SyncOfBlock(l, x);
    SyncOfBlock(l, y);
    var k := l.blockOf[y];
    if l.IsSync(y) {
      BeforeLaterSync(l, queue, p0, c0, g, q, x, k);
    } else {
      var s := l.syncs[k - 1];
      if y + 1 < |l.blockOf| {
        TasksAfterSync(l, queue, p0, c0, g, q, y);
      } else {
        LastTaskBlock(l, y);
      }
      BeforeLaterSync(l, queue, p0, c0, g, q, x, k - 1);
      if x != s { ReachTrans(g + q, x, s, y); }
    }
  }

  /** The statement is about the order only. */
  lemma ExactSameOrder(l: Layout, h0: Edges, h: Edges, h': Edges)
    requires l.syncs != [] && SameOrder(h, h') && OrderExact(l, h0, h)
    ensures OrderExact(l, h0, h')
  {
  }

  lemma SplitOrderExact(l: Layout, queue: seq<nat>, p0: IndexSets, c0: IndexSets, g: Edges, q: Edges)
    requires l.Ok() && |queue| == |l.blockOf| && ProperBarriers(l, p0, c0) && l.syncs != []
    requires Kept0(l, p0, c0, g) && IdleLinked(l, queue, p0, g) && StartersLinked(l, queue, c0, g) && SyncsLinked(l, g)
    requires forall a, b :: (a, b) in g ==> LocalEdge(l, a, b) && InnerEdge(l, BarrierEdges(p0, c0), a, b)
    requires forall i, j :: 0 <= i < j < |queue| && queue[i] == queue[j] ==> (i, j) in q
    requires Forward(q) && KeepsOrder(BarrierEdges(p0, c0) + q, g + q)
    ensures OrderExact(l, BarrierEdges(p0, c0) + q, g + q)
  {
    var e0 := BarrierEdges(p0, c0);
    forall x, y | 0 <= x < |l.blockOf| && 0 <= y < |l.blockOf| &&
                  (y + 1 < |l.blockOf| || Reach(g + q, l.syncs[|l.syncs| - 1], y))
      ensures Reach(g + q, x, y) <==> if Companions(l, x, y) then Reach(e0 + q, x, y) else x < y
    {
      if Reach(g + q, x, y) {
        ForwardReach(g + q, x, y);
        if Companions(l, x, y) { InnerOrder(l, e0, g, q, x, y); }
      } else if x < y && !Companions(l, x, y) {
        OuterOrder(l, queue, p0, c0, g, q, x, y);
      }
    }
  }
}
