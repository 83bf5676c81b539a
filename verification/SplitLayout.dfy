/** Division of the task list into blocks that end in sync points, and what it takes for a graph to respect it. */
module SplitLayout {
  import opened TaskGraph
  import opened Barriers

  /** Block of each task, the sync point closing each block but the last, and the number of barriers before the split.
      */
  datatype Layout = Layout(blockOf: seq<nat>, syncs: seq<nat>, base: nat) {
    ghost predicate Ok()
    {
      && |blockOf| > 0
      && (forall t :: 0 <= t < |blockOf| ==> blockOf[t] <= |syncs|)
      && (forall t, k :: 0 <= t < |blockOf| && 0 <= k < |syncs| ==> (blockOf[t] <= k <==> t <= syncs[k]))
      && (forall i, j :: 0 <= i < j < |syncs| ==> syncs[i] < syncs[j])
      && (forall k :: 0 <= k < |syncs| ==> syncs[k] + 1 < |blockOf|)
    }

    predicate IsSync(t: nat) { t in syncs }

    /** Barrier in front of the sync point of block `k`. */
    function Wait(k: nat): nat { base + 2 * k }

    /** Barrier behind the sync point of block `k`. */
    function Update(k: nat): nat { base + 2 * k + 1 }

    function Extra(): nat { base + 2 * |syncs| }
  }

  lemma SyncBlock(l: Layout, k: nat)
    requires l.Ok() && k < |l.syncs|
    ensures l.blockOf[l.syncs[k]] == k
  {
    var t := l.syncs[k];
    if k > 0 {
      var h := k - 1;
      assert l.syncs[h] < t;
      assert l.blockOf[t] <= h <==> t <= l.syncs[h];
    }
  }

  lemma BlockMonotone(l: Layout, a: nat, b: nat)
    requires l.Ok() && a <= b < |l.blockOf|
    ensures l.blockOf[a] <= l.blockOf[b]
  {
    if l.blockOf[b] < |l.syncs| {
      assert b <= l.syncs[l.blockOf[b]];
    }
  }

  /** The sync point of its own block is the only one a task can be. */
  lemma SyncOfBlock(l: Layout, t: nat)
    requires l.Ok() && t < |l.blockOf|
    ensures l.IsSync(t) ==> l.blockOf[t] < |l.syncs| && t == l.syncs[l.blockOf[t]]
    ensures l.blockOf[t] < |l.syncs| ==> t <= l.syncs[l.blockOf[t]]
    ensures l.blockOf[t] > 0 ==> l.syncs[l.blockOf[t] - 1] < t
  {
  }

  //
  // The edges that the split promises
  //

  function InBlock(l: Layout, s: set<nat>, k: nat): set<nat>
  {
    set t | t in s && t < |l.blockOf| && l.blockOf[t] == k
  }

  /** What graph `g` keeps of a barrier with producers `p` and consumers `c`: edges inside a block survive, a producer
      whose consumers are elsewhere leads to its sync point, and a consumer whose producers are elsewhere follows the
      sync point in front of its block. */
  ghost predicate Kept(l: Layout, p: set<nat>, c: set<nat>, g: Edges)
  {
    && (forall x, y :: x in p && y in c && x < |l.blockOf| && y < |l.blockOf| && l.blockOf[x] == l.blockOf[y] ==>
         (x, y) in g)
    && (forall x ::
         x in p && x < |l.blockOf| && !l.IsSync(x) && InBlock(l, c, l.blockOf[x]) == {} && l.blockOf[x] < |l.syncs| ==>
          (x, l.syncs[l.blockOf[x]]) in g)
    && (forall x, y ::
         x in p && y in c && x < |l.blockOf| && y < |l.blockOf| &&
         l.blockOf[x] < l.blockOf[y] <= |l.syncs| && !l.IsSync(y) ==>
          (l.syncs[l.blockOf[y] - 1], y) in g)
  }

  ghost predicate SyncLink(l: Layout, g: Edges, k: nat)
    requires k + 1 < |l.syncs|
  {
    (l.syncs[k], l.syncs[k + 1]) in g
  }

  /** Successive sync points are linked. */
  ghost predicate SyncsLinked(l: Layout, g: Edges)
  {
    forall k :: 0 <= k && k + 1 < |l.syncs| ==> SyncLink(l, g, k)
  }

  /** A task without update barrier is followed, on its queue and in its block, by one that leads to the sync point. */
  ghost predicate IdleLinked(l: Layout, queue: seq<nat>, p0: IndexSets, g: Edges)
    requires |queue| == |l.blockOf|
  {
    forall t {:trigger Idle(p0, t)} ::
      0 <= t < |l.blockOf| && !l.IsSync(t) && l.blockOf[t] < |l.syncs| && Idle(p0, t) ==>
      exists t' ::
        t <= t' < |l.blockOf| && queue[t'] == queue[t] && l.blockOf[t'] == l.blockOf[t] &&
        (t', l.syncs[l.blockOf[t]]) in g
  }

  ghost predicate Idle(p0: IndexSets, t: nat)
  {
    forall b :: 0 <= b < |p0| ==> t !in p0[b]
  }

  ghost predicate KeptAt(l: Layout, p0: IndexSets, c0: IndexSets, g: Edges, b: nat)
    requires b < |p0| == |c0|
  {
    Kept(l, p0[b], c0[b], g)
  }

  /** The first `n` barriers of the original graph are kept. */
  ghost predicate KeptBelow(l: Layout, p0: IndexSets, c0: IndexSets, g: Edges, n: nat)
    requires n <= |p0| == |c0|
  {
    forall b :: 0 <= b < n ==> KeptAt(l, p0, c0, g, b)
  }

  ghost predicate Kept0(l: Layout, p0: IndexSets, c0: IndexSets, g: Edges)
    requires |p0| == |c0|
  {
    KeptBelow(l, p0, c0, g, |p0|)
  }

  /** A graph whose barriers all have consumers, with users in range and producers first. */
  ghost predicate ProperBarriers(l: Layout, p0: IndexSets, c0: IndexSets)
  {
    && |p0| == |c0| && Forward(BarrierEdges(p0, c0))
    && (forall b :: 0 <= b < |p0| ==> p0[b] != {} && c0[b] != {})
    && (forall b, t :: 0 <= b < |p0| && (t in p0[b] || t in c0[b]) ==> t < |l.blockOf|)
  }

  lemma BarrierForward(p0: IndexSets, c0: IndexSets, b: nat, x: nat, y: nat)
    requires |p0| == |c0| && Forward(BarrierEdges(p0, c0)) && b < |p0| && x in p0[b] && y in c0[b]
    ensures x < y
  {
    assert (x, y) in BarrierEdges(p0, c0);
  }

  /** Queue order among the tasks of block `k`, its sync point apart. */
  ghost predicate QueuesIn(l: Layout, queue: seq<nat>, q: Edges, k: nat)
    requires |queue| == |l.blockOf|
  {
    forall i, j ::
      0 <= i < j < |queue| && queue[i] == queue[j] && l.blockOf[i] == l.blockOf[j] == k && !l.IsSync(j) ==> (i, j) in q
  }

  /** Every task of a block other than the last one runs before the sync point of the block. */
  lemma {:induction false} TasksBeforeSync(l: Layout, queue: seq<nat>, p0: IndexSets, c0: IndexSets, g: Edges, q: Edges,
                                           t: nat)
    requires l.Ok() && |queue| == |l.blockOf| && ProperBarriers(l, p0, c0)
    requires Kept0(l, p0, c0, g) && IdleLinked(l, queue, p0, g)
    requires t < |l.blockOf| && l.blockOf[t] < |l.syncs| && !l.IsSync(t) && Forward(g)
    requires QueuesIn(l, queue, q, l.blockOf[t])
    ensures Reach(g + q, t, l.syncs[l.blockOf[t]])
    decreases |l.blockOf| - t
  {
    var k, s := l.blockOf[t], l.syncs[l.blockOf[t]];
    if Idle(p0, t) {
      var t' :| t <= t' < |l.blockOf| && queue[t'] == queue[t] && l.blockOf[t'] == k && (t', s) in g;
      EdgeReach(g + q, t', s);
      SyncOfBlock(l, t');
      if t != t' {
        EdgeReach(g + q, t, t');
        ReachTrans(g + q, t, t', s);
      }
    } else {
      var b :| 0 <= b < |p0| && t in p0[b];
      assert KeptAt(l, p0, c0, g, b);
      if InBlock(l, c0[b], k) == {} {
        EdgeReach(g + q, t, s);
      } else {
        var y :| y in InBlock(l, c0[b], k);
        BarrierForward(p0, c0, b, t, y);
        EdgeReach(g + q, t, y);
        SyncOfBlock(l, y);
        if y != s {
          TasksBeforeSync(l, queue, p0, c0, g, q, y);
          ReachTrans(g + q, t, y, s);
        }
      }
    }
  }

  lemma {:induction false} SyncChain(l: Layout, g: Edges, i: nat, j: nat)
    requires l.Ok() && SyncsLinked(l, g) && i < j < |l.syncs|
    ensures Reach(g, l.syncs[i], l.syncs[j])
    decreases j - i
  {
    assert SyncLink(l, g, i);
    EdgeReach(g, l.syncs[i], l.syncs[i + 1]);
    if i + 1 < j {
      SyncChain(l, g, i + 1, j);
      ReachTrans(g, l.syncs[i], l.syncs[i + 1], l.syncs[j]);
    }
  }

  /** Every task of an earlier block runs before every later sync point. */
  lemma BeforeLaterSync(l: Layout, queue: seq<nat>, p0: IndexSets, c0: IndexSets, g: Edges, q: Edges, x: nat, j: nat)
    requires l.Ok() && |queue| == |l.blockOf| && ProperBarriers(l, p0, c0)
    requires Kept0(l, p0, c0, g) && IdleLinked(l, queue, p0, g) && SyncsLinked(l, g)
    requires forall i, j :: 0 <= i < j < |queue| && queue[i] == queue[j] ==> (i, j) in q
    requires x < |l.blockOf| && l.blockOf[x] <= j < |l.syncs| && Forward(g)
    ensures x == l.syncs[j] || Reach(g + q, x, l.syncs[j])
  {
    var i := l.blockOf[x];
    SyncOfBlock(l, x);
    if x != l.syncs[i] {
      assert !l.IsSync(x);
      TasksBeforeSync(l, queue, p0, c0, g, q, x);
    }
    if i < j {
      SyncChain(l, g, i, j);
      SubsetKeepsOrder(g, g + q);
      if x != l.syncs[i] { ReachTrans(g + q, x, l.syncs[i], l.syncs[j]); }
    }
  }

  /** A dependency between different blocks survives as a path through the sync points between them. */
  lemma CrossingKept(l: Layout, queue: seq<nat>, p0: IndexSets, c0: IndexSets, g: Edges, q: Edges, b: nat, x: nat,
                     y: nat)
    requires l.Ok() && |queue| == |l.blockOf| && ProperBarriers(l, p0, c0)
    requires Kept0(l, p0, c0, g) && IdleLinked(l, queue, p0, g) && SyncsLinked(l, g)
    requires forall i, j :: 0 <= i < j < |queue| && queue[i] == queue[j] ==> (i, j) in q
    requires b < |p0| && x in p0[b] && y in c0[b] && x < |l.blockOf| && y < |l.blockOf| && l.blockOf[x] < l.blockOf[y]
    requires Forward(g)
    ensures Reach(g + q, x, y)
  {
    var j := l.blockOf[y];
    SyncOfBlock(l, y);
    if l.IsSync(y) {
      BeforeLaterSync(l, queue, p0, c0, g, q, x, j);
    } else {
      var s := l.syncs[j - 1];
      BeforeLaterSync(l, queue, p0, c0, g, q, x, j - 1);
      assert KeptAt(l, p0, c0, g, b);
      EdgeReach(g + q, s, y);
      if x != s { ReachTrans(g + q, x, s, y); }
    }
  }

  /** A task without wait barrier is preceded, on its queue and in its block, by one that follows the sync point in
      front of the block; the last task of the program is exempt. */
  ghost predicate StartersLinked(l: Layout, queue: seq<nat>, c0: IndexSets, g: Edges)
    requires |queue| == |l.blockOf|
  {
    forall t {:trigger Idle(c0, t)} ::
      0 <= t < |l.blockOf| - 1 && !l.IsSync(t) && 0 < l.blockOf[t] <= |l.syncs| && Idle(c0, t) ==>
      exists t' ::
        0 <= t' <= t && queue[t'] == queue[t] && l.blockOf[t'] == l.blockOf[t] && (l.syncs[l.blockOf[t] - 1], t') in g
  }

  /** Every task of a block other than the first one runs after the sync point in front of the block, except possibly
      the last task of the program when it waits for no barrier. */
  lemma {:induction false} TasksAfterSync(l: Layout, queue: seq<nat>, p0: IndexSets, c0: IndexSets, g: Edges, q: Edges,
                                          t: nat)
    requires l.Ok() && |queue| == |l.blockOf| && ProperBarriers(l, p0, c0)
    requires Kept0(l, p0, c0, g) && StartersLinked(l, queue, c0, g) && SyncsLinked(l, g)
    requires t < |l.blockOf| && 0 < l.blockOf[t] && QueuesIn(l, queue, q, l.blockOf[t])
    requires t + 1 < |l.blockOf| || !Idle(c0, t)
    ensures Reach(g + q, l.syncs[l.blockOf[t] - 1], t)
    decreases t
  {
    var k := l.blockOf[t];
    var s := l.syncs[k - 1];
    SyncOfBlock(l, t);
    if l.IsSync(t) {
      assert SyncLink(l, g, k - 1);
      EdgeReach(g + q, s, t);
    } else if Idle(c0, t) {
      var t' :| 0 <= t' <= t && queue[t'] == queue[t] && l.blockOf[t'] == k && (s, t') in g;
      EdgeReach(g + q, s, t');
      if t != t' {
        EdgeReach(g + q, t', t);
        ReachTrans(g + q, s, t', t);
      }
    } else {
      var b :| 0 <= b < |c0| && t in c0[b];
      var x :| x in p0[b];
      BarrierForward(p0, c0, b, x, t);
      BlockMonotone(l, x, t);
      assert KeptAt(l, p0, c0, g, b);
      if l.blockOf[x] == k {
        TasksAfterSync(l, queue, p0, c0, g, q, x);
        EdgeReach(g + q, x, t);
        ReachTrans(g + q, s, x, t);
      } else {
        EdgeReach(g + q, s, t);
      }
    }
  }

  lemma LastTaskBlock(l: Layout, u: nat)
    requires l.Ok() && |l.syncs| > 0 && l.syncs[|l.syncs| - 1] < u < |l.blockOf|
    ensures l.blockOf[u] == |l.syncs|
  {
  }

  /** A task of the last block that shares its queue with an earlier one of the block, or with the sync point, follows
      the sync point. */
  lemma QueueAfterSync(l: Layout, queue: seq<nat>, p0: IndexSets, c0: IndexSets, g: Edges, q: Edges, s: nat, u: nat,
                       t: nat)
    requires l.Ok() && |l.syncs| > 0 && |queue| == |l.blockOf| && ProperBarriers(l, p0, c0)
    requires Kept0(l, p0, c0, g) && StartersLinked(l, queue, c0, g) && SyncsLinked(l, g)
    requires QueuesIn(l, queue, q, |l.syncs|)
    requires s == l.syncs[|l.syncs| - 1] && s <= u < t < |l.blockOf| && (u, t) in q
    ensures Reach(g + q, s, t)
  {
    EdgeReach(g + q, u, t);
    if u != s {
      LastTaskBlock(l, u);
      TasksAfterSync(l, queue, p0, c0, g, q, u);
      ReachTrans(g + q, s, u, t);
    }
  }

  /** Some task from `s` on shares the queue of the last task. */
  ghost predicate SharesQueue(queue: seq<nat>, s: nat)
    requires |queue| > 0
  {
    exists u :: s <= u < |queue| - 1 && queue[u] == queue[|queue| - 1]
  }

  /** Only then does it follow the sync point. */
  lemma LastTaskEscapes(queue: seq<nat>, g: Edges, q: Edges, s: nat)
    requires |queue| > 0 && Forward(g) && Forward(q)
    requires forall i, j :: (i, j) in q ==> i < j < |queue| && queue[i] == queue[j]
    requires forall x, y :: (x, y) in g ==> y != |queue| - 1
    requires Reach(g + q, s, |queue| - 1)
    ensures SharesQueue(queue, s)
  {
    var t := |queue| - 1;
    var u := ReachLast(g + q, s, t);
    assert (u, t) in q;
    if u != s { ForwardReach(g + q, s, u); }
  }

  /** The split loses no happens-before pair. */
  lemma SplitKeepsOrder(l: Layout, queue: seq<nat>, p0: IndexSets, c0: IndexSets, g: Edges, q: Edges)
    requires l.Ok() && |queue| == |l.blockOf| && ProperBarriers(l, p0, c0)
    requires Kept0(l, p0, c0, g) && IdleLinked(l, queue, p0, g) && SyncsLinked(l, g)
    requires forall i, j :: 0 <= i < j < |queue| && queue[i] == queue[j] ==> (i, j) in q
    requires Forward(g)
    ensures KeepsOrder(BarrierEdges(p0, c0) + q, g + q)
  {
    forall x, y | (x, y) in BarrierEdges(p0, c0) + q
      ensures Reach(g + q, x, y)
    {
      if (x, y) in q {
        EdgeReach(g + q, x, y);
      } else {
        var b :| 0 <= b < |p0| && x in p0[b] && y in c0[b];
        BarrierForward(p0, c0, b, x, y);
        BlockMonotone(l, x, y);
        assert KeptAt(l, p0, c0, g, b);
        if l.blockOf[x] == l.blockOf[y] {
          EdgeReach(g + q, x, y);
        } else {
          CrossingKept(l, queue, p0, c0, g, q, b, x, y);
        }
      }
    }
    EdgesKeepOrder(BarrierEdges(p0, c0) + q, g + q);
  }
}
