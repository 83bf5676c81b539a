/** The passes around the rerouting of barriers: creating the barriers of the sync points, tying down tasks without
    barriers, chaining the sync points and cleaning up. */
module BlockSplit {
  import opened TaskGraph
  import opened Barriers
  import opened BarrierEdits
  import opened SplitLayout
  import opened ControlGraphSplit
  import opened SplitOrder

  //
  // Blocks of equal size
  //

  function BlocksOf(numTasks: nat, blockSize: nat): seq<nat>
    requires blockSize > 0
  {
    seq(numTasks, t requires t >= 0 => t / blockSize)
  }

  /** The last task of each block but the last one. */
  function SyncsOf(numTasks: nat, blockSize: nat): seq<nat>
    requires blockSize > 0 && numTasks > 0
  {
    seq((numTasks - 1) / blockSize, k requires k >= 0 => LastOf(k, blockSize))
  }

  function LastOf(k: nat, blockSize: nat): (t: nat)
    requires blockSize > 0
    ensures t + 1 == (k + 1) * blockSize
  {
    k * blockSize + (blockSize - 1)
  }

  lemma BlockBound(t: nat, k: nat, blockSize: nat)
    requires blockSize > 0
    ensures t / blockSize <= k <==> t <= LastOf(k, blockSize)
  {
    var q, r := t / blockSize, t % blockSize;
    assert t == q * blockSize + r;
    if q <= k {
      assert q * blockSize <= k * blockSize;
    } else {
      assert q * blockSize >= (k + 1) * blockSize;
    }
  }

  lemma LastOfMonotone(i: nat, j: nat, blockSize: nat)
    requires blockSize > 0 && i < j
    ensures LastOf(i, blockSize) < LastOf(j, blockSize)
  {
  }

  lemma BlocksOk(numTasks: nat, blockSize: nat, base: nat)
    requires 0 < blockSize < numTasks
    ensures Layout(BlocksOf(numTasks, blockSize), SyncsOf(numTasks, blockSize), base).Ok()
    ensures SyncsOf(numTasks, blockSize) != []
  {
    var l := Layout(BlocksOf(numTasks, blockSize), SyncsOf(numTasks, blockSize), base);
    var m := |l.syncs|;
    forall t | 0 <= t < numTasks
      ensures l.blockOf[t] <= m
    {
      BlockBound(numTasks - 1, m, blockSize);
      BlockBound(t, m, blockSize);
    }
    forall t, k | 0 <= t < numTasks && 0 <= k < m
      ensures l.blockOf[t] <= k <==> t <= l.syncs[k]
    {
      BlockBound(t, k, blockSize);
    }
    forall i, j | 0 <= i < j < m
      ensures l.syncs[i] < l.syncs[j]
    {
      LastOfMonotone(i, j, blockSize);
    }
    forall k | 0 <= k < m
      ensures l.syncs[k] + 1 < numTasks
    {
      BlockBound(numTasks - 1, k, blockSize);
    }
    BlockBound(numTasks - 1, 0, blockSize);
  }

  /** The sync points are the last tasks of full blocks, as far as another task follows. */
  lemma SyncTasks(numTasks: nat, blockSize: nat)
    requires blockSize > 0 && numTasks > 0
    ensures forall t: nat :: t in SyncsOf(numTasks, blockSize) <==> (t + 1) % blockSize == 0 && t + 1 < numTasks
    ensures SyncsOf(numTasks, blockSize) == [] <==> numTasks <= blockSize
  {
    var syncs := SyncsOf(numTasks, blockSize);
    forall t: nat | t in syncs
      ensures (t + 1) % blockSize == 0 && t + 1 < numTasks
    {
      var k :| 0 <= k < |syncs| && syncs[k] == t;
      SyncIsLast(numTasks, blockSize, k);
    }
    forall t: nat | (t + 1) % blockSize == 0 && t + 1 < numTasks
      ensures t in syncs
    {
      LastIsSync(numTasks, blockSize, t);
    }
    BlockBound(numTasks - 1, 0, blockSize);
  }

  lemma SyncIsLast(numTasks: nat, blockSize: nat, k: nat)
    requires blockSize > 0 && numTasks > 0 && k < (numTasks - 1) / blockSize
    ensures (LastOf(k, blockSize) + 1) % blockSize == 0 && LastOf(k, blockSize) + 1 < numTasks
  {
    Multiple(k + 1, blockSize);
    BlockBound(numTasks - 1, k, blockSize);
  }

  lemma LastIsSync(numTasks: nat, blockSize: nat, t: nat)
    requires blockSize > 0 && (t + 1) % blockSize == 0 && t + 1 < numTasks
    ensures t in SyncsOf(numTasks, blockSize)
  {
    Quotient(t + 1, blockSize);
    var k := (t + 1) / blockSize - 1;
    assert LastOf(k, blockSize) == t;
    BlockBound(numTasks - 1, k, blockSize);
    assert SyncsOf(numTasks, blockSize)[k] == t;
  }

  lemma Multiple(k: nat, n: nat)
    requires n > 0
    ensures (k * n) % n == 0
  {
    var q, r := (k * n) / n, (k * n) % n;
    assert k * n == q * n + r;
    assert q < k ==> (q + 1) * n <= k * n;
    assert q > k ==> (k + 1) * n <= q * n;
  }

  lemma Quotient(m: nat, n: nat)
    requires n > 0 && m > 0 && m % n == 0
    ensures m / n > 0 && LastOf(m / n - 1, n) + 1 == m
  {
    assert m == (m / n) * n;
  }

  //
  // Step 1: barriers around the sync points
  //

  method AddSyncBarriers(bi: BarrierInfo, l: Layout)
    requires bi.Valid() && bi.fifoDeps == [] && l.Ok() && |l.blockOf| == bi.numTasks && l.base == |bi.producers|
    modifies bi`producers, bi`consumers, bi`updates, bi`waits, bi`opCount
    ensures bi.Valid() && |bi.producers| == l.Extra()
    ensures bi.producers[..l.base] == old(bi.producers) && bi.consumers[..l.base] == old(bi.consumers)
    ensures forall k :: 0 <= k < |l.syncs| ==> bi.producers[l.Wait(k)] == {} && bi.consumers[l.Wait(k)] == {l.syncs[k]}
    ensures forall k :: 0 <= k < |l.syncs| ==>
              bi.producers[l.Update(k)] == {l.syncs[k]} && bi.consumers[l.Update(k)] == {}
  {
    var k := 0;
    while k < |l.syncs|
      invariant k <= |l.syncs| && bi.Valid() && |bi.producers| == l.base + 2 * k
      invariant bi.producers[..l.base] == old(bi.producers) && bi.consumers[..l.base] == old(bi.consumers)
      invariant forall i :: 0 <= i < k ==> bi.producers[l.Wait(i)] == {} && bi.consumers[l.Wait(i)] == {l.syncs[i]}
      invariant forall i :: 0 <= i < k ==> bi.producers[l.Update(i)] == {l.syncs[i]} && bi.consumers[l.Update(i)] == {}
    {
      AddBarrier(bi, {}, {l.syncs[k]});
      AddBarrier(bi, {l.syncs[k]}, {});
      k := k + 1;
    }
  }

  lemma NewBarrier(l: Layout, j: nat)
    requires l.base <= j < l.Extra()
    ensures exists k :: 0 <= k < |l.syncs| && (j == l.Wait(k) || j == l.Update(k))
  {
    var k := (j - l.base) / 2;
    assert j == l.Wait(k) || j == l.Update(k);
  }

  /** What the split has to preserve of the original graph. */
  ghost predicate IsOrigin(l: Layout, p0: IndexSets, c0: IndexSets, origin: Origin)
    requires |p0| == |c0|
  {
    && |l.blockOf| > 0 && (origin.late <==> !Idle(c0, |l.blockOf| - 1)) && origin.edges == BarrierEdges(p0, c0)
  }

  lemma InitialShape(l: Layout, p0: IndexSets, c0: IndexSets, p: IndexSets, c: IndexSets, origin: Origin)
    requires l.Ok() && |p| == |c| == l.Extra() && |p0| == |c0| == l.base && p[..l.base] == p0 && c[..l.base] == c0
    requires forall k :: 0 <= k < |l.syncs| ==> p[l.Wait(k)] == {} && c[l.Wait(k)] == {l.syncs[k]}
    requires forall k :: 0 <= k < |l.syncs| ==> p[l.Update(k)] == {l.syncs[k]} && c[l.Update(k)] == {}
    requires IsOrigin(l, p0, c0, origin)
    ensures Split3(l, p0, c0, p, c, origin, 0)
  {
    assert forall j :: 0 <= j < l.base ==> p[j] == p0[j] && c[j] == c0[j];
    forall j, t | 0 <= j < |c| && t in c[j] && t + 1 == |l.blockOf|
      ensures origin.late
    {
      if l.base <= j {
        NewBarrier(l, j);
      }
    }
  }

  //
  // Step 2: tasks without barriers
  //

  /** A later task of the same queue and block leads to the sync point of the block. */
  ghost predicate Covered(l: Layout, queue: seq<nat>, p: IndexSets, u: nat)
    requires u < |l.blockOf| == |queue| && l.blockOf[u] < |l.syncs| && l.Extra() <= |p|
  {
    exists t :: u <= t < |queue| && queue[t] == queue[u] && l.blockOf[t] == l.blockOf[u] && t in p[l.Wait(l.blockOf[u])]
  }

  /** Before task `t`: `last` maps each queue to its last task without update barrier in the block of `t`. */
  ghost predicate LastKnown(l: Layout, queue: seq<nat>, p0: IndexSets, p: IndexSets, t: nat, last: map<nat, nat>)
    requires |l.blockOf| == |queue| && l.Extra() <= |p|
  {
    && (t < |queue| ==> forall q :: q in last ==>
          last[q] < t && !l.IsSync(last[q]) && queue[last[q]] == q && l.blockOf[last[q]] == l.blockOf[t])
    && (forall u {:trigger Idle(p0, u)} ::
         0 <= u < t && u < |queue| && !l.IsSync(u) && l.blockOf[u] < |l.syncs| && Idle(p0, u) ==>
          || Covered(l, queue, p, u)
          || (t < |queue| && l.blockOf[u] == l.blockOf[t] && queue[u] in last && u <= last[queue[u]]))
    && (forall k, x :: 0 <= k < |l.syncs| && x in p[l.Wait(k)] ==> x < t)
  }

  ghost predicate Preceded(l: Layout, queue: seq<nat>, c: IndexSets, u: nat)
    requires u < |l.blockOf| == |queue| && 0 < l.blockOf[u] <= |l.syncs| && l.Extra() <= |c|
  {
    exists t ::
      0 <= t <= u && queue[t] == queue[u] && l.blockOf[t] == l.blockOf[u] && t in c[l.Update(l.blockOf[u] - 1)]
  }

  /** Before task `t`: `first` maps each queue to its first task without wait barrier in the block of `t`. */
  ghost predicate FirstKnown(l: Layout, queue: seq<nat>, c0: IndexSets, c: IndexSets, t: nat, first: map<nat, nat>)
    requires |l.blockOf| == |queue| && l.Extra() <= |c|
  {
    && (t < |queue| ==> forall q :: q in first ==>
          first[q] < t && !l.IsSync(first[q]) && queue[first[q]] == q && l.blockOf[first[q]] == l.blockOf[t])
    && (t < |queue| && l.blockOf[t] == 0 ==> first == map[])
    && (forall u {:trigger Idle(c0, u)} ::
         0 <= u < t && u < |queue| - 1 && !l.IsSync(u) && 0 < l.blockOf[u] <= |l.syncs| && Idle(c0, u) ==>
          || Preceded(l, queue, c, u)
          || (t < |queue| && l.blockOf[u] == l.blockOf[t] && queue[u] in first && first[queue[u]] <= u))
    && (forall k, y :: 0 <= k < |l.syncs| && y in c[l.Update(k)] ==> y < t)
  }

  lemma NextBlock(l: Layout, t: nat)
    requires l.Ok() && t + 1 < |l.blockOf| && !l.IsSync(t)
    ensures l.blockOf[t + 1] == l.blockOf[t]
  {
    BlockMonotone(l, t, t + 1);
    var k := l.blockOf[t];
    if k < |l.syncs| {
      assert t <= l.syncs[k] && t != l.syncs[k];
      assert l.blockOf[t + 1] <= k;
    }
  }

  /** A task that is not a sync point still has the barriers it started with. */
  lemma StillIdle(l: Layout, p0: IndexSets, c0: IndexSets, p: IndexSets, c: IndexSets, origin: Origin, t: nat)
    requires Split3(l, p0, c0, p, c, origin, 0) && |p| == l.Extra() && !l.IsSync(t)
    requires forall k, x :: 0 <= k < |l.syncs| && x in p[l.Wait(k)] ==> x < t
    requires forall k, y :: 0 <= k < |l.syncs| && y in c[l.Update(k)] ==> y < t
    ensures Idle(p0, t) <==> Idle(p, t)
    ensures Idle(c0, t) <==> Idle(c, t)
  {
    forall j | l.base <= j < |p|
      ensures t !in p[j] && t !in c[j]
    {
      var k := (j - l.base) / 2;
      assert j == l.Wait(k) || j == l.Update(k);
      assert WaitShape(l, p[l.Wait(k)], c[l.Wait(k)], k);
      assert UpdateShape(l, p[l.Update(k)], c[l.Update(k)], k);
    }
    assert forall j :: 0 <= j < l.base ==> p[j] == p0[j] && c[j] == c0[j];
  }

  lemma EmptyRow(rows: IndexSets, cols: IndexSets, t: nat)
    requires Inverse(rows, cols) && t < |rows|
    ensures rows[t] == {} <==> Idle(cols, t)
  {
  }

  lemma Split3Grows(l: Layout, p0: IndexSets, c0: IndexSets, p: IndexSets, c: IndexSets, p': IndexSets, c': IndexSets,
                    origin: Origin, b: nat)
    requires Split3(l, p0, c0, p, c, origin, b) && Shape(l, p', c', origin) && |p| == |p'|
    requires forall j :: 0 <= j < |p| ==> p[j] <= p'[j] && c[j] <= c'[j]
    requires forall j :: 0 <= j < l.base ==> p[j] == p'[j] && c[j] == c'[j]
    ensures Split3(l, p0, c0, p', c', origin, b)
  {
    var g, g' := Settled(l, p, c, b) + Owed(l, p, c, b), Settled(l, p', c', b) + Owed(l, p', c', b);
    forall e | e in Settled(l, p, c, b)
      ensures e in Settled(l, p', c', b)
    {
      var j :| 0 <= j < |p| && (j < b || l.base <= j) && e.0 in p[j] && e.1 in c[j];
      assert e.0 in p'[j] && e.1 in c'[j];
    }
    KeptBelowGrows(l, p0, c0, g, g', b);
  }

  lemma LastSkips(l: Layout, queue: seq<nat>, p0: IndexSets, p: IndexSets, t: nat, last: map<nat, nat>)
    requires l.Ok() && t < |l.blockOf| == |queue| && l.Extra() <= |p| && LastKnown(l, queue, p0, p, t, last)
    requires !l.IsSync(t)
    requires l.blockOf[t] == |l.syncs| || !Idle(p0, t)
    ensures LastKnown(l, queue, p0, p, t + 1, last)
  {
    if t + 1 < |queue| { NextBlock(l, t); } else { LastInLastBlock(l); }
  }

  lemma LastInLastBlock(l: Layout)
    requires l.Ok()
    ensures l.blockOf[|l.blockOf| - 1] == |l.syncs|
  {
    if |l.syncs| > 0 {
      var h := |l.syncs| - 1;
      assert l.syncs[h] + 1 < |l.blockOf|;
      LastTaskBlock(l, |l.blockOf| - 1);
    }
  }

  lemma LastMoves(l: Layout, queue: seq<nat>, p0: IndexSets, p: IndexSets, t: nat, last: map<nat, nat>)
    requires l.Ok() && t < |l.blockOf| == |queue| && l.Extra() <= |p| && LastKnown(l, queue, p0, p, t, last)
    requires !l.IsSync(t)
    requires l.blockOf[t] < |l.syncs|
    ensures LastKnown(l, queue, p0, p, t + 1, last[queue[t] := t])
  {
    LastInLastBlock(l);
    NextBlock(l, t);
  }

  lemma LastFlushed(l: Layout, queue: seq<nat>, p0: IndexSets, p: IndexSets, t: nat, last: map<nat, nat>, k: nat)
    requires l.Ok() && t < |l.blockOf| == |queue| && l.Extra() <= |p| && LastKnown(l, queue, p0, p, t, last)
    requires k < |l.syncs| && t == l.syncs[k]
    ensures LastKnown(l, queue, p0, p[l.Wait(k) := p[l.Wait(k)] + last.Values], t + 1, map[])
  {
    var p' := p[l.Wait(k) := p[l.Wait(k)] + last.Values];
    SyncBlock(l, k);
    forall u | 0 <= u < t && !l.IsSync(u) && l.blockOf[u] < |l.syncs| && Idle(p0, u)
      ensures Covered(l, queue, p', u)
    {
      if Covered(l, queue, p, u) {
        var x :| u <= x < |queue| && queue[x] == queue[u] && l.blockOf[x] == l.blockOf[u] &&
                  x in p[l.Wait(l.blockOf[u])];
        assert x in p'[l.Wait(l.blockOf[u])];
      } else {
        var x := last[queue[u]];
        assert x in last.Values && x in p'[l.Wait(k)];
      }
    }
    forall i, x | 0 <= i < |l.syncs| && x in p'[l.Wait(i)]
      ensures x < t + 1
    {
      assert x in p[l.Wait(i)] || x in last.Values;
    }
  }

  method LinkLast(bi: BarrierInfo, l: Layout, ghost p0: IndexSets, ghost c0: IndexSets, t: nat, last: map<nat, nat>,
                  ghost origin: Origin)
    returns (last': map<nat, nat>)
    requires bi.Valid() && l.Ok() && t < |l.blockOf| == bi.numTasks && |bi.producers| == l.Extra()
    requires Split3(l, p0, c0, bi.producers, bi.consumers, origin, 0)
    requires LastKnown(l, bi.queue, p0, bi.producers, t, last)
    requires forall k, y :: 0 <= k < |l.syncs| && y in bi.consumers[l.Update(k)] ==> y < t
    modifies bi`producers, bi`updates
    ensures bi.Valid() && |bi.producers| == l.Extra()
    ensures Split3(l, p0, c0, bi.producers, bi.consumers, origin, 0)
    ensures LastKnown(l, bi.queue, p0, bi.producers, t + 1, last')
  {
    var k := l.blockOf[t];
    last' := last;
    SyncOfBlock(l, t);
    if k < |l.syncs| && t == l.syncs[k] {
      ghost var pp := bi.producers;
      LastFlushed(l, bi.queue, p0, pp, t, last, k);
      WaitGrows(l, pp, bi.consumers, origin, k, last.Values, l.base);
      bi.AddProducers(l.Wait(k), last.Values);
      Split3Grows(l, p0, c0, pp, bi.consumers, bi.producers, bi.consumers, origin, 0);
      last' := map[];
    } else {
      StillIdle(l, p0, c0, bi.producers, bi.consumers, origin, t);
      EmptyRow(bi.updates, bi.producers, t);
      if k < |l.syncs| && bi.updates[t] == {} {
        LastMoves(l, bi.queue, p0, bi.producers, t, last);
        last' := last[bi.queue[t] := t];
      } else {
        LastSkips(l, bi.queue, p0, bi.producers, t, last);
      }
    }
  }

  lemma FirstSkips(l: Layout, queue: seq<nat>, c0: IndexSets, c: IndexSets, t: nat, first: map<nat, nat>)
    requires l.Ok() && t + 1 < |l.blockOf| == |queue| && l.Extra() <= |c| && FirstKnown(l, queue, c0, c, t, first)
    requires !l.IsSync(t)
    requires l.blockOf[t] == 0 || !Idle(c0, t) || queue[t] in first
    ensures FirstKnown(l, queue, c0, c, t + 1, first)
  {
    NextBlock(l, t);
  }

  lemma FirstMoves(l: Layout, queue: seq<nat>, c0: IndexSets, c: IndexSets, t: nat, first: map<nat, nat>)
    requires l.Ok() && t + 1 < |l.blockOf| == |queue| && l.Extra() <= |c| && FirstKnown(l, queue, c0, c, t, first)
    requires !l.IsSync(t)
    requires l.blockOf[t] > 0 && queue[t] !in first
    ensures FirstKnown(l, queue, c0, c, t + 1, first[queue[t] := t])
  {
    NextBlock(l, t);
  }

  lemma FirstLeaves(l: Layout, queue: seq<nat>, c0: IndexSets, c: IndexSets, t: nat, first: map<nat, nat>)
    requires l.Ok() && t < |l.blockOf| == |queue| && l.Extra() <= |c| && FirstKnown(l, queue, c0, c, t, first)
    requires l.blockOf[t] == 0 && l.IsSync(t)
    ensures FirstKnown(l, queue, c0, c, t + 1, first)
  {
  }

  lemma FirstFlushed(l: Layout, queue: seq<nat>, c0: IndexSets, c: IndexSets, t: nat, first: map<nat, nat>, k: nat)
    requires l.Ok() && t < |l.blockOf| == |queue| && l.Extra() <= |c| && FirstKnown(l, queue, c0, c, t, first)
    requires k + 1 == l.blockOf[t] && (t == |queue| - 1 || l.IsSync(t)) && k < |l.syncs|
    ensures FirstKnown(l, queue, c0, c[l.Update(k) := c[l.Update(k)] + first.Values], t + 1, map[])
  {
  }

  method LinkFirst(bi: BarrierInfo, l: Layout, ghost p0: IndexSets, ghost c0: IndexSets, t: nat, first: map<nat, nat>,
                   ghost origin: Origin)
    returns (first': map<nat, nat>)
    requires bi.Valid() && l.Ok() && t < |l.blockOf| == bi.numTasks && |bi.producers| == l.Extra()
    requires Split3(l, p0, c0, bi.producers, bi.consumers, origin, 0)
    requires FirstKnown(l, bi.queue, c0, bi.consumers, t, first)
    requires l.syncs != []
    modifies bi`consumers, bi`waits
    ensures bi.Valid() && |bi.consumers| == l.Extra()
    ensures Split3(l, p0, c0, bi.producers, bi.consumers, origin, 0)
    ensures FirstKnown(l, bi.queue, c0, bi.consumers, t + 1, first')
  {
    var k := l.blockOf[t];
    first' := first;
    SyncOfBlock(l, t);
    LastInLastBlock(l);
    if k == 0 {
      if l.IsSync(t) {
        FirstLeaves(l, bi.queue, c0, bi.consumers, t, first);
      } else {
        FirstSkips(l, bi.queue, c0, bi.consumers, t, first);
      }
    } else if t == bi.numTasks - 1 || (k < |l.syncs| && t == l.syncs[k]) {
      ghost var cc := bi.consumers;
      FirstFlushed(l, bi.queue, c0, cc, t, first, k - 1);
      UpdateGrows(l, bi.producers, cc, origin, k - 1, first.Values, l.base);
      bi.AddConsumers(l.Update(k - 1), first.Values);
      Split3Grows(l, p0, c0, bi.producers, cc, bi.producers, bi.consumers, origin, 0);
      first' := map[];
    } else {
      FirstInside(l, p0, c0, bi.producers, bi.consumers, origin, t, bi.queue, first);
      EmptyRow(bi.waits, bi.consumers, t);
      if bi.waits[t] == {} && bi.queue[t] !in first {
        first' := first[bi.queue[t] := t];
      }
    }
  }

  lemma FirstInside(l: Layout, p0: IndexSets, c0: IndexSets, p: IndexSets, c: IndexSets, origin: Origin, t: nat,
                    queue: seq<nat>, first: map<nat, nat>)
    requires l.Ok() && t + 1 < |l.blockOf| == |queue| && |p| == l.Extra() && Split3(l, p0, c0, p, c, origin, 0)
    requires FirstKnown(l, queue, c0, c, t, first) && !l.IsSync(t) && l.blockOf[t] > 0
    ensures FirstKnown(l, queue, c0, c, t + 1, if Idle(c, t) && queue[t] !in first then first[queue[t] := t] else first)
  {
    StillAwaitless(l, p0, c0, p, c, origin, t);
    if Idle(c, t) && queue[t] !in first {
      FirstMoves(l, queue, c0, c, t, first);
    } else {
      FirstSkips(l, queue, c0, c, t, first);
    }
  }

  /** A task that is not a sync point still has the wait barriers it started with. */
  lemma StillAwaitless(l: Layout, p0: IndexSets, c0: IndexSets, p: IndexSets, c: IndexSets, origin: Origin, t: nat)
    requires Split3(l, p0, c0, p, c, origin, 0) && |p| == l.Extra() && !l.IsSync(t)
    requires forall k, y :: 0 <= k < |l.syncs| && y in c[l.Update(k)] ==> y < t
    ensures Idle(c0, t) <==> Idle(c, t)
  {
    forall j | l.base <= j < |p|
      ensures t !in c[j]
    {
      NewBarrier(l, j);
      var k :| 0 <= k < |l.syncs| && (j == l.Wait(k) || j == l.Update(k));
      assert WaitShape(l, p[l.Wait(k)], c[l.Wait(k)], k);
    }
    assert forall j :: 0 <= j < l.base ==> c[j] == c0[j];
  }

  /** Every task without update barrier is tied to the sync point behind it, and every task without wait barrier to the
      sync point in front of it. */
  ghost predicate Tied(l: Layout, queue: seq<nat>, p0: IndexSets, c0: IndexSets, p: IndexSets, c: IndexSets)
    requires |l.blockOf| == |queue| && l.Extra() <= |p| == |c|
  {
    && (forall u {:trigger Idle(p0, u)} ::
         0 <= u < |queue| && !l.IsSync(u) && l.blockOf[u] < |l.syncs| && Idle(p0, u) ==> Covered(l, queue, p, u))
    && (forall u {:trigger Idle(c0, u)} ::
         0 <= u < |queue| - 1 && !l.IsSync(u) && 0 < l.blockOf[u] <= |l.syncs| && Idle(c0, u) ==>
           Preceded(l, queue, c, u))
  }

  method LinkIdleTasks(bi: BarrierInfo, l: Layout, ghost p0: IndexSets, ghost c0: IndexSets, ghost origin: Origin)
    requires bi.Valid() && l.Ok() && |l.blockOf| == bi.numTasks && |bi.producers| == l.Extra() && l.syncs != []
    requires Split3(l, p0, c0, bi.producers, bi.consumers, origin, 0)
    requires forall k :: 0 <= k < |l.syncs| ==> bi.producers[l.Wait(k)] == {} && bi.consumers[l.Update(k)] == {}
    modifies bi`producers, bi`updates, bi`consumers, bi`waits
    ensures bi.Valid() && Split3(l, p0, c0, bi.producers, bi.consumers, origin, 0)
    ensures Tied(l, bi.queue, p0, c0, bi.producers, bi.consumers)
  {
    var last, first := map[], map[];
    var t := 0;
    while t < bi.numTasks
      invariant t <= bi.numTasks && bi.Valid() && |bi.producers| == l.Extra()
      invariant Split3(l, p0, c0, bi.producers, bi.consumers, origin, 0)
      invariant LastKnown(l, bi.queue, p0, bi.producers, t, last) && FirstKnown(l, bi.queue, c0, bi.consumers, t, first)
    {
      last := LinkLast(bi, l, p0, c0, t, last, origin);
      first := LinkFirst(bi, l, p0, c0, t, first, origin);
      t := t + 1;
    }
  }

  lemma TiedGrows(l: Layout, queue: seq<nat>, p0: IndexSets, c0: IndexSets, p: IndexSets, c: IndexSets, p': IndexSets,
                  c': IndexSets, b: nat)
    requires |l.blockOf| == |queue| && l.Extra() <= |p| == |c| && |p'| == |c'| && Tied(l, queue, p0, c0, p, c)
    requires Grown(l, p, c, p', c', b) && (b < l.base || |p| <= b)
    ensures Tied(l, queue, p0, c0, p', c')
  {
    TiedStays(l, queue, p0, c0, p, c, p', c');
  }

  /** The barriers created by the split only gain users. */
  ghost predicate NewGrown(l: Layout, p: IndexSets, c: IndexSets, p': IndexSets, c': IndexSets)
    requires |p| == |c| && |p'| == |c'|
  {
    |p| <= |p'| && forall j :: l.base <= j < |p| ==> p[j] <= p'[j] && c[j] <= c'[j]
  }

  lemma TiedStays(l: Layout, queue: seq<nat>, p0: IndexSets, c0: IndexSets, p: IndexSets, c: IndexSets, p': IndexSets,
                  c': IndexSets)
    requires |l.blockOf| == |queue| && l.Extra() <= |p| == |c| && |p'| == |c'| && Tied(l, queue, p0, c0, p, c)
    requires NewGrown(l, p, c, p', c')
    ensures Tied(l, queue, p0, c0, p', c')
  {
  }

  lemma NewGrownTrans(l: Layout, p: IndexSets, c: IndexSets, p1: IndexSets, c1: IndexSets, p2: IndexSets, c2: IndexSets)
    requires |p| == |c| && |p1| == |c1| && |p2| == |c2| && NewGrown(l, p, c, p1, c1) && NewGrown(l, p1, c1, p2, c2)
    ensures NewGrown(l, p, c, p2, c2)
  {
  }

  //
  // Step 3: every barrier in turn
  //

  /** A barrier of the original graph has producers and consumers. */
  ghost predicate BothSides(p0: IndexSets, c0: IndexSets)
    requires |p0| == |c0|
  {
    forall b :: 0 <= b < |p0| ==> p0[b] != {} && c0[b] != {}
  }

  ghost predicate InRange(l: Layout, p0: IndexSets, c0: IndexSets)
    requires |p0| == |c0|
  {
    forall b, t :: 0 <= b < |p0| && (t in p0[b] || t in c0[b]) ==> t < |l.blockOf|
  }

  lemma BarrierProper(l: Layout, p0: IndexSets, c0: IndexSets, origin: Origin, b: nat)
    requires |p0| == |c0| && Forward(BarrierEdges(p0, c0)) && InRange(l, p0, c0)
    requires b < |p0| && p0[b] != {} && c0[b] != {} && |l.blockOf| > 0 && IsOrigin(l, p0, c0, origin)
    ensures Proper(l, p0[b], c0[b], origin)
  {
    forall x, y | x in p0[b] && y in c0[b]
      ensures x < y
    {
      BarrierForward(p0, c0, b, x, y);
    }
  }

  lemma SidesBelow(p0: IndexSets, c0: IndexSets, b: nat)
    requires b < |p0| == |c0|
    ensures BothSides(p0[..b + 1], c0[..b + 1]) <==> BothSides(p0[..b], c0[..b]) && p0[b] != {} && c0[b] != {}
    ensures BothSides(p0, c0) ==> BothSides(p0[..b + 1], c0[..b + 1])
  {
    var p, c := p0[..b + 1], c0[..b + 1];
    assert p[..b] == p0[..b] && c[..b] == c0[..b] && p[b] == p0[b] && c[b] == c0[b];
    assert BothSides(p, c) ==> forall i :: 0 <= i < b ==> p0[..b][i] == p[i] && c0[..b][i] == c[i];
    assert BothSides(p0[..b], c0[..b]) ==> forall i :: 0 <= i < b ==> p[i] == p0[..b][i] && c[i] == c0[..b][i];
  }

  method SplitBarriers(bi: BarrierInfo, l: Layout, ghost p0: IndexSets, ghost c0: IndexSets, ghost origin: Origin)
    returns (ok: bool)
    requires bi.Valid() && bi.fifoDeps == [] && l.Ok() && |l.blockOf| == bi.numTasks
    requires Split3(l, p0, c0, bi.producers, bi.consumers, origin, 0)
    requires Tied(l, bi.queue, p0, c0, bi.producers, bi.consumers)
    requires Forward(BarrierEdges(p0, c0)) && InRange(l, p0, c0) && IsOrigin(l, p0, c0, origin)
    modifies bi`producers, bi`consumers, bi`updates, bi`waits, bi`opCount
    ensures bi.Valid() && (ok <==> BothSides(p0, c0))
    ensures ok ==> Split3(l, p0, c0, bi.producers, bi.consumers, origin, l.base)
    ensures ok ==> Tied(l, bi.queue, p0, c0, bi.producers, bi.consumers)
  {
    ghost var pp, cc := bi.producers, bi.consumers;
    var b := 0;
    while b < l.base
      invariant b <= l.base && bi.Valid() && Split3(l, p0, c0, bi.producers, bi.consumers, origin, b)
      invariant NewGrown(l, pp, cc, bi.producers, bi.consumers)
      invariant BothSides(p0[..b], c0[..b])
    {
      SidesBelow(p0, c0, b);
      if bi.producers[b] == {} || bi.consumers[b] == {} {
        return false;
      }
      ghost var p1, c1 := bi.producers, bi.consumers;
      b := SplitNext(bi, l, p0, c0, b, origin);
      NewGrownTrans(l, pp, cc, p1, c1, bi.producers, bi.consumers);
    }
    TiedStays(l, bi.queue, p0, c0, pp, cc, bi.producers, bi.consumers);
    assert p0[..b] == p0 && c0[..b] == c0;
    return true;
  }

  method SplitNext(bi: BarrierInfo, l: Layout, ghost p0: IndexSets, ghost c0: IndexSets, b: nat, ghost origin: Origin)
    returns (next: nat)
    requires bi.Valid() && bi.fifoDeps == [] && l.Ok() && |l.blockOf| == bi.numTasks && b < l.base
    requires Split3(l, p0, c0, bi.producers, bi.consumers, origin, b)
    requires Forward(BarrierEdges(p0, c0)) && InRange(l, p0, c0) && IsOrigin(l, p0, c0, origin)
    requires p0[b] != {} && c0[b] != {}
    modifies bi`producers, bi`consumers, bi`updates, bi`waits, bi`opCount
    ensures next == b + 1
    ensures bi.Valid() && Split3(l, p0, c0, bi.producers, bi.consumers, origin, next)
    ensures NewGrown(l, old(bi.producers), old(bi.consumers), bi.producers, bi.consumers)
  {
    ghost var p1, c1 := bi.producers, bi.consumers;
    BarrierProper(l, p0, c0, origin, b);
    var home := SplitBarrier(bi, l, b, origin);
    Split3Step(l, p0, c0, p1, c1, bi.producers, bi.consumers, origin, b, home);
    next := b + 1;
  }

  //
  // Step 4: the chain of sync points
  //

  ghost predicate ChainedAt(l: Layout, c: IndexSets, k: nat)
    requires l.Extra() <= |c| && k + 1 < |l.syncs|
  {
    l.syncs[k + 1] in c[l.Update(k)]
  }

  ghost predicate Chained(l: Layout, c: IndexSets, n: nat)
    requires l.Extra() <= |c|
  {
    forall k :: 0 <= k < n && k + 1 < |l.syncs| ==> ChainedAt(l, c, k)
  }

  method ChainSyncPoints(bi: BarrierInfo, l: Layout, ghost p0: IndexSets, ghost c0: IndexSets, ghost origin: Origin)
    requires bi.Valid() && l.Ok() && |l.blockOf| == bi.numTasks
    requires Split3(l, p0, c0, bi.producers, bi.consumers, origin, l.base)
    requires Tied(l, bi.queue, p0, c0, bi.producers, bi.consumers)
    modifies bi`consumers, bi`waits
    ensures bi.Valid()
    ensures Split3(l, p0, c0, bi.producers, bi.consumers, origin, l.base)
    ensures Tied(l, bi.queue, p0, c0, bi.producers, bi.consumers)
    ensures Chained(l, bi.consumers, |l.syncs|)
  {
    var k := 0;
    while k + 1 < |l.syncs|
      invariant k <= |l.syncs| && bi.Valid()
      invariant Split3(l, p0, c0, bi.producers, bi.consumers, origin, l.base)
      invariant Tied(l, bi.queue, p0, c0, bi.producers, bi.consumers)
      invariant Chained(l, bi.consumers, k)
    {
      ChainNext(bi, l, p0, c0, k, origin);
      k := k + 1;
    }
  }

  method ChainNext(bi: BarrierInfo, l: Layout, ghost p0: IndexSets, ghost c0: IndexSets, k: nat, ghost origin: Origin)
    requires bi.Valid() && l.Ok() && |l.blockOf| == bi.numTasks && k + 1 < |l.syncs|
    requires Split3(l, p0, c0, bi.producers, bi.consumers, origin, l.base)
    requires Tied(l, bi.queue, p0, c0, bi.producers, bi.consumers)
    requires Chained(l, bi.consumers, k)
    modifies bi`consumers, bi`waits
    ensures bi.Valid()
    ensures Split3(l, p0, c0, bi.producers, bi.consumers, origin, l.base)
    ensures Tied(l, bi.queue, p0, c0, bi.producers, bi.consumers)
    ensures Chained(l, bi.consumers, k + 1)
  {
    ghost var cc := bi.consumers;
    SyncBlock(l, k + 1);
    UpdateGrows(l, bi.producers, cc, origin, k, {l.syncs[k + 1]}, |cc|);
    bi.AddConsumer(l.Update(k), l.syncs[k + 1]);
    Split3Grows(l, p0, c0, bi.producers, cc, bi.producers, bi.consumers, origin, l.base);
    TiedGrows(l, bi.queue, p0, c0, bi.producers, cc, bi.producers, bi.consumers, |cc|);
    ChainedStep(l, cc, k);
  }

  lemma ChainedStep(l: Layout, c: IndexSets, k: nat)
    requires l.Extra() <= |c| && k + 1 < |l.syncs| && Chained(l, c, k)
    ensures Chained(l, c[l.Update(k) := c[l.Update(k)] + {l.syncs[k + 1]}], k + 1)
  {
    var c' := c[l.Update(k) := c[l.Update(k)] + {l.syncs[k + 1]}];
    forall i | 0 <= i < k + 1 && i + 1 < |l.syncs|
      ensures ChainedAt(l, c', i)
    {
      if i < k { assert ChainedAt(l, c, i); }
    }
  }

  //
  // Step 5: barriers that lost all consumers
  //

  /** The first `b` barriers are swept: no original dependency is lost, and those barriers are used on both sides or not
      at all. */
  ghost predicate Swept(l: Layout, p0: IndexSets, c0: IndexSets, p: IndexSets, c: IndexSets, origin: Origin, b: nat)
  {
    && Shape(l, p, c, origin) && |p0| == |c0| == l.base && b <= l.base
    && (forall j :: 0 <= j < b ==> Local(l, p[j], c[j], origin) && (p[j] == {} <==> c[j] == {}))
    && (forall j :: b <= j < l.base ==> Clean(l, p[j], c[j], origin))
    && Kept0(l, p0, c0, Settled(l, p, c, l.base) + Owed(l, p, c, l.base))
    && Chained(l, c, |l.syncs|)
  }

  /** Every producer of barrier `b` leads to its sync point by other means. */
  ghost predicate Handed(l: Layout, tasks: set<nat>, p: IndexSets)
    requires l.Extra() <= |p|
  {
    forall x :: x in tasks && x < |l.blockOf| && l.blockOf[x] < |l.syncs| && !l.IsSync(x) ==>
      x in p[l.Wait(l.blockOf[x])]
  }

  method HandProducers(bi: BarrierInfo, l: Layout, b: nat, ghost origin: Origin)
    requires bi.Valid() && l.Ok() && |l.blockOf| == bi.numTasks && b < l.base
    requires Shape(l, bi.producers, bi.consumers, origin) && bi.consumers[b] == {}
    requires Clean(l, bi.producers[b], {}, origin)
    modifies bi`producers, bi`updates
    ensures bi.Valid() && Shape(l, bi.producers, bi.consumers, origin) && bi.producers[b] == old(bi.producers[b])
    ensures Grown(l, old(bi.producers), bi.consumers, bi.producers, bi.consumers, b)
    ensures Handed(l, bi.producers[b], bi.producers)
  {
    ghost var pp, cc := bi.producers, bi.consumers;
    var done, rest := {}, bi.producers[b];
    while rest != {}
      invariant bi.Valid() && Shape(l, bi.producers, bi.consumers, origin)
      invariant done + rest == pp[b] && bi.producers[b] == pp[b]
      invariant Grown(l, pp, cc, bi.producers, bi.consumers, b) && Handed(l, done, bi.producers)
      decreases rest
    {
      var x :| x in rest;
      var k := l.blockOf[x];
      SyncOfBlock(l, x);
      SyncBlock(l, k);
      ghost var p1 := bi.producers;
      if x != l.syncs[k] {
        WaitGrows(l, p1, cc, origin, k, {x}, b);
        bi.AddProducer(l.Wait(k), x);
        GrownTrans(l, pp, cc, p1, cc, bi.producers, cc, b);
      }
      done, rest := done + {x}, rest - {x};
    }
    assert done == pp[b];
  }

  lemma SweepGrows(l: Layout, p: IndexSets, c: IndexSets, p': IndexSets, c': IndexSets, origin: Origin, b: nat)
    requires Shape(l, p, c, origin) && Shape(l, p', c', origin) && b < l.base && c[b] == {}
    requires Grown(l, p, c, p', c', b) && Handed(l, p[b], p')
    ensures Settled(l, p, c, l.base) + Owed(l, p, c, l.base) <= Settled(l, p', c', l.base) + Owed(l, p', c', l.base)
  {
  }

  lemma SweptStep(l: Layout, p0: IndexSets, c0: IndexSets, p: IndexSets, c: IndexSets, p': IndexSets, c': IndexSets,
                  origin: Origin, b: nat)
    requires Swept(l, p0, c0, p, c, origin, b) && b < l.base && c[b] == {}
    requires Shape(l, p', c', origin) && p'[b] == c'[b] == {} && Grown(l, p, c, p', c', b) && Handed(l, p[b], p')
    ensures Swept(l, p0, c0, p', c', origin, b + 1)
  {
    SweepGrows(l, p, c, p', c', origin, b);
    assert Chained(l, c', |l.syncs|) by {
      forall k | 0 <= k && k + 1 < |l.syncs| ensures ChainedAt(l, c', k) { assert ChainedAt(l, c, k); }
    }
    var g, g' := Settled(l, p, c, l.base) + Owed(l, p, c, l.base), Settled(l, p', c', l.base) + Owed(l, p', c', l.base);
    KeptBelowGrows(l, p0, c0, g, g', |p0|);
  }

  method SweepBarrier(bi: BarrierInfo, l: Layout, ghost p0: IndexSets, ghost c0: IndexSets, b: nat,
                      ghost origin: Origin)
    requires bi.Valid() && l.Ok() && |l.blockOf| == bi.numTasks && b < l.base
    requires Swept(l, p0, c0, bi.producers, bi.consumers, origin, b) && bi.consumers[b] == {}
    requires Tied(l, bi.queue, p0, c0, bi.producers, bi.consumers)
    modifies bi`producers, bi`consumers, bi`updates, bi`waits
    ensures bi.Valid() && Swept(l, p0, c0, bi.producers, bi.consumers, origin, b + 1)
    ensures Tied(l, bi.queue, p0, c0, bi.producers, bi.consumers)
  {
    ghost var pp, cc := bi.producers, bi.consumers;
    HandProducers(bi, l, b, origin);
    ghost var p1 := bi.producers;
    bi.ResetBarrier(b);
    OwnShape(l, p1, cc, origin, b, {}, {});
    GrownTrans(l, pp, cc, p1, cc, bi.producers, bi.consumers, b);
    SweptStep(l, p0, c0, pp, cc, bi.producers, bi.consumers, origin, b);
    TiedGrows(l, bi.queue, p0, c0, pp, cc, bi.producers, bi.consumers, b);
  }

  lemma SweptNext(l: Layout, p0: IndexSets, c0: IndexSets, p: IndexSets, c: IndexSets, origin: Origin, b: nat)
    requires Swept(l, p0, c0, p, c, origin, b) && b < l.base
    ensures p[b] != {} && (c[b] != {} ==> Swept(l, p0, c0, p, c, origin, b + 1))
  {
  }

  lemma SweptUse(l: Layout, p0: IndexSets, c0: IndexSets, p: IndexSets, c: IndexSets, origin: Origin, b: nat)
    requires Swept(l, p0, c0, p, c, origin, b + 1)
    ensures p[b] == {} <==> c[b] == {}
  {
  }

  /** The final check that no barrier has consumers only always succeeds. */
  method SweepBarriers(bi: BarrierInfo, l: Layout, ghost p0: IndexSets, ghost c0: IndexSets, ghost origin: Origin)
    returns (ok: bool)
    requires bi.Valid() && l.Ok() && |l.blockOf| == bi.numTasks
    requires Swept(l, p0, c0, bi.producers, bi.consumers, origin, 0)
    requires Tied(l, bi.queue, p0, c0, bi.producers, bi.consumers)
    modifies bi`producers, bi`consumers, bi`updates, bi`waits
    ensures ok && bi.Valid() && Swept(l, p0, c0, bi.producers, bi.consumers, origin, l.base)
    ensures Tied(l, bi.queue, p0, c0, bi.producers, bi.consumers)
  {
    ok := true;
    var b := 0;
    while b < l.base
      invariant b <= l.base && ok && bi.Valid() && Swept(l, p0, c0, bi.producers, bi.consumers, origin, b)
      invariant Tied(l, bi.queue, p0, c0, bi.producers, bi.consumers)
    {
      SweptNext(l, p0, c0, bi.producers, bi.consumers, origin, b);
      if bi.consumers[b] == {} && bi.producers[b] != {} {
        SweepBarrier(bi, l, p0, c0, b, origin);
      }
      SweptUse(l, p0, c0, bi.producers, bi.consumers, origin, b);
      ok := ok && (bi.producers[b] == {} ==> bi.consumers[b] == {});
      b := b + 1;
    }
  }

  //
  // Step 6: unused barriers of sync points
  //

  /** Both queries name the barrier in front of the sync point, so an unused barrier behind it stays. */
  method DropUnused(bi: BarrierInfo, l: Layout)
    requires bi.Valid() && l.Extra() <= |bi.producers|
    modifies bi`producers, bi`consumers, bi`updates, bi`waits
    ensures bi.Valid() && |bi.producers| == old(|bi.producers|) && bi.Graph() == old(bi.Graph())
    ensures forall k :: 0 <= k < |l.syncs| ==> (bi.producers[l.Wait(k)] == {} <==> bi.consumers[l.Wait(k)] == {})
    ensures SomeReset(old(bi.producers), old(bi.consumers), bi.producers, bi.consumers)
  {
    var k := 0;
    while k < |l.syncs|
      invariant k <= |l.syncs| && bi.Valid() && |bi.producers| == old(|bi.producers|) && bi.Graph() == old(bi.Graph())
      invariant SomeReset(old(bi.producers), old(bi.consumers), bi.producers, bi.consumers)
      invariant forall i :: 0 <= i < k ==> (bi.producers[l.Wait(i)] == {} <==> bi.consumers[l.Wait(i)] == {})
    {
      if bi.producers[l.Wait(k)] == {} {
        ClearUnused(bi.producers, bi.consumers, l.Wait(k));
        bi.ResetBarrier(l.Wait(k));
      }
      if bi.consumers[l.Wait(k)] == {} {
        ClearUnused(bi.producers, bi.consumers, l.Wait(k));
        bi.ResetBarrier(l.Wait(k));
      }
      k := k + 1;
    }
  }

  /** Each barrier is as it was or has no users. */
  ghost predicate SomeReset(p0: IndexSets, c0: IndexSets, p: IndexSets, c: IndexSets)
    requires |p0| == |c0| && |p| == |c|
  {
    |p| == |p0| && forall j :: 0 <= j < |p| ==> (p[j] == p0[j] && c[j] == c0[j]) || (p[j] == {} && c[j] == {})
  }

  lemma ClearUnused(p: IndexSets, c: IndexSets, b: nat)
    requires |p| == |c| && b < |p| && (p[b] == {} || c[b] == {})
    ensures BarrierEdges(p[b := {}], c[b := {}]) == BarrierEdges(p, c)
  {
    ClearEdges(p, c, b);
    EmptyProduct(if p[b] == {} then c[b] else p[b]);
  }

  //
  // The whole split
  //

  ghost function AllQueues(queue: seq<nat>): Edges
  {
    set i, j | 0 <= i < j < |queue| && queue[i] == queue[j] :: (i, j)
  }

  /** What the new graph `g` provides for the original barriers. */
  ghost predicate Replaces(l: Layout, queue: seq<nat>, p0: IndexSets, c0: IndexSets, g: Edges)
    requires |queue| == |l.blockOf| && |p0| == |c0|
  {
    && Kept0(l, p0, c0, g) && IdleLinked(l, queue, p0, g) && StartersLinked(l, queue, c0, g) && SyncsLinked(l, g)
    && (forall x, y :: (x, y) in g ==>
          LocalEdge(l, x, y) && InnerEdge(l, BarrierEdges(p0, c0), x, y) && (y + 1 == |queue| ==> !Idle(c0, y)))
  }

  lemma SweptEdges(l: Layout, p0: IndexSets, c0: IndexSets, p: IndexSets, c: IndexSets, origin: Origin)
    requires l.Ok() && Swept(l, p0, c0, p, c, origin, l.base)
    ensures Kept0(l, p0, c0, BarrierEdges(p, c)) && SyncsLinked(l, BarrierEdges(p, c))
    ensures forall x, y :: (x, y) in BarrierEdges(p, c) ==>
              LocalEdge(l, x, y) && InnerEdge(l, origin.edges, x, y) && (y + 1 == |l.blockOf| ==> origin.late)
  {
    var g := BarrierEdges(p, c);
    assert Owed(l, p, c, l.base) == {};
    assert Settled(l, p, c, l.base) + Owed(l, p, c, l.base) == g;
    forall x, y | (x, y) in g
      ensures LocalEdge(l, x, y) && InnerEdge(l, origin.edges, x, y) && (y + 1 == |l.blockOf| ==> origin.late)
    {
      var j :| 0 <= j < |p| && x in p[j] && y in c[j];
      if l.base <= j { ShapeLocal(l, p, c, origin, j); }
    }
    forall k | 0 <= k && k + 1 < |l.syncs|
      ensures SyncLink(l, g, k)
    {
      assert ChainedAt(l, c, k);
      assert UpdateShape(l, p[l.Update(k)], c[l.Update(k)], k);
      assert l.syncs[k] in p[l.Update(k)] && l.syncs[k + 1] in c[l.Update(k)];
    }
  }

  lemma TiedEdges(l: Layout, queue: seq<nat>, p0: IndexSets, c0: IndexSets, p: IndexSets, c: IndexSets, origin: Origin)
    requires |queue| == |l.blockOf| && Shape(l, p, c, origin) && Tied(l, queue, p0, c0, p, c)
    ensures IdleLinked(l, queue, p0, BarrierEdges(p, c)) && StartersLinked(l, queue, c0, BarrierEdges(p, c))
  {
  }

  /** A barrier without producers has no consumers, and one without consumers is updated by a sync point only. */
  ghost predicate Used(l: Layout, p: set<nat>, c: set<nat>)
  {
    (p == {} ==> c == {}) && (c == {} && p != {} ==> exists k :: 0 <= k < |l.syncs| && p == {l.syncs[k]})
  }

  ghost predicate AllUsed(l: Layout, p: IndexSets, c: IndexSets)
    requires |p| == |c|
  {
    forall j :: 0 <= j < |p| ==> Used(l, p[j], c[j])
  }

  lemma SweptUsed(l: Layout, p0: IndexSets, c0: IndexSets, p: IndexSets, c: IndexSets, origin: Origin, p': IndexSets,
                  c': IndexSets)
    requires l.Ok() && Swept(l, p0, c0, p, c, origin, l.base) && |p'| == |c'| && SomeReset(p, c, p', c')
    requires forall k :: 0 <= k < |l.syncs| ==> (p'[l.Wait(k)] == {} <==> c'[l.Wait(k)] == {})
    ensures AllUsed(l, p', c')
  {
    forall j | 0 <= j < |p'|
      ensures Used(l, p'[j], c'[j])
    {
      if l.base <= j < l.Extra() {
        NewBarrier(l, j);
        var k :| 0 <= k < |l.syncs| && (j == l.Wait(k) || j == l.Update(k));
        assert UpdateShape(l, p[l.Update(k)], c[l.Update(k)], k);
      } else if l.Extra() <= j {
        assert TwoSided(p[j], c[j]);
      }
    }
  }

  method RewriteGraph(bi: BarrierInfo, l: Layout) returns (ok: bool)
    requires bi.Valid() && bi.fifoDeps == [] && Forward(bi.Graph())
    requires l.Ok() && l.syncs != [] && |l.blockOf| == bi.numTasks && l.base == |bi.producers|
    modifies bi`producers, bi`consumers, bi`updates, bi`waits, bi`opCount
    ensures bi.Valid() && (ok <==> BothSides(old(bi.producers), old(bi.consumers)))
    ensures ok ==> Replaces(l, bi.queue, old(bi.producers), old(bi.consumers), bi.Graph())
                   && AllUsed(l, bi.producers, bi.consumers)
  {
    ghost var p0, c0 := bi.producers, bi.consumers;
    ghost var origin := Origin(!Idle(c0, |l.blockOf| - 1), BarrierEdges(p0, c0));
    AddSyncBarriers(bi, l);
    InitialShape(l, p0, c0, bi.producers, bi.consumers, origin);
    LinkIdleTasks(bi, l, p0, c0, origin);
    ok := SplitBarriers(bi, l, p0, c0, origin);
    if ok {
      ChainSyncPoints(bi, l, p0, c0, origin);
      Unswept(l, p0, c0, bi.producers, bi.consumers, origin);
      ok := SweepBarriers(bi, l, p0, c0, origin);
      SweptEdges(l, p0, c0, bi.producers, bi.consumers, origin);
      TiedEdges(l, bi.queue, p0, c0, bi.producers, bi.consumers, origin);
      ghost var p, c := bi.producers, bi.consumers;
      DropUnused(bi, l);
      SweptUsed(l, p0, c0, p, c, origin, bi.producers, bi.consumers);
    }
  }

  lemma Unswept(l: Layout, p0: IndexSets, c0: IndexSets, p: IndexSets, c: IndexSets, origin: Origin)
    requires Split3(l, p0, c0, p, c, origin, l.base) && Chained(l, c, |l.syncs|)
    ensures Swept(l, p0, c0, p, c, origin, 0)
  {
  }

  /** The tasks of every block run between the sync point in front of the block and the one behind it. The last task of
      the program is the exception: it follows its sync point exactly when it waits for some barrier or shares its queue
      with a task since the sync point. */
  ghost predicate Fenced(l: Layout, queue: seq<nat>, c0: IndexSets, h: Edges)
    requires |queue| == |l.blockOf| > 0 && l.syncs != []
  {
    && (forall t :: 0 <= t < |queue| && l.blockOf[t] < |l.syncs| && !l.IsSync(t) ==> Reach(h, t, l.syncs[l.blockOf[t]]))
    && (forall t :: 0 <= t < |queue| - 1 && 0 < l.blockOf[t] <= |l.syncs| ==> Reach(h, l.syncs[l.blockOf[t] - 1], t))
    && (Reach(h, l.syncs[|l.syncs| - 1], |queue| - 1) <==>
        !Idle(c0, |queue| - 1) || SharesQueue(queue, l.syncs[|l.syncs| - 1]))
  }

  lemma ReplacesFenced(l: Layout, queue: seq<nat>, p0: IndexSets, c0: IndexSets, g: Edges)
    requires l.Ok() && l.syncs != [] && |queue| == |l.blockOf| && ProperBarriers(l, p0, c0)
    requires Replaces(l, queue, p0, c0, g)
    ensures Fenced(l, queue, c0, g + AllQueues(queue))
  {
    var q := AllQueues(queue);
    forall t | 0 <= t < |queue| && l.blockOf[t] < |l.syncs| && !l.IsSync(t)
      ensures Reach(g + q, t, l.syncs[l.blockOf[t]])
    {
      TasksBeforeSync(l, queue, p0, c0, g, q, t);
    }
    forall t | 0 <= t < |queue| - 1 && 0 < l.blockOf[t] <= |l.syncs|
      ensures Reach(g + q, l.syncs[l.blockOf[t] - 1], t)
    {
      TasksAfterSync(l, queue, p0, c0, g, q, t);
    }
    LastTaskExact(l, queue, p0, c0, g);
  }

  lemma LastTaskExact(l: Layout, queue: seq<nat>, p0: IndexSets, c0: IndexSets, g: Edges)
    requires l.Ok() && l.syncs != [] && |queue| == |l.blockOf| && ProperBarriers(l, p0, c0)
    requires Replaces(l, queue, p0, c0, g)
    ensures Reach(g + AllQueues(queue), l.syncs[|l.syncs| - 1], |queue| - 1) <==>
            !Idle(c0, |queue| - 1) || SharesQueue(queue, l.syncs[|l.syncs| - 1])
  {
    var q, s, t := AllQueues(queue), l.syncs[|l.syncs| - 1], |queue| - 1;
    if !Idle(c0, t) {
      LastTaskWaits(l, queue, p0, c0, g);
    } else if SharesQueue(queue, s) {
      LastTaskShares(l, queue, p0, c0, g);
    } else if Reach(g + q, s, t) {
      LastTaskIdle(l, queue, p0, c0, g);
    }
  }

  lemma LastTaskIdle(l: Layout, queue: seq<nat>, p0: IndexSets, c0: IndexSets, g: Edges)
    requires l.Ok() && l.syncs != [] && |queue| == |l.blockOf| && |p0| == |c0| && Replaces(l, queue, p0, c0, g)
    requires Idle(c0, |queue| - 1) && Reach(g + AllQueues(queue), l.syncs[|l.syncs| - 1], |queue| - 1)
    ensures SharesQueue(queue, l.syncs[|l.syncs| - 1])
  {
    LastTaskEscapes(queue, g, AllQueues(queue), l.syncs[|l.syncs| - 1]);
  }

  lemma LastTaskWaits(l: Layout, queue: seq<nat>, p0: IndexSets, c0: IndexSets, g: Edges)
    requires l.Ok() && l.syncs != [] && |queue| == |l.blockOf| && ProperBarriers(l, p0, c0)
    requires Kept0(l, p0, c0, g) && StartersLinked(l, queue, c0, g) && SyncsLinked(l, g) && !Idle(c0, |queue| - 1)
    ensures Reach(g + AllQueues(queue), l.syncs[|l.syncs| - 1], |queue| - 1)
  {
    LastInLastBlock(l);
    TasksAfterSync(l, queue, p0, c0, g, AllQueues(queue), |queue| - 1);
  }

  lemma LastTaskShares(l: Layout, queue: seq<nat>, p0: IndexSets, c0: IndexSets, g: Edges)
    requires l.Ok() && l.syncs != [] && |queue| == |l.blockOf| && ProperBarriers(l, p0, c0)
    requires Replaces(l, queue, p0, c0, g)
    requires SharesQueue(queue, l.syncs[|l.syncs| - 1])
    ensures Reach(g + AllQueues(queue), l.syncs[|l.syncs| - 1], |queue| - 1)
  {
    var q, s, t := AllQueues(queue), l.syncs[|l.syncs| - 1], |queue| - 1;
    var u :| s <= u < t && queue[u] == queue[t];
    QueueAfterSync(l, queue, p0, c0, g, q, s, u, t);
  }

  /** `blockSize` tasks per block; the result lists the sync points. */
  method SplitToBlocks(bi: BarrierInfo, blockSize: nat) returns (ok: bool, syncs: seq<nat>)
    requires bi.Valid() && bi.fifoDeps == [] && Forward(bi.Graph())
    modifies bi`producers, bi`consumers, bi`updates, bi`waits, bi`opCount
    ensures bi.Valid()
    ensures ok <==> 2 <= blockSize && bi.syncTasks == []
                    && (blockSize < bi.numTasks ==> BothSides(old(bi.producers), old(bi.consumers)))
    ensures ok ==> SyncPointsOk(syncs, bi.numTasks)
    ensures ok ==> forall t: nat :: t in syncs <==> (t + 1) % blockSize == 0 && t + 1 < bi.numTasks
    ensures ok && bi.numTasks <= blockSize ==>
              syncs == [] && bi.producers == old(bi.producers) && bi.consumers == old(bi.consumers)
    ensures ok && blockSize < bi.numTasks ==>
              var l := Layout(BlocksOf(bi.numTasks, blockSize), syncs, old(|bi.producers|));
              l.Ok() && syncs != [] && (forall t :: 0 <= t < bi.numTasks ==> l.blockOf[t] == t / blockSize)
              && (forall x, y :: (x, y) in bi.Graph() ==> LocalEdge(l, x, y))
              && Fenced(l, bi.queue, old(bi.consumers), bi.Graph() + AllQueues(bi.queue))
              && Replaces(l, bi.queue, old(bi.producers), old(bi.consumers), bi.Graph())
              && AllUsed(l, bi.producers, bi.consumers)
              && OrderExact(l, old(bi.Graph()) + AllQueues(bi.queue), bi.Graph() + AllQueues(bi.queue))
    ensures ok ==> Forward(bi.Graph())
    ensures ok ==> KeepsOrder(old(bi.Graph()) + AllQueues(bi.queue), bi.Graph() + AllQueues(bi.queue))
  {
    syncs := [];
    if blockSize < 2 || bi.syncTasks != [] {
      return false, [];
    }
    SyncTasks(bi.numTasks, blockSize);
    if bi.numTasks <= blockSize {
      return true, [];
    }
    ghost var p0, c0 := bi.producers, bi.consumers;
    var l := Layout(BlocksOf(bi.numTasks, blockSize), SyncsOf(bi.numTasks, blockSize), |bi.producers|);
    BlocksOk(bi.numTasks, blockSize, |bi.producers|);
    syncs := l.syncs;
    ok := RewriteGraph(bi, l);
    if ok {
      ReplacesFenced(l, bi.queue, p0, c0, bi.Graph());
      SplitKeepsOrder(l, bi.queue, p0, c0, bi.Graph(), AllQueues(bi.queue));
      SplitOrderExact(l, bi.queue, p0, c0, bi.Graph(), AllQueues(bi.queue));
    }
  }
}
