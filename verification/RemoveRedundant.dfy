/** Removal of barrier producers and consumers that other producers or consumers of the same barrier make redundant. */
module RemoveRedundant {
  import opened TaskGraph
  import opened Barriers
  import opened FifoDependencies
  import opened OptimizeBarriers
  import opened ControlMap

  /** `x` is a producer of the barrier that another, later producer runs after. */
  ghost predicate ProducerRedundant(bi: BarrierInfo, rows: IndexSets, deps: set<nat>, x: nat)
  {
    exists y :: y in deps && x < y && !bi.IsSyncPoint(x) && !bi.IsSyncPoint(y) && x < |rows| && y in rows[x]
  }

  /** `y` is a consumer of the barrier that runs after another, earlier consumer. */
  ghost predicate ConsumerRedundant(bi: BarrierInfo, rows: IndexSets, deps: set<nat>, y: nat)
  {
    exists x :: x in deps && x < y && !bi.IsSyncPoint(x) && !bi.IsSyncPoint(y) && x < |rows| && y in rows[x]
  }

  ghost predicate PairsInRange(bi: BarrierInfo, deps: set<nat>, lo: nat, hi: nat, below: nat)
  {
    forall a, b :: a in deps && b in deps && a < b && a < below && !bi.IsSyncPoint(a) && !bi.IsSyncPoint(b) ==>
      lo <= a && b <= hi
  }

  /** `findRedundantDependencies`. Tasks outside the block of the map make the query of the map fail. */
  method FindRedundant(bi: BarrierInfo, rows: IndexSets, lo: nat, hi: nat, deps: set<nat>, producer: bool)
    returns (ok: bool, drop: set<nat>)
    requires |rows| == bi.numTasks && hi < bi.numTasks && forall x :: x in deps ==> x < bi.numTasks
    ensures ok <==> PairsInRange(bi, deps, lo, hi, bi.numTasks)
    ensures ok ==>
              forall x :: x in drop <==>
                x in deps &&
                if producer then ProducerRedundant(bi, rows, deps, x) else ConsumerRedundant(bi, rows, deps, x)
  {
    drop := {};
    var x := 0;
    while x < bi.numTasks
      invariant 0 <= x <= bi.numTasks
      invariant PairsInRange(bi, deps, lo, hi, x)
      invariant producer ==> forall a :: a in drop <==> a in deps && a < x && ProducerRedundant(bi, rows, deps, a)
      invariant !producer ==> forall b :: b in drop <==> b in deps && RedundantBelow(bi, rows, deps, b, x)
    {
      if x in deps && !bi.IsSyncPoint(x) {
        var later := set y | y in deps && x < y && !bi.IsSyncPoint(y);
        if exists y :: y in later && !(lo <= x && y <= hi) {
          return false, drop;
        }
        assert forall y :: y in deps && x < y && !bi.IsSyncPoint(y) ==> y in later;
        var controlled := set y | y in later && ControlPathExists(rows, x, y, false);
        if producer {
          if controlled != {} {
            drop := drop + {x};
          }
        } else {
          drop := drop + controlled;
        }
      }
      x := x + 1;
    }
    ok := true;
  }

  ghost predicate RedundantBelow(bi: BarrierInfo, rows: IndexSets, deps: set<nat>, y: nat, below: nat)
  {
    exists x ::
      x in deps && x < y && x < below && !bi.IsSyncPoint(x) && !bi.IsSyncPoint(y) && x < |rows| && y in rows[x]
  }

  //
  // One side of the barriers
  //

  /** `s` is `s0` without members that come before (`producer`) or after another member in the order `e`. */
  ghost predicate Thinned(s: set<nat>, s0: set<nat>, e: Edges, producer: bool)
  {
    && s <= s0
    && forall x :: x in s0 && x !in s ==> exists y :: y in s0 && if producer then Reach(e, x, y) else Reach(e, y, x)
  }

  ghost predicate AllThinned(sets: IndexSets, sets0: IndexSets, e: Edges, producer: bool)
  {
    |sets| == |sets0| && forall b :: 0 <= b < |sets| ==> Thinned(sets[b], sets0[b], e, producer)
  }

  /** No two members in the range, sync points apart, are ordered. */
  ghost predicate Unordered(bi: BarrierInfo, s: set<nat>, e: Edges, lo: nat, hi: nat)
  {
    forall x, y :: x in s && y in s && lo <= x && y <= hi && !bi.IsSyncPoint(x) && !bi.IsSyncPoint(y) ==>
      !Reach(e, x, y)
  }

  lemma DropIsThinning(bi: BarrierInfo, rows: IndexSets, e: Edges, lo: nat, hi: nat, s: set<nat>, drop: set<nat>,
                       producer: bool)
    requires lo <= hi < bi.numTasks && Forward(e) && IsOrderMap(rows, e, bi.numTasks, lo, hi)
    requires forall x :: x in drop <==>
              x in s && if producer then ProducerRedundant(bi, rows, s, x) else ConsumerRedundant(bi, rows, s, x)
    ensures Thinned(s - drop, s, e, producer) && Unordered(bi, s - drop, e, lo, hi)
  {
    SubsetKeepsOrder(Within(e, lo, hi), e);
    forall x | x in s && x in drop
      ensures exists y :: y in s && if producer then Reach(e, x, y) else Reach(e, y, x)
    {
      if producer {
        var y :| y in s && x < y && !bi.IsSyncPoint(x) && !bi.IsSyncPoint(y) && x < |rows| && y in rows[x];
        assert Reach(e, x, y);
      } else {
        var y :| y in s && y < x && !bi.IsSyncPoint(x) && !bi.IsSyncPoint(y) && y < |rows| && x in rows[y];
        assert Reach(e, y, x);
      }
    }
    forall x, y | x in s - drop && y in s - drop && lo <= x && y <= hi && !bi.IsSyncPoint(x) && !bi.IsSyncPoint(y)
      ensures !Reach(e, x, y)
    {
      if Reach(e, x, y) {
        ForwardReach(e, x, y);
      }
    }
  }

  ghost predicate AllUnordered(bi: BarrierInfo, sets: IndexSets, bars: seq<nat>, n: nat, e: Edges, lo: nat, hi: nat)
    requires n <= |bars| && forall i :: 0 <= i < |bars| ==> bars[i] < |sets|
  {
    forall i :: 0 <= i < n ==> Unordered(bi, sets[bars[i]], e, lo, hi)
  }

  method ThinProducers(bi: BarrierInfo, bars: seq<nat>, rows: IndexSets, lo: nat, hi: nat, ghost e: Edges)
    returns (ok: bool)
    requires bi.Valid() && lo <= hi < bi.numTasks && Forward(e) && IsOrderMap(rows, e, bi.numTasks, lo, hi)
    requires Distinct(bars) && forall i :: 0 <= i < |bars| ==> bars[i] < |bi.producers|
    modifies bi`producers, bi`updates
    ensures bi.Valid()
    ensures (ok <==> forall i :: 0 <= i < |bars| ==> PairsInRange(bi, old(bi.producers)[bars[i]], lo, hi, bi.numTasks))
    ensures AllThinned(bi.producers, old(bi.producers), e, true)
    ensures ok ==> AllUnordered(bi, bi.producers, bars, |bars|, e, lo, hi)
    ensures forall b :: 0 <= b < |bi.producers| && b !in bars ==> bi.producers[b] == old(bi.producers)[b]
  {
    ghost var p0 := bi.producers;
    var i := 0;
    while i < |bars|
      invariant 0 <= i <= |bars| && bi.Valid() && |bi.producers| == |p0|
      invariant AllThinned(bi.producers, p0, e, true) && AllUnordered(bi, bi.producers, bars, i, e, lo, hi)
      invariant forall j :: 0 <= j < i ==> PairsInRange(bi, p0[bars[j]], lo, hi, bi.numTasks)
      invariant forall j :: i <= j < |bars| ==> bi.producers[bars[j]] == p0[bars[j]]
      invariant forall b :: 0 <= b < |bi.producers| && b !in bars ==> bi.producers[b] == p0[b]
    {
      var drop;
      ok, drop := FindRedundant(bi, rows, lo, hi, bi.producers[bars[i]], true);
      if !ok {
        return;
      }
      DropIsThinning(bi, rows, e, lo, hi, bi.producers[bars[i]], drop, true);
      bi.RemoveProducers(bars[i], drop);
      i := i + 1;
    }
    ok := true;
  }

  method ThinConsumers(bi: BarrierInfo, bars: seq<nat>, rows: IndexSets, lo: nat, hi: nat, ghost e: Edges)
    returns (ok: bool)
    requires bi.Valid() && lo <= hi < bi.numTasks && Forward(e) && IsOrderMap(rows, e, bi.numTasks, lo, hi)
    requires Distinct(bars) && forall i :: 0 <= i < |bars| ==> bars[i] < |bi.consumers|
    modifies bi`consumers, bi`waits
    ensures bi.Valid()
    ensures (ok <==> forall i :: 0 <= i < |bars| ==> PairsInRange(bi, old(bi.consumers)[bars[i]], lo, hi, bi.numTasks))
    ensures AllThinned(bi.consumers, old(bi.consumers), e, false)
    ensures ok ==> AllUnordered(bi, bi.consumers, bars, |bars|, e, lo, hi)
    ensures forall b :: 0 <= b < |bi.consumers| && b !in bars ==> bi.consumers[b] == old(bi.consumers)[b]
  {
    ghost var c0 := bi.consumers;
    var i := 0;
    while i < |bars|
      invariant 0 <= i <= |bars| && bi.Valid() && |bi.consumers| == |c0|
      invariant AllThinned(bi.consumers, c0, e, false) && AllUnordered(bi, bi.consumers, bars, i, e, lo, hi)
      invariant forall j :: 0 <= j < i ==> PairsInRange(bi, c0[bars[j]], lo, hi, bi.numTasks)
      invariant forall j :: i <= j < |bars| ==> bi.consumers[bars[j]] == c0[bars[j]]
      invariant forall b :: 0 <= b < |bi.consumers| && b !in bars ==> bi.consumers[b] == c0[b]
    {
      var drop;
      ok, drop := FindRedundant(bi, rows, lo, hi, bi.consumers[bars[i]], false);
      if !ok {
        return;
      }
      DropIsThinning(bi, rows, e, lo, hi, bi.consumers[bars[i]], drop, false);
      bi.RemoveConsumers(bars[i], drop);
      i := i + 1;
    }
    ok := true;
  }

  /** One closure, computed before any removal, justifies removing producers and consumers of all barriers at once. */
  lemma ThinningKeepsOrder(p: IndexSets, c: IndexSets, p0: IndexSets, c0: IndexSets, e: Edges, q: Edges)
    requires |p0| == |c0| && AllThinned(p, p0, e, true) && AllThinned(c, c0, e, false)
    requires Forward(BarrierEdges(p0, c0) + q) && KeepsOrder(e, BarrierEdges(p0, c0) + q)
    ensures SameOrder(BarrierEdges(p0, c0) + q, BarrierEdges(p, c) + q)
    ensures BarrierEdges(p, c) <= BarrierEdges(p0, c0)
  {
    var g0, g := BarrierEdges(p0, c0), BarrierEdges(p, c);
    forall z | z in g
      ensures z in g0
    {
      var b :| 0 <= b < |p| && z.0 in p[b] && z.1 in c[b];
      assert Thinned(p[b], p0[b], e, true) && Thinned(c[b], c0[b], e, false);
    }
    forall x, y | (x, y) in g0 + q && (x, y) !in g + q
      ensures Bypassed(g0 + q, x, y)
    {
      var b :| 0 <= b < |p| && x in p0[b] && y in c0[b];
      assert Thinned(p[b], p0[b], e, true) && Thinned(c[b], c0[b], e, false);
      if x !in p[b] {
        var z :| z in p0[b] && Reach(e, x, z);
        assert (z, y) in g0;
        EdgeReach(g0 + q, z, y);
      } else {
        assert y !in c[b];
        var z :| z in c0[b] && Reach(e, z, y);
        assert (x, z) in g0;
        EdgeReach(g0 + q, x, z);
      }
    }
    PruneKeepsOrder(g0 + q, g + q);
    SubsetKeepsOrder(g + q, g0 + q);
  }

  //
  // All blocks
  //

  method ThinBlockProducers(bi: BarrierInfo, rows: IndexSets, lo: nat, hi: nat, last: int, ghost e: Edges)
    returns (ok: bool)
    requires bi.Valid() && lo <= hi < bi.numTasks && Forward(e) && IsOrderMap(rows, e, bi.numTasks, lo, hi)
    requires last < bi.numTasks && forall x :: lo <= x <= hi && !bi.IsSyncPoint(x) ==> lo <= x <= last
    modifies bi`producers, bi`updates
    ensures bi.Valid() && AllThinned(bi.producers, old(bi.producers), e, true)
    ensures ok ==> forall b :: 0 <= b < |bi.producers| ==> Unordered(bi, bi.producers[b], e, lo, hi)
    ensures ok <==> SideAccepted(bi, old(bi.producers), lo, hi, lo, last)
  {
    ghost var p0, u0 := bi.producers, bi.updates;
    var bars := BarriersOf(bi.updates, lo, last, |bi.producers|);
    AcceptedPairs(bi, p0, u0, bars, lo, hi, lo, last);
    ok := ThinProducers(bi, bars, rows, lo, hi, e);
    if ok {
      UnusedUnordered(bi, bi.producers, p0, u0, bars, e, lo, hi, lo, last);
    }
  }

  method ThinBlockConsumers(bi: BarrierInfo, rows: IndexSets, lo: nat, hi: nat, from: nat, ghost e: Edges)
    returns (ok: bool)
    requires bi.Valid() && lo <= hi < bi.numTasks && Forward(e) && IsOrderMap(rows, e, bi.numTasks, lo, hi)
    requires forall x :: lo <= x <= hi && !bi.IsSyncPoint(x) ==> from <= x <= hi
    modifies bi`consumers, bi`waits
    ensures bi.Valid() && AllThinned(bi.consumers, old(bi.consumers), e, false)
    ensures ok ==> forall b :: 0 <= b < |bi.consumers| ==> Unordered(bi, bi.consumers[b], e, lo, hi)
    ensures ok <==> SideAccepted(bi, old(bi.consumers), lo, hi, from, hi)
  {
    ghost var c0, w0 := bi.consumers, bi.waits;
    var bars := BarriersOf(bi.waits, from, hi, |bi.consumers|);
    AcceptedPairs(bi, c0, w0, bars, lo, hi, from, hi);
    ok := ThinConsumers(bi, bars, rows, lo, hi, e);
    if ok {
      UnusedUnordered(bi, bi.consumers, c0, w0, bars, e, lo, hi, from, hi);
    }
  }

  /** `removeRedundantBarrierProducersAndConsumers` for one block. */
  method RemoveInBlock(bi: BarrierInfo, k: nat, fifo: bool) returns (ok: bool)
    requires bi.Valid() && bi.fifoDeps == [] && k < bi.BlockCount() && Forward(bi.Graph())
    modifies bi`producers, bi`consumers, bi`updates, bi`waits, bi`fifoDeps
    ensures ok ==> bi.Valid() && bi.fifoDeps == []
    ensures ok ==> BlockThinned(bi, k, fifo, bi.producers, bi.consumers, old(bi.producers), old(bi.consumers))
    ensures ok <==> BlockAccepted(bi, k, old(bi.producers), old(bi.consumers))
  {
    var lo, hi := bi.BlockLo(k), bi.BlockHi(k);
    ghost var e := bi.Graph() + BlockFifo(bi, k, fifo, bi.Tracked());
    FifoInBlock(bi, k, bi.Tracked());
    var rows;
    ok, rows := BuildTaskControlMap(bi, k, fifo, false);
    if ok {
      ok := ThinBlockProducers(bi, rows, lo, hi, bi.BlockLast(k), e);
    }
    if ok {
      ok := ThinBlockConsumers(bi, rows, lo, hi, bi.BlockFrom(k), e);
    }
  }

  /** Barriers outside the list have no users in the block that could be ordered. */
  lemma UnusedUnordered(bi: BarrierInfo, sets: IndexSets, sets0: IndexSets, links: IndexSets, bars: seq<nat>, e: Edges,
                        lo: nat, hi: nat, from: nat, last: int)
    requires |sets| == |sets0| && |links| == bi.numTasks && last < bi.numTasks && Inverse(links, sets0)
    requires forall i :: 0 <= i < |bars| ==> bars[i] < |sets|
    requires forall b :: b in bars <==> UsedBy(links, from, last, b)
    requires AllUnordered(bi, sets, bars, |bars|, e, lo, hi)
    requires forall b :: 0 <= b < |sets| && b !in bars ==> sets[b] == sets0[b]
    requires forall x :: lo <= x <= hi && !bi.IsSyncPoint(x) ==> from <= x <= last
    requires Forward(e)
    ensures forall b :: 0 <= b < |sets| ==> Unordered(bi, sets[b], e, lo, hi)
  {
    forall b | 0 <= b < |sets|
      ensures Unordered(bi, sets[b], e, lo, hi)
    {
      if b !in bars {
        forall x, y | x in sets[b] && y in sets[b] && lo <= x && y <= hi && !bi.IsSyncPoint(x) && !bi.IsSyncPoint(y)
          ensures !Reach(e, x, y)
        {
          if Reach(e, x, y) {
            ForwardReach(e, x, y);
          }
        }
      }
    }
  }

  /** The result for one block: fewer producers and consumers, the same order, and no two of them ordered. */
  ghost predicate BlockThinned(bi: BarrierInfo, k: nat, fifo: bool, p: IndexSets, c: IndexSets, p0: IndexSets,
                               c0: IndexSets)
    requires bi.ValidConfig() && k < bi.BlockCount() && |p0| == |c0|
  {
    var e := BarrierEdges(p0, c0) + BlockFifo(bi, k, fifo, bi.Tracked());
    && AllThinned(p, p0, e, true) && AllThinned(c, c0, e, false)
    && (forall b :: 0 <= b < |p| ==> Unordered(bi, p[b], e, bi.BlockLo(k), bi.BlockHi(k)))
    && (forall b :: 0 <= b < |c| ==> Unordered(bi, c[b], e, bi.BlockLo(k), bi.BlockHi(k)))
  }

  /** A barrier used by a task of `from..last` has no two users, sync points apart, of which one is outside `[lo, hi]`.
      */
  ghost predicate SideAccepted(bi: BarrierInfo, sets: IndexSets, lo: nat, hi: nat, from: nat, last: int)
  {
    forall b, x :: 0 <= b < |sets| && x in sets[b] && from <= x <= last ==>
      PairsInRange(bi, sets[b], lo, hi, bi.numTasks)
  }

  lemma AcceptedPairs(bi: BarrierInfo, sets: IndexSets, links: IndexSets, bars: seq<nat>, lo: nat, hi: nat, from: nat,
                      last: int)
    requires |links| == bi.numTasks && last < bi.numTasks && Inverse(links, sets)
    requires forall i :: 0 <= i < |bars| ==> bars[i] < |sets|
    requires forall b :: b in bars <==> UsedBy(links, from, last, b)
    ensures SideAccepted(bi, sets, lo, hi, from, last) <==>
              forall i :: 0 <= i < |bars| ==> PairsInRange(bi, sets[bars[i]], lo, hi, bi.numTasks)
  {
    forall i | 0 <= i < |bars|
      ensures exists x :: x in sets[bars[i]] && from <= x <= last
    {
      assert UsedBy(links, from, last, bars[i]);
      var t :| from <= t <= last && bars[i] in links[t];
    }
    forall b, x | 0 <= b < |sets| && x in sets[b] && from <= x <= last
      ensures b in bars
    {
      assert b in links[x];
      assert UsedBy(links, from, last, b);
    }
  }

  /** What the pass needs of a block: no task but its closing sync point has successors outside, and no barrier used in
      the block has two users, sync points apart, that are not both inside. */
  ghost predicate BlockAccepted(bi: BarrierInfo, k: nat, p: IndexSets, c: IndexSets)
    requires bi.ValidConfig() && k < bi.BlockCount() && |p| == |c|
  {
    var lo, hi := bi.BlockLo(k), bi.BlockHi(k);
    && !LinksOutside(BarrierEdges(p, c), lo, hi, bi.IsSyncPoint(hi))
    && SideAccepted(bi, p, lo, hi, lo, bi.BlockLast(k)) && SideAccepted(bi, c, lo, hi, bi.BlockFrom(k), hi)
  }

  lemma BlockThinnedOrder(bi: BarrierInfo, k: nat, fifo: bool, p: IndexSets, c: IndexSets, p0: IndexSets, c0: IndexSets)
    requires bi.ValidConfig() && k < bi.BlockCount() && |p0| == |c0| && Forward(BarrierEdges(p0, c0))
    requires BlockThinned(bi, k, fifo, p, c, p0, c0)
    ensures var q := QueueEdges(bi.queue, bi.Tracked());
            SameOrder(BarrierEdges(p0, c0) + q, BarrierEdges(p, c) + q)
    ensures BarrierEdges(p, c) <= BarrierEdges(p0, c0)
  {
    var q, f, g0 := QueueEdges(bi.queue, bi.Tracked()), BlockFifo(bi, k, fifo, bi.Tracked()), BarrierEdges(p0, c0);
    FifoWithinQueues(bi.queue, bi.Tracked(), bi.Tracked(), bi.BlockFrom(k), bi.BlockLast(k));
    SubsetKeepsOrder(g0 + f, g0 + q);
    ThinningKeepsOrder(p, c, p0, c0, g0 + f, q);
  }

  /** In none of the first `n` blocks does a barrier have two producers, or two consumers, that are ordered by the
      barriers and the queues of the block, sync points apart. */
  ghost predicate BlocksUnordered(bi: BarrierInfo, fifo: bool, p: IndexSets, c: IndexSets, n: nat)
    requires bi.ValidConfig() && n <= bi.BlockCount() && |p| == |c|
  {
    forall k, b :: 0 <= k < n && 0 <= b < |p| ==> SidesUnordered(bi, fifo, p, c, k, b)
  }

  ghost predicate SidesUnordered(bi: BarrierInfo, fifo: bool, p: IndexSets, c: IndexSets, k: nat, b: nat)
    requires bi.ValidConfig() && k < bi.BlockCount() && b < |p| == |c|
  {
    var e := BarrierEdges(p, c) + BlockFifo(bi, k, fifo, bi.Tracked());
    Unordered(bi, p[b], e, bi.BlockLo(k), bi.BlockHi(k)) && Unordered(bi, c[b], e, bi.BlockLo(k), bi.BlockHi(k))
  }

  lemma UnorderedShrinks(bi: BarrierInfo, s: set<nat>, s0: set<nat>, e: Edges, e0: Edges, lo: nat, hi: nat)
    requires s <= s0 && e <= e0 && Unordered(bi, s0, e0, lo, hi)
    ensures Unordered(bi, s, e, lo, hi)
  {
  }

  /** Later blocks only remove users, so what was achieved stays. */
  lemma UnorderedStep(bi: BarrierInfo, fifo: bool, p: IndexSets, c: IndexSets, p0: IndexSets, c0: IndexSets, n: nat)
    requires bi.ValidConfig() && n < bi.BlockCount() && |p0| == |c0| && BlockThinned(bi, n, fifo, p, c, p0, c0)
    requires BlocksUnordered(bi, fifo, p0, c0, n) && BarrierEdges(p, c) <= BarrierEdges(p0, c0)
    ensures BlocksUnordered(bi, fifo, p, c, n + 1)
  {
    forall k, b | 0 <= k < n + 1 && 0 <= b < |p|
      ensures SidesUnordered(bi, fifo, p, c, k, b)
    {
      var lo, hi, f := bi.BlockLo(k), bi.BlockHi(k), BlockFifo(bi, k, fifo, bi.Tracked());
      var e, e0 := BarrierEdges(p, c) + f, BarrierEdges(p0, c0) + f;
      if k < n {
        assert SidesUnordered(bi, fifo, p0, c0, k, b);
        assert Thinned(p[b], p0[b], BarrierEdges(p0, c0) + BlockFifo(bi, n, fifo, bi.Tracked()), true);
        assert Thinned(c[b], c0[b], BarrierEdges(p0, c0) + BlockFifo(bi, n, fifo, bi.Tracked()), false);
        UnorderedShrinks(bi, p[b], p0[b], e, e0, lo, hi);
        UnorderedShrinks(bi, c[b], c0[b], e, e0, lo, hi);
      } else {
        UnorderedShrinks(bi, p[b], p[b], e, e0, lo, hi);
        UnorderedShrinks(bi, c[b], c[b], e, e0, lo, hi);
      }
    }
  }

  /** The whole pass, block after block: when it succeeds, the program has exactly the runs it had before. It does if
      every block is acceptable at the start, and it cannot if the first block is not. */
  method Remove(bi: BarrierInfo, fifo: bool) returns (ok: bool)
    requires bi.Valid() && bi.fifoDeps == [] && Forward(bi.Graph())
    modifies bi`producers, bi`consumers, bi`updates, bi`waits, bi`fifoDeps
    ensures ok ==> bi.Valid() && bi.fifoDeps == [] && Forward(bi.Graph())
    ensures ok ==> SameRuns(old(bi.Order()), bi.Order(), bi.numTasks)
    ensures AllAccepted(bi, old(bi.producers), old(bi.consumers)) ==> ok
    ensures ok ==> BlockAccepted(bi, 0, old(bi.producers), old(bi.consumers)) && bi.Graph() <= old(bi.Graph())
    ensures ok ==> BlocksUnordered(bi, fifo, bi.producers, bi.consumers, bi.BlockCount())
    ensures bi.syncTasks == [] ==>
              ok && BlockThinned(bi, 0, fifo, bi.producers, bi.consumers, old(bi.producers), old(bi.consumers))
  {
    SingleBlock(bi, bi.producers, bi.consumers);
    var k := 0;
    while k < bi.BlockCount()
      invariant 0 <= k <= bi.BlockCount() && bi.Valid() && bi.fifoDeps == []
      invariant Forward(bi.Graph()) && SameOrder(old(bi.Order()), bi.Order()) && bi.Graph() <= old(bi.Graph())
      invariant AllAccepted(bi, old(bi.producers), old(bi.consumers)) ==> AllAccepted(bi, bi.producers, bi.consumers)
      invariant if k == 0 then bi.producers == old(bi.producers) && bi.consumers == old(bi.consumers)
                else BlockAccepted(bi, 0, old(bi.producers), old(bi.consumers))
      invariant k == 1 ==> BlockThinned(bi, 0, fifo, bi.producers, bi.consumers, old(bi.producers), old(bi.consumers))
      invariant BlocksUnordered(bi, fifo, bi.producers, bi.consumers, k)
    {
      ghost var p, c := bi.producers, bi.consumers;
      ok := RemoveInBlock(bi, k, fifo);
      if !ok {
        return;
      }
      BlockThinnedOrder(bi, k, fifo, bi.producers, bi.consumers, p, c);
      AcceptedShrinks(bi, bi.producers, bi.consumers, p, c);
      UnorderedStep(bi, fifo, bi.producers, bi.consumers, p, c, k);
      k := k + 1;
    }
    ok := true;
    SameOrderSameRuns(old(bi.Order()), bi.Order(), bi.numTasks);
  }

  lemma SingleBlock(bi: BarrierInfo, p: IndexSets, c: IndexSets)
    requires bi.ValidConfig() && |p| == |c|
    requires forall b, t :: 0 <= b < |p| && (t in p[b] || t in c[b]) ==> t < bi.numTasks
    ensures bi.syncTasks == [] ==> AllAccepted(bi, p, c)
  {
  }

  /** Every block is accepted. */
  ghost predicate AllAccepted(bi: BarrierInfo, p: IndexSets, c: IndexSets)
    requires bi.ValidConfig() && |p| == |c|
  {
    forall k :: 0 <= k < bi.BlockCount() ==> BlockAccepted(bi, k, p, c)
  }

  lemma AcceptedShrinks(bi: BarrierInfo, p: IndexSets, c: IndexSets, p0: IndexSets, c0: IndexSets)
    requires bi.ValidConfig() && Shrunk(p, p0) && Shrunk(c, c0) && |p0| == |c0|
    requires BarrierEdges(p, c) <= BarrierEdges(p0, c0)
    ensures AllAccepted(bi, p0, c0) ==> AllAccepted(bi, p, c)
  {
    if AllAccepted(bi, p0, c0) {
      forall k | 0 <= k < bi.BlockCount()
        ensures BlockAccepted(bi, k, p, c)
      {
        var lo, hi := bi.BlockLo(k), bi.BlockHi(k);
        assert BlockAccepted(bi, k, p0, c0);
        forall t | lo <= t < if bi.IsSyncPoint(hi) then hi else hi + 1
          ensures StaysInside(BarrierEdges(p, c), t, lo, hi)
        {
          assert StaysInside(BarrierEdges(p0, c0), t, lo, hi);
        }
      }
    }
  }
}
