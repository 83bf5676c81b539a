/** Temporary barriers that make the queue order visible to the barrier optimizations, and their removal. */
module FifoDependencies {
  import opened TaskGraph
  import opened Barriers

  /** Queue order between the tasks `from..last` of the queues in `active`. */
  ghost function FifoEdges(queue: seq<nat>, active: set<nat>, from: nat, last: int): Edges
    requires last < |queue|
  {
    set i, j | from <= i < j <= last && queue[i] == queue[j] && queue[i] in active :: (i, j)
  }

  lemma FifoWithinQueues(queue: seq<nat>, active: set<nat>, tracked: set<nat>, from: nat, last: int)
    requires last < |queue| && active <= tracked
    ensures FifoEdges(queue, active, from, last) <= QueueEdges(queue, tracked)
  {
  }

  /** A temporary barrier is either untouched, and then the only barrier between its two tasks, or unused. */
  ghost predicate DepIntact(producers: IndexSets, consumers: IndexSets, d: FifoDep)
    requires |producers| == |consumers| && d.barrier < |producers|
  {
    || (producers[d.barrier] == {} && consumers[d.barrier] == {})
    || (&& producers[d.barrier] == {d.parent} && consumers[d.barrier] == {d.child}
        && forall x :: 0 <= x < |producers| && x != d.barrier ==> d.parent !in producers[x] || d.child !in consumers[x])
  }

  ghost predicate DepsIntact(producers: IndexSets, consumers: IndexSets, opCount: nat, deps: seq<FifoDep>)
    requires |producers| == |consumers| == opCount + |deps|
  {
    && (forall i :: 0 <= i < |deps| ==>
          && deps[i].barrier == opCount + i && deps[i].parent < deps[i].child
          && DepIntact(producers, consumers, deps[i]))
    && (forall i, j :: 0 <= i < j < |deps| ==> deps[i].parent != deps[j].parent)
  }

  /** Two tasks are linked by a common barrier; which one is reported depends on the set order. */
  method HasBarrierDependency(bi: BarrierInfo, a: nat, b: nat) returns (has: bool, common: nat)
    requires bi.Valid() && a < bi.numTasks && b < bi.numTasks
    ensures has <==> (a, b) in bi.Graph()
    ensures has ==> common < |bi.producers| && a in bi.producers[common] && b in bi.consumers[common]
  {
    has, common := false, 0;
    var rest := bi.updates[a];
    while rest != {}
      invariant rest <= bi.updates[a]
      invariant forall x :: x in bi.updates[a] - rest ==> x !in bi.waits[b]
      decreases rest
    {
      var x :| x in rest;
      if x in bi.waits[b] {
        return true, x;
      }
      rest := rest - {x};
    }
    assert forall x :: x in bi.updates[a] ==> x in bi.updates[a] - rest;
  }

  /** The first task on queue `q` in `[from, to)`, or -1. */
  method FindOnQueue(queue: seq<nat>, q: nat, from: nat, to: int) returns (t: int)
    requires to <= |queue|
    ensures t == -1 || (from <= t < to && queue[t] == q)
    ensures forall x :: from <= x < (if t == -1 then to else t) ==> queue[x] != q
  {
    t := from;
    while t < to && queue[t] != q
      invariant from <= t && (t <= to || t == from)
      invariant forall x :: from <= x < t && x < to ==> queue[x] != q
    {
      t := t + 1;
    }
    if t >= to {
      t := -1;
    }
  }

  function Parents(deps: seq<FifoDep>): IndexSets {
    seq(|deps|, i requires 0 <= i < |deps| => {deps[i].parent})
  }

  function Children(deps: seq<FifoDep>): IndexSets {
    seq(|deps|, i requires 0 <= i < |deps| => {deps[i].child})
  }

  ghost function RecordedEdges(deps: seq<FifoDep>): Edges {
    set i | 0 <= i < |deps| :: (deps[i].parent, deps[i].child)
  }

  /** The maps are `p0`, `c0` followed by one untouched temporary barrier per recorded dependency. */
  ghost predicate Extended(producers: IndexSets, consumers: IndexSets, deps: seq<FifoDep>, p0: IndexSets, c0: IndexSets)
  {
    && |p0| == |c0|
    && producers == p0 + Parents(deps) && consumers == c0 + Children(deps)
    && forall i :: 0 <= i < |deps| ==> deps[i].barrier == |p0| + i
  }

  lemma ExtendedGraph(producers: IndexSets, consumers: IndexSets, deps: seq<FifoDep>, p0: IndexSets, c0: IndexSets)
    requires Extended(producers, consumers, deps, p0, c0)
    ensures BarrierEdges(producers, consumers) == BarrierEdges(p0, c0) + RecordedEdges(deps)
  {
    forall e | e in BarrierEdges(producers, consumers)
      ensures e in BarrierEdges(p0, c0) + RecordedEdges(deps)
    {
      var b :| 0 <= b < |producers| && e.0 in producers[b] && e.1 in consumers[b];
      if b >= |p0| {
        assert e == (deps[b - |p0|].parent, deps[b - |p0|].child);
      }
    }
    forall e | e in BarrierEdges(p0, c0) + RecordedEdges(deps)
      ensures e in BarrierEdges(producers, consumers)
    {
      if e in BarrierEdges(p0, c0) {
        var b :| 0 <= b < |p0| && e.0 in p0[b] && e.1 in c0[b];
        assert e.0 in producers[b] && e.1 in consumers[b];
      } else {
        var i :| 0 <= i < |deps| && e == (deps[i].parent, deps[i].child);
        assert e.0 in producers[|p0| + i] && e.1 in consumers[|p0| + i];
      }
    }
  }

  /** Freshly created temporary barriers are intact. */
  lemma ExtendedIntact(producers: IndexSets, consumers: IndexSets, deps: seq<FifoDep>, p0: IndexSets, c0: IndexSets)
    requires Extended(producers, consumers, deps, p0, c0)
    requires forall i :: 0 <= i < |deps| ==> deps[i].parent < deps[i].child
    requires forall i :: 0 <= i < |deps| ==> (deps[i].parent, deps[i].child) !in BarrierEdges(p0, c0)
    requires forall i, j :: 0 <= i < j < |deps| ==> deps[i].parent != deps[j].parent
    ensures DepsIntact(producers, consumers, |p0|, deps)
  {
    forall i, x | 0 <= i < |deps| && 0 <= x < |producers| && x != deps[i].barrier
      ensures deps[i].parent !in producers[x] || deps[i].child !in consumers[x]
    {
      if x < |p0| {
        assert producers[x] == p0[x] && consumers[x] == c0[x];
      } else {
        assert producers[x] == {deps[x - |p0|].parent};
      }
    }
  }

  /** Appends one temporary barrier from `p` to `c`. */
  method AddTemporary(bi: BarrierInfo, p: nat, c: nat, ghost p0: IndexSets, ghost c0: IndexSets)
    requires bi.Valid() && p < c < bi.numTasks
    requires Extended(bi.producers, bi.consumers, bi.fifoDeps, p0, c0)
    modifies bi`producers, bi`consumers, bi`updates, bi`waits, bi`fifoDeps
    ensures bi.Valid()
    ensures bi.fifoDeps == old(bi.fifoDeps) + [FifoDep(|old(bi.producers)|, p, c)]
    ensures Extended(bi.producers, bi.consumers, bi.fifoDeps, p0, c0)
  {
    var b := |bi.producers|;
    bi.fifoDeps := bi.fifoDeps + [FifoDep(b, p, c)];
    bi.producers, bi.consumers := bi.producers + [{}], bi.consumers + [{}];
    bi.AddProducer(b, p);
    bi.AddConsumer(b, c);
    assert {} + {p} == {p} && {} + {c} == {c};
    assert bi.producers == old(bi.producers) + [{p}];
    assert bi.consumers == old(bi.consumers) + [{c}];
    assert Parents(bi.fifoDeps) == Parents(old(bi.fifoDeps)) + [{p}];
    assert Children(bi.fifoDeps) == Children(old(bi.fifoDeps)) + [{c}];
  }

  /** `a` and `b` are successive tasks of queue `q`. */
  ghost predicate Neighbours(queue: seq<nat>, q: nat, a: nat, b: nat)
  {
    a < b < |queue| && queue[a] == q == queue[b] && forall x :: a < x < b ==> queue[x] != q
  }

  /** Links between successive tasks of the queues in `active`, among the tasks `from..last`. */
  ghost function NeighbourEdges(queue: seq<nat>, active: set<nat>, from: nat, last: int): Edges
    requires last < |queue|
  {
    set i, j | from <= i < j <= last && queue[i] in active && Neighbours(queue, queue[i], i, j) :: (i, j)
  }

  ghost predicate Linked(queue: seq<nat>, q: nat, from: nat, last: int, h: Edges)
  {
    forall a: nat, b: nat :: from <= a && b <= last && Neighbours(queue, q, a, b) ==> (a, b) in h
  }

  /** Linking neighbours orders the whole queue. */
  lemma {:induction false} LinkedReach(queue: seq<nat>, q: nat, from: nat, last: int, h: Edges, a: nat, b: nat)
    requires Linked(queue, q, from, last, h)
    requires last < |queue| && (a, b) in FifoEdges(queue, {q}, from, last)
    ensures Reach(h, a, b)
    decreases b
  {
    var p := b - 1;
    while queue[p] != q
      invariant a <= p < b && forall x :: p < x < b ==> queue[x] != q
      decreases p
    {
      p := p - 1;
    }
    assert Neighbours(queue, q, p, b);
    EdgeReach(h, p, b);
    if p != a {
      LinkedReach(queue, q, from, last, h, a, p);
      ReachTrans(h, a, p, b);
    }
  }

  /** Makes sure that some barrier leads from `prev` to its neighbour `cur`. */
  method LinkNeighbour(bi: BarrierInfo, prev: nat, cur: nat, ghost p0: IndexSets, ghost c0: IndexSets)
    requires bi.Valid() && prev < cur < bi.numTasks
    requires Extended(bi.producers, bi.consumers, bi.fifoDeps, p0, c0)
    modifies bi`producers, bi`consumers, bi`updates, bi`waits, bi`fifoDeps
    ensures bi.Valid() && Extended(bi.producers, bi.consumers, bi.fifoDeps, p0, c0)
    ensures (prev, cur) in BarrierEdges(p0, c0) + RecordedEdges(bi.fifoDeps)
    ensures bi.fifoDeps == old(bi.fifoDeps)
            || ((prev, cur) !in BarrierEdges(p0, c0) &&
                bi.fifoDeps == old(bi.fifoDeps) + [FifoDep(|old(bi.producers)|, prev, cur)])
  {
    ExtendedGraph(bi.producers, bi.consumers, bi.fifoDeps, p0, c0);
    var has, _ := HasBarrierDependency(bi, prev, cur);
    if !has {
      AddTemporary(bi, prev, cur, p0, c0);
      assert (prev, cur) == (bi.fifoDeps[|bi.fifoDeps| - 1].parent, bi.fifoDeps[|bi.fifoDeps| - 1].child);
    }
  }

  /** The dependencies recorded from position `m` on belong to queue `q`, are new, and have different parents. */
  ghost predicate NewDeps(deps: seq<FifoDep>, m: nat, e: Edges, g: Edges)
  {
    && (forall i :: m <= i < |deps| ==> (deps[i].parent, deps[i].child) in e && (deps[i].parent, deps[i].child) !in g)
    && (forall i, j :: m <= i < j < |deps| ==> deps[i].parent != deps[j].parent)
  }

  lemma DepEdgesGrow(deps: seq<FifoDep>, deps': seq<FifoDep>)
    requires deps <= deps'
    ensures RecordedEdges(deps) <= RecordedEdges(deps')
  {
  }

  lemma LinkedStep(queue: seq<nat>, q: nat, from: nat, prev: nat, cur: nat, h: Edges, h': Edges)
    requires Linked(queue, q, from, prev, h) && h <= h' && (prev, cur) in h'
    requires Neighbours(queue, q, prev, cur)
    ensures Linked(queue, q, from, cur, h')
  {
  }

  lemma NewDepsStep(deps: seq<FifoDep>, deps': seq<FifoDep>, m: nat, e: Edges, g: Edges, prev: nat, cur: nat)
    requires m <= |deps| && NewDeps(deps, m, e, g) && (prev, cur) in e && prev < cur
    requires forall i :: m <= i < |deps| ==> deps[i].parent < prev
    requires deps' == deps || ((prev, cur) !in g && |deps'| == |deps| + 1 && deps <= deps'
                               && deps'[|deps|].parent == prev && deps'[|deps|].child == cur)
    ensures deps <= deps' && NewDeps(deps', m, e, g)
    ensures forall i :: m <= i < |deps'| ==> deps'[i].parent < cur
  {
  }

  /** Temporary barriers between neighbours on queue `q` that have no barrier yet. */
  method CreateForQueue(bi: BarrierInfo, q: nat, from: nat, last: int, ghost p0: IndexSets, ghost c0: IndexSets)
    requires bi.Valid() && last < bi.numTasks
    requires Extended(bi.producers, bi.consumers, bi.fifoDeps, p0, c0)
    modifies bi`producers, bi`consumers, bi`updates, bi`waits, bi`fifoDeps
    ensures bi.Valid() && Extended(bi.producers, bi.consumers, bi.fifoDeps, p0, c0)
    ensures old(bi.fifoDeps) <= bi.fifoDeps
    ensures NewDeps(bi.fifoDeps, |old(bi.fifoDeps)|, NeighbourEdges(bi.queue, {q}, from, last), BarrierEdges(p0, c0))
    ensures Linked(bi.queue, q, from, last, BarrierEdges(p0, c0) + RecordedEdges(bi.fifoDeps))
  {
    ghost var E, G, m0 := NeighbourEdges(bi.queue, {q}, from, last), BarrierEdges(p0, c0), |bi.fifoDeps|;
    var prev := FindOnQueue(bi.queue, q, from, last);
    if prev != -1 {
      var cur := FindOnQueue(bi.queue, q, prev + 1, bi.numTasks);
      while cur != -1 && cur <= last
        invariant bi.Valid() && Extended(bi.producers, bi.consumers, bi.fifoDeps, p0, c0)
        invariant from <= prev <= last && bi.queue[prev] == q
        invariant cur == -1 || (prev < cur < bi.numTasks && bi.queue[cur] == q)
        invariant forall x :: prev < x < (if cur == -1 then bi.numTasks else cur) ==> bi.queue[x] != q
        invariant old(bi.fifoDeps) <= bi.fifoDeps && NewDeps(bi.fifoDeps, m0, E, G)
        invariant forall i :: m0 <= i < |bi.fifoDeps| ==> bi.fifoDeps[i].parent < prev
        invariant Linked(bi.queue, q, from, prev, G + RecordedEdges(bi.fifoDeps))
        decreases if cur == -1 then 0 else bi.numTasks - cur
      {
        ghost var deps := bi.fifoDeps;
        LinkNeighbour(bi, prev, cur, p0, c0);
        DepEdgesGrow(deps, bi.fifoDeps);
        LinkedStep(bi.queue, q, from, prev, cur, G + RecordedEdges(deps), G + RecordedEdges(bi.fifoDeps));
        NewDepsStep(deps, bi.fifoDeps, m0, E, G, prev, cur);
        prev := cur;
        cur := FindOnQueue(bi.queue, q, cur + 1, bi.numTasks);
      }
    }
  }

  lemma TwoTasks(s: set<nat>, i: nat, j: nat)
    requires i in s && j in s && i != j
    ensures |s| >= 2
  {
    assert {i, j} <= s;
    SubsetSize({i, j}, s);
  }

  lemma {:induction false} SubsetSize(a: set<nat>, b: set<nat>)
    requires a <= b
    ensures |a| <= |b|
  {
    if a != {} {
      var x :| x in a;
      SubsetSize(a - {x}, b - {x});
    }
  }

  /** Represents the queue order of the tasks `from..last` by temporary barriers. */
  method CreateDependencies(bi: BarrierInfo, from: nat, last: int, active: set<nat>) returns (newDeps: nat)
    requires bi.Valid() && bi.fifoDeps == [] && last < bi.numTasks
    requires active <= bi.Tracked()
    modifies bi`producers, bi`consumers, bi`updates, bi`waits, bi`fifoDeps
    ensures bi.Valid() && DepsIntact(bi.producers, bi.consumers, bi.opCount, bi.fifoDeps)
    ensures newDeps == 2 * |bi.fifoDeps|
    ensures Extended(bi.producers, bi.consumers, bi.fifoDeps, old(bi.producers), old(bi.consumers))
    ensures RecordedEdges(bi.fifoDeps) <= FifoEdges(bi.queue, active, from, last)
    ensures bi.Graph() == old(bi.Graph()) + RecordedEdges(bi.fifoDeps)
    ensures bi.Graph() == old(bi.Graph()) + NeighbourEdges(bi.queue, active, from, last)
    ensures SameOrder(bi.Graph(), old(bi.Graph()) + FifoEdges(bi.queue, active, from, last))
  {
    ghost var p0, c0, G := bi.producers, bi.consumers, bi.Graph();
    ghost var E := FifoEdges(bi.queue, active, from, last);
    var k := 0;
    while k < |bi.trackedQueues|
      invariant 0 <= k <= |bi.trackedQueues|
      invariant bi.Valid() && Extended(bi.producers, bi.consumers, bi.fifoDeps, p0, c0)
      invariant NewDeps(bi.fifoDeps, 0, NeighbourEdges(bi.queue, active, from, last), G)
      invariant forall i :: 0 <= i < |bi.fifoDeps| ==> bi.queue[bi.fifoDeps[i].parent] in bi.trackedQueues[..k]
      invariant forall i :: 0 <= i < k ==>
                  QueueLinked(bi.queue, bi.trackedQueues[i], active, from, last, G + RecordedEdges(bi.fifoDeps))
    {
      var q := bi.trackedQueues[k];
      ghost var deps := bi.fifoDeps;
      var onQueue := set t: nat | t < bi.numTasks && bi.queue[t] == q;
      assert bi.trackedQueues[..k + 1] == bi.trackedQueues[..k] + [q];
      if q in active && |onQueue| >= 2 {
        CreateForQueue(bi, q, from, last, p0, c0);
        JoinDeps(bi.queue, deps, bi.fifoDeps, q, active, from, last, G, bi.trackedQueues[..k]);
      } else if q in active {
        forall a, b | Neighbours(bi.queue, q, a, b)
          ensures false
        {
          TwoTasks(onQueue, a, b);
        }
      }
      k := k + 1;
    }
    newDeps := 2 * |bi.fifoDeps|;
    ExtendedGraph(bi.producers, bi.consumers, bi.fifoDeps, p0, c0);
    ExtendedIntact(bi.producers, bi.consumers, bi.fifoDeps, p0, c0);
    forall a, b | (a, b) in E
      ensures Reach(bi.Graph(), a, b)
    {
      assert bi.queue[a] in bi.Tracked();
      var i :| 0 <= i < |bi.trackedQueues| && bi.trackedQueues[i] == bi.queue[a];
      LinkedReach(bi.queue, bi.trackedQueues[i], from, last, bi.Graph(), a, b);
    }
    FifoSameOrder(G, E, RecordedEdges(bi.fifoDeps));
    LinksExact(bi.queue, bi.trackedQueues, bi.fifoDeps, active, from, last, G);
  }

  /** Up to existing barriers, the temporary ones are exactly the links between neighbours. */
  lemma LinksExact(queue: seq<nat>, tracked: seq<nat>, deps: seq<FifoDep>, active: set<nat>, from: nat, last: int,
                   g: Edges)
    requires last < |queue| && forall q :: q in active ==> q in tracked
    requires NewDeps(deps, 0, NeighbourEdges(queue, active, from, last), g)
    requires forall i :: 0 <= i < |tracked| ==>
               QueueLinked(queue, tracked[i], active, from, last, g + RecordedEdges(deps))
    ensures g + RecordedEdges(deps) == g + NeighbourEdges(queue, active, from, last)
  {
    forall a, b | (a, b) in NeighbourEdges(queue, active, from, last)
      ensures (a, b) in g + RecordedEdges(deps)
    {
      var i :| 0 <= i < |tracked| && tracked[i] == queue[a];
      assert QueueLinked(queue, tracked[i], active, from, last, g + RecordedEdges(deps));
    }
  }

  lemma NeighboursWithinFifo(queue: seq<nat>, active: set<nat>, from: nat, last: int)
    requires last < |queue|
    ensures NeighbourEdges(queue, active, from, last) <= FifoEdges(queue, active, from, last)
  {
  }

  /** Links between neighbours generate the order of the queues. */
  lemma NeighboursOrder(queue: seq<nat>, active: set<nat>, from: nat, last: int, g: Edges)
    requires last < |queue|
    ensures SameOrder(g + NeighbourEdges(queue, active, from, last), g + FifoEdges(queue, active, from, last))
  {
    var e, d := FifoEdges(queue, active, from, last), NeighbourEdges(queue, active, from, last);
    forall a, b | (a, b) in e
      ensures Reach(g + d, a, b)
    {
      assert Linked(queue, queue[a], from, last, g + d);
      LinkedReach(queue, queue[a], from, last, g + d, a, b);
    }
    FifoSameOrder(g, e, d);
  }

  ghost predicate QueueLinked(queue: seq<nat>, q: nat, active: set<nat>, from: nat, last: int, h: Edges)
  {
    q in active ==> Linked(queue, q, from, last, h)
  }

  /** What one queue adds to the recorded dependencies. */
  lemma JoinDeps(queue: seq<nat>, deps: seq<FifoDep>, deps': seq<FifoDep>, q: nat, active: set<nat>, from: nat,
                 last: int, g: Edges, done: seq<nat>)
    requires last < |queue| && q in active && q !in done
    requires NewDeps(deps, 0, NeighbourEdges(queue, active, from, last), g) && deps <= deps'
    requires NewDeps(deps', |deps|, NeighbourEdges(queue, {q}, from, last), g)
    requires forall i :: 0 <= i < |deps| ==> queue[deps[i].parent] in done
    requires forall i :: 0 <= i < |done| ==> QueueLinked(queue, done[i], active, from, last, g + RecordedEdges(deps))
    ensures NewDeps(deps', 0, NeighbourEdges(queue, active, from, last), g)
    ensures forall i :: 0 <= i < |deps'| ==> queue[deps'[i].parent] in done + [q]
    ensures forall i :: 0 <= i < |done| ==> QueueLinked(queue, done[i], active, from, last, g + RecordedEdges(deps'))
  {
  }

  lemma FifoSameOrder(g: Edges, e: Edges, d: Edges)
    requires d <= e && forall a, b :: (a, b) in e ==> Reach(g + d, a, b)
    ensures SameOrder(g + d, g + e)
  {
    SubsetKeepsOrder(g + d, g + e);
    forall a, b | (a, b) in g + e
      ensures Reach(g + d, a, b)
    {
      if (a, b) !in e { EdgeReach(g + d, a, b); }
    }
    EdgesKeepOrder(g + e, g + d);
  }

  ghost predicate DepsInRange(deps: seq<FifoDep>, n: nat)
  {
    forall i :: 0 <= i < |deps| ==> deps[i].parent < n && deps[i].child < n
  }

  /** Emptying one temporary barrier leaves the others intact. */
  lemma ClearOne(p: IndexSets, c: IndexSets, p': IndexSets, c': IndexSets, opCount: nat, deps: seq<FifoDep>, k: nat)
    requires |p| == |c| == opCount + |deps| && k < |deps| && DepsIntact(p, c, opCount, deps)
    requires p' == p[opCount + k := {}] && c' == c[opCount + k := {}]
    ensures DepsIntact(p', c', opCount, deps)
  {
  }

  /** Takes one temporary barrier out of use. */
  method RemoveOne(bi: BarrierInfo, k: nat) returns (removed: bool)
    requires bi.Valid() && k < |bi.fifoDeps| && DepsInRange(bi.fifoDeps, bi.numTasks)
    requires DepsIntact(bi.producers, bi.consumers, bi.opCount, bi.fifoDeps)
    modifies bi`producers, bi`consumers, bi`updates, bi`waits
    ensures bi.Valid() && DepsIntact(bi.producers, bi.consumers, bi.opCount, bi.fifoDeps)
    ensures bi.producers == old(bi.producers)[bi.opCount + k := {}]
    ensures bi.consumers == old(bi.consumers)[bi.opCount + k := {}]
    ensures removed <==> old(bi.producers)[bi.opCount + k] != {}
  {
    var d := bi.fifoDeps[k];
    assert DepIntact(bi.producers, bi.consumers, d);
    removed := false;
    var has, common := HasBarrierDependency(bi, d.parent, d.child);
    if has && common == d.barrier {
      assert {d.parent} - {d.parent} == {} && {d.child} - {d.child} == {};
      bi.RemoveProducer(d.barrier, d.parent);
      bi.RemoveConsumer(d.barrier, d.child);
      removed := true;
    } else {
      assert bi.producers[d.barrier] == {} && bi.consumers[d.barrier] == {};
    }
    assert bi.producers == old(bi.producers)[bi.opCount + k := {}];
    assert bi.consumers == old(bi.consumers)[bi.opCount + k := {}];
    ClearOne(old(bi.producers), old(bi.consumers), bi.producers, bi.consumers, bi.opCount, bi.fifoDeps, k);
  }

  /** Users of the temporary barriers in one of the two barrier maps. */
  method CountTemporaryUsers(sets: IndexSets, opCount: nat) returns (users: nat)
    requires opCount <= |sets|
    ensures users == 0 <==> forall b :: opCount <= b < |sets| ==> sets[b] == {}
  {
    users := 0;
    var b := opCount;
    while b < |sets|
      invariant opCount <= b <= |sets|
      invariant users == 0 <==> forall x :: opCount <= x < b ==> sets[x] == {}
    {
      users := users + |sets[b]|;
      b := b + 1;
    }
  }

  /** Removes the temporary barriers. The check that nothing uses them any more cannot fail as long as the passes
      in between kept them intact. */
  method RemoveDependencies(bi: BarrierInfo) returns (ok: bool, removed: nat)
    requires bi.Valid() && DepsInRange(bi.fifoDeps, bi.numTasks)
    requires DepsIntact(bi.producers, bi.consumers, bi.opCount, bi.fifoDeps)
    modifies bi`producers, bi`consumers, bi`updates, bi`waits, bi`fifoDeps
    ensures ok && bi.Valid() && bi.fifoDeps == []
    ensures bi.producers == old(bi.producers)[..bi.opCount] && bi.consumers == old(bi.consumers)[..bi.opCount]
    ensures (forall b :: bi.opCount <= b < |old(bi.producers)| ==> old(bi.producers)[b] != {}) ==>
              removed == 2 * |old(bi.fifoDeps)|
  {
    removed := 0;
    var k := 0;
    while k < |bi.fifoDeps|
      invariant 0 <= k <= |bi.fifoDeps| == |old(bi.fifoDeps)| && bi.fifoDeps == old(bi.fifoDeps)
      invariant bi.Valid() && DepsIntact(bi.producers, bi.consumers, bi.opCount, bi.fifoDeps)
      invariant bi.producers[..bi.opCount] == old(bi.producers)[..bi.opCount]
      invariant bi.consumers[..bi.opCount] == old(bi.consumers)[..bi.opCount]
      invariant forall b :: bi.opCount <= b < bi.opCount + k ==> bi.producers[b] == {} && bi.consumers[b] == {}
      invariant forall b :: bi.opCount + k <= b < |bi.producers| ==> bi.producers[b] == old(bi.producers)[b]
      invariant (forall b :: bi.opCount <= b < bi.opCount + k ==> old(bi.producers)[b] != {}) ==> removed == 2 * k
    {
      var one := RemoveOne(bi, k);
      if one {
        removed := removed + 2;
      }
      k := k + 1;
    }
    var producerUsers := CountTemporaryUsers(bi.producers, bi.opCount);
    var consumerUsers := CountTemporaryUsers(bi.consumers, bi.opCount);
    ok := producerUsers == 0 && consumerUsers == 0;
    bi.producers, bi.consumers, bi.fifoDeps := bi.producers[..bi.opCount], bi.consumers[..bi.opCount], [];
  }
}
