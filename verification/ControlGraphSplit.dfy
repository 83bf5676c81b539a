/** Splitting the control graph into blocks of equal size: every dependency that leaves a block is rerouted through the
    sync points between the blocks. */
module ControlGraphSplit {
  import opened TaskGraph
  import opened Barriers
  import opened BarrierEdits
  import opened SplitLayout
  import FifoDependencies

  //
  // Shape of the graph while it is being rewritten
  //

  /** The graph before the split: its edges, and whether its last task waits for a barrier. */
  datatype Origin = Origin(late: bool, edges: Edges)

  /** Producers precede consumers, an edge stays in its block or leads from a sync point to the next block, and
      without a sync point at one end it is an edge of the original graph. */
  ghost predicate Local(l: Layout, p: set<nat>, c: set<nat>, origin: Origin)
  {
    forall x, y :: x in p && y in c ==> LocalEdge(l, x, y) && InnerEdge(l, origin.edges, x, y)
  }

  ghost predicate InnerEdge(l: Layout, e: Edges, x: nat, y: nat)
  {
    l.IsSync(x) || l.IsSync(y) || (x, y) in e
  }

  ghost predicate LocalEdge(l: Layout, x: nat, y: nat)
  {
    && x < y < |l.blockOf|
    && (l.blockOf[x] == l.blockOf[y] || (l.IsSync(x) && l.blockOf[y] == l.blockOf[x] + 1))
  }

  ghost predicate WaitShape(l: Layout, p: set<nat>, c: set<nat>, k: nat)
    requires k < |l.syncs|
  {
    && c == {l.syncs[k]}
    && forall x :: x in p ==> x < |l.blockOf| && l.blockOf[x] == k && !l.IsSync(x)
  }

  ghost predicate UpdateShape(l: Layout, p: set<nat>, c: set<nat>, k: nat)
    requires k < |l.syncs|
  {
    && p == {l.syncs[k]}
    && forall y :: y in c ==> y < |l.blockOf| && l.blockOf[y] == k + 1
  }

  ghost predicate TwoSided(p: set<nat>, c: set<nat>) { p != {} && c != {} }

  /** The barriers around sync points, and the barriers created after them. Only an origin in which the last task
      waits lets it wait here. */
  ghost predicate Shape(l: Layout, p: IndexSets, c: IndexSets, origin: Origin)
  {
    && |p| == |c| >= l.Extra()
    && (forall k {:trigger l.Wait(k)} :: 0 <= k < |l.syncs| ==> WaitShape(l, p[l.Wait(k)], c[l.Wait(k)], k))
    && (forall k {:trigger l.Update(k)} :: 0 <= k < |l.syncs| ==> UpdateShape(l, p[l.Update(k)], c[l.Update(k)], k))
    && (forall j {:trigger Local(l, p[j], c[j], origin)} :: l.Extra() <= j < |p| ==> Local(l, p[j], c[j], origin))
    && (forall j {:trigger TwoSided(p[j], c[j])} :: l.Extra() <= j < |p| ==> TwoSided(p[j], c[j]))
    && (forall j, t :: 0 <= j < |c| && t in c[j] && t + 1 == |l.blockOf| ==> origin.late)
  }

  /** Barriers only gain users, apart from `b`. */
  ghost predicate Grown(l: Layout, p: IndexSets, c: IndexSets, p': IndexSets, c': IndexSets, b: nat)
    requires |p| == |c| && |p'| == |c'|
  {
    && |p| <= |p'|
    && (forall j :: 0 <= j < |p| && j != b ==> p[j] <= p'[j] && c[j] <= c'[j])
    && (forall j :: 0 <= j < l.base && j < |p| && j != b ==> p[j] == p'[j] && c[j] == c'[j])
  }

  lemma GrownTrans(l: Layout, p: IndexSets, c: IndexSets, p1: IndexSets, c1: IndexSets, p2: IndexSets, c2: IndexSets,
                   b: nat)
    requires |p| == |c| && |p1| == |c1| && |p2| == |c2|
    requires Grown(l, p, c, p1, c1, b) && Grown(l, p1, c1, p2, c2, b)
    ensures Grown(l, p, c, p2, c2, b)
  {
  }

  lemma OwnShape(l: Layout, p: IndexSets, c: IndexSets, origin: Origin, b: nat, x: set<nat>, y: set<nat>)
    requires Shape(l, p, c, origin) && b < l.base && forall t :: t in y && t + 1 == |l.blockOf| ==> origin.late
    ensures Shape(l, p[b := x], c[b := y], origin) && Grown(l, p, c, p[b := x], c[b := y], b)
  {
  }

  lemma WaitGrows(l: Layout, p: IndexSets, c: IndexSets, origin: Origin, k: nat, x: set<nat>, b: nat)
    requires Shape(l, p, c, origin) && k < |l.syncs|
    requires forall t :: t in x ==> t < |l.blockOf| && l.blockOf[t] == k && !l.IsSync(t)
    ensures l.base <= l.Wait(k) < |p|
    ensures Shape(l, p[l.Wait(k) := p[l.Wait(k)] + x], c, origin)
    ensures Grown(l, p, c, p[l.Wait(k) := p[l.Wait(k)] + x], c, b)
  {
  }

  lemma UpdateGrows(l: Layout, p: IndexSets, c: IndexSets, origin: Origin, k: nat, y: set<nat>, b: nat)
    requires Shape(l, p, c, origin) && k < |l.syncs|
    requires forall t :: t in y ==> t < |l.blockOf| && l.blockOf[t] == k + 1 && (t + 1 == |l.blockOf| ==> origin.late)
    ensures l.base <= l.Update(k) < |c|
    ensures Shape(l, p, c[l.Update(k) := c[l.Update(k)] + y], origin)
    ensures Grown(l, p, c, p, c[l.Update(k) := c[l.Update(k)] + y], b)
  {
    var c' := c[l.Update(k) := c[l.Update(k)] + y];
    forall i | 0 <= i < |l.syncs|
      ensures WaitShape(l, p[l.Wait(i)], c'[l.Wait(i)], i) && UpdateShape(l, p[l.Update(i)], c'[l.Update(i)], i)
    {
      assert WaitShape(l, p[l.Wait(i)], c[l.Wait(i)], i) && UpdateShape(l, p[l.Update(i)], c[l.Update(i)], i);
    }
  }

  lemma ExtraGrows(l: Layout, p: IndexSets, c: IndexSets, origin: Origin, x: set<nat>, y: set<nat>, b: nat)
    requires Shape(l, p, c, origin) && Local(l, x, y, origin)
    requires forall t :: t in y && t + 1 == |l.blockOf| ==> origin.late
    requires x != {} && y != {}
    ensures Shape(l, p + [x], c + [y], origin) && Grown(l, p, c, p + [x], c + [y], b)
  {
  }

  /** Every edge of a graph in shape is local once this holds for the original barriers too. */
  lemma ShapeLocal(l: Layout, p: IndexSets, c: IndexSets, origin: Origin, j: nat)
    requires l.Ok() && Shape(l, p, c, origin) && l.base <= j < |p|
    ensures Local(l, p[j], c[j], origin)
  {
    if j < l.Extra() {
      var k := (j - l.base) / 2;
      if j == l.Wait(k) {
        assert WaitShape(l, p[l.Wait(k)], c[l.Wait(k)], k);
        forall x, y | x in p[j] && y in c[j]
          ensures LocalEdge(l, x, y)
        {
          SyncOfBlock(l, x);
          SyncBlock(l, k);
        }
      } else {
        assert j == l.Update(k);
        assert UpdateShape(l, p[l.Update(k)], c[l.Update(k)], k);
        forall x, y | x in p[j] && y in c[j]
          ensures LocalEdge(l, x, y)
        {
          SyncOfBlock(l, y);
          SyncBlock(l, k);
        }
      }
    }
  }

  //
  // Rerouting one barrier
  //

  /** A barrier with users on both sides and producers first. */
  ghost predicate Proper(l: Layout, p: set<nat>, c: set<nat>, origin: Origin)
  {
    && p != {} && c != {}
    && (forall x, y :: x in p && y in c ==> x < y && (x, y) in origin.edges)
    && (forall t :: t in p || t in c ==> t < |l.blockOf|)
    && (forall t :: t in c && t + 1 == |l.blockOf| ==> origin.late)
  }

  function NoSync(l: Layout, s: set<nat>): set<nat>
  {
    set t | t in s && !l.IsSync(t)
  }

  /** Users in block `i` of a barrier that starts in another block: either they lead to the sync point of the block, or
      they share a barrier of their own. */
  ghost predicate BlockMoved(l: Layout, p0: set<nat>, c0: set<nat>, p: IndexSets, c: IndexSets, i: nat)
    requires |p| == |c| >= l.Extra()
  {
    && (i < |l.syncs| && InBlock(l, c0, i) == {} ==> NoSync(l, InBlock(l, p0, i)) <= p[l.Wait(i)])
    && (InBlock(l, p0, i) != {} && InBlock(l, c0, i) != {} ==>
          exists j :: l.Extra() <= j < |p| && InBlock(l, p0, i) <= p[j] && InBlock(l, c0, i) <= c[j])
  }

  ghost predicate BlockLinked(l: Layout, c0: set<nat>, c: IndexSets, i: nat)
    requires |c| >= l.Extra()
  {
    0 < i <= |l.syncs| ==> NoSync(l, InBlock(l, c0, i)) <= c[l.Update(i - 1)]
  }

  lemma MovedGrows(l: Layout, p0: set<nat>, c0: set<nat>, p: IndexSets, c: IndexSets, p': IndexSets, c': IndexSets,
                   b: nat, i: nat)
    requires |p| == |c| >= l.Extra() && |p'| == |c'| && b < l.base && Grown(l, p, c, p', c', b)
    ensures BlockMoved(l, p0, c0, p, c, i) ==> BlockMoved(l, p0, c0, p', c', i)
    ensures BlockLinked(l, c0, c, i) ==> BlockLinked(l, c0, c', i)
  {
  }

  /** A producer always has a sync point ahead of it unless it shares its block with all consumers. */
  lemma ProducerBlock(l: Layout, p: set<nat>, c: set<nat>, origin: Origin, k: nat)
    requires l.Ok() && Proper(l, p, c, origin) && InBlock(l, p, k) != {}
    ensures forall y :: y in c ==> k <= l.blockOf[y] <= |l.syncs|
    ensures forall t :: t in p ==> t + 1 < |l.blockOf|
    ensures k == |l.syncs| ==> InBlock(l, c, k) == c
    ensures InBlock(l, c, k) != {} ==> forall x :: x in p ==> l.blockOf[x] <= k && (l.IsSync(x) ==> l.blockOf[x] < k)
  {
    var x0 :| x0 in InBlock(l, p, k);
    forall y | y in c
      ensures k <= l.blockOf[y]
    {
      BlockMonotone(l, x0, y);
    }
    if InBlock(l, c, k) != {} {
      var y :| y in InBlock(l, c, k);
      forall x | x in p
        ensures l.blockOf[x] <= k && (l.IsSync(x) ==> l.blockOf[x] < k)
      {
        BlockMonotone(l, x, y);
        SyncOfBlock(l, x);
        SyncOfBlock(l, y);
      }
    }
  }

  /** The producers of block `k` now lead to the sync point of the block, or share a new barrier with the consumers of
      the block. */
  method PlaceProducers(bi: BarrierInfo, l: Layout, ghost b: nat, p0: set<nat>, c0: set<nat>, k: nat, last: nat,
                        ghost origin: Origin)
    requires bi.Valid() && bi.fifoDeps == [] && l.Ok() && |l.blockOf| == bi.numTasks && b < l.base
    requires Shape(l, bi.producers, bi.consumers, origin) && Proper(l, p0, c0, origin)
    requires 0 < k && InBlock(l, p0, k) != {} && InBlock(l, p0, last) != {}
    requires forall x :: x in p0 ==> l.blockOf[x] <= last
    modifies bi`producers, bi`consumers, bi`updates, bi`waits, bi`opCount
    ensures bi.Valid() && Shape(l, bi.producers, bi.consumers, origin)
    ensures Grown(l, old(bi.producers), old(bi.consumers), bi.producers, bi.consumers, b)
    ensures bi.producers[b] == old(bi.producers[b]) && bi.consumers[b] == old(bi.consumers[b])
    ensures BlockMoved(l, p0, c0, bi.producers, bi.consumers, k)
  {
    ghost var p1, c1 := bi.producers, bi.consumers;
    var pk, ck := InBlock(l, p0, k), InBlock(l, c0, k);
    ProducerBlock(l, p0, c0, origin, k);
    if k != last || ck == {} {
      ProducerBlock(l, p0, c0, origin, last);
      // the sync point behind the block exists, since some consumer lies in a later block
      WaitGrows(l, p1, c1, origin, k, NoSync(l, pk), b);
      bi.AddProducers(l.Wait(k), NoSync(l, pk));
    } else {
      assert Local(l, pk, ck, origin);
      ExtraGrows(l, p1, c1, origin, pk, ck, b);
      AddBarrier(bi, pk, ck);
      assert pk <= bi.producers[|p1|] && ck <= bi.consumers[|p1|];
    }
  }

  method MoveProducers(bi: BarrierInfo, l: Layout, b: nat, p0: set<nat>, c0: set<nat>, k: nat, last: nat,
                       ghost origin: Origin)
    requires bi.Valid() && bi.fifoDeps == [] && l.Ok() && |l.blockOf| == bi.numTasks && b < l.base
    requires Shape(l, bi.producers, bi.consumers, origin) && Proper(l, p0, c0, origin)
    requires 0 < k && InBlock(l, p0, k) != {} && InBlock(l, p0, last) != {}
    requires forall x :: x in p0 ==> l.blockOf[x] <= last
    modifies bi`producers, bi`consumers, bi`updates, bi`waits, bi`opCount
    ensures bi.Valid() && Shape(l, bi.producers, bi.consumers, origin)
    ensures Grown(l, old(bi.producers), old(bi.consumers), bi.producers, bi.consumers, b)
    ensures bi.producers[b] == old(bi.producers[b]) - InBlock(l, p0, k) && bi.consumers[b] == old(bi.consumers[b])
    ensures BlockMoved(l, p0, c0, bi.producers, bi.consumers, k)
  {
    ghost var pp, cc := bi.producers, bi.consumers;
    var pk := InBlock(l, p0, k);
    bi.RemoveProducers(b, pk);
    OwnShape(l, pp, cc, origin, b, pp[b] - pk, cc[b]);
    assert cc[b := cc[b]] == cc;
    ghost var p1, c1 := bi.producers, bi.consumers;
    PlaceProducers(bi, l, b, p0, c0, k, last, origin);
    ghost var p2, c2 := bi.producers, bi.consumers;
    GrownTrans(l, pp, cc, p1, c1, p2, c2, b);
    ProducerBlock(l, p0, c0, origin, k);
    UpdateGrows(l, p2, c2, origin, k - 1, NoSync(l, pk), b);
    bi.AddConsumers(l.Update(k - 1), NoSync(l, pk));
    MovedGrows(l, p0, c0, p2, c2, bi.producers, bi.consumers, b, k);
    GrownTrans(l, pp, cc, p2, c2, bi.producers, bi.consumers, b);
  }

  /** The tasks of `s` by block. */
  method GroupByBlock(l: Layout, s: set<nat>) returns (groups: map<nat, set<nat>>)
    requires forall t :: t in s ==> t < |l.blockOf|
    ensures forall k :: k in groups <==> InBlock(l, s, k) != {}
    ensures forall k :: k in groups ==> groups[k] == InBlock(l, s, k)
  {
    groups := map[];
    var done, rest := {}, s;
    while rest != {}
      invariant done + rest == s
      invariant forall k :: k in groups <==> InBlock(l, done, k) != {}
      invariant forall k :: k in groups ==> groups[k] == InBlock(l, done, k)
      decreases rest
    {
      var t :| t in rest;
      var k := l.blockOf[t];
      InBlockAdd(l, done, t);
      groups := groups[k := (if k in groups then groups[k] else {}) + {t}];
      done, rest := done + {t}, rest - {t};
    }
    assert done == s;
  }

  lemma InBlockAdd(l: Layout, s: set<nat>, t: nat)
    requires t < |l.blockOf|
    ensures InBlock(l, s + {t}, l.blockOf[t]) == InBlock(l, s, l.blockOf[t]) + {t}
    ensures forall k :: k != l.blockOf[t] ==> InBlock(l, s + {t}, k) == InBlock(l, s, k)
  {
  }

  /** Lowest and highest block with a task in `s`. */
  method BlockRange(l: Layout, ghost s: set<nat>, groups: map<nat, set<nat>>) returns (first: nat, last: nat)
    requires l.Ok() && s != {} && forall t :: t in s ==> t < |l.blockOf|
    requires forall k :: k in groups <==> InBlock(l, s, k) != {}
    ensures InBlock(l, s, first) != {} && InBlock(l, s, last) != {}
    ensures forall t :: t in s ==> first <= l.blockOf[t] <= last
  {
    ghost var t0 :| t0 in s;
    assert forall t :: t in s ==> t in InBlock(l, s, l.blockOf[t]);
    first := 0;
    while first !in groups
      invariant forall k :: 0 <= k < first ==> k !in groups
      decreases l.blockOf[t0] - first
    {
      first := first + 1;
    }
    last := |l.syncs|;
    while last !in groups
      invariant l.blockOf[t0] <= last && forall k :: last < k <= |l.syncs| ==> k !in groups
      decreases last
    {
      last := last - 1;
    }
  }

  /** `s` is `s0` without the tasks of blocks below `k`, block `home` excepted. */
  ghost predicate Trimmed(l: Layout, s0: set<nat>, s: set<nat>, home: nat, k: nat)
    requires forall t :: t in s0 ==> t < |l.blockOf|
  {
    forall t :: t in s <==> t in s0 && (l.blockOf[t] == home || k <= l.blockOf[t])
  }

  method RerouteProducers(bi: BarrierInfo, l: Layout, b: nat, p0: set<nat>, c0: set<nat>, groups: map<nat, set<nat>>,
                          home: nat, last: nat, ghost origin: Origin)
    requires bi.Valid() && bi.fifoDeps == [] && l.Ok() && |l.blockOf| == bi.numTasks && b < l.base
    requires Shape(l, bi.producers, bi.consumers, origin) && Proper(l, p0, c0, origin)
    requires bi.producers[b] == p0 && bi.consumers[b] == c0
    requires forall k :: k in groups <==> InBlock(l, p0, k) != {}
    requires InBlock(l, p0, last) != {} && forall x :: x in p0 ==> home <= l.blockOf[x] <= last
    modifies bi`producers, bi`consumers, bi`updates, bi`waits, bi`opCount
    ensures bi.Valid() && Shape(l, bi.producers, bi.consumers, origin)
    ensures Grown(l, old(bi.producers), old(bi.consumers), bi.producers, bi.consumers, b)
    ensures bi.producers[b] == InBlock(l, p0, home) && bi.consumers[b] == c0
    ensures forall i :: 0 <= i <= |l.syncs| && i != home ==> BlockMoved(l, p0, c0, bi.producers, bi.consumers, i)
  {
    ghost var pp, cc := bi.producers, bi.consumers;
    var k := 0;
    while k <= |l.syncs|
      invariant k <= |l.syncs| + 1
      invariant bi.Valid() && Shape(l, bi.producers, bi.consumers, origin)
      invariant Grown(l, pp, cc, bi.producers, bi.consumers, b)
      invariant Trimmed(l, p0, bi.producers[b], home, k) && bi.consumers[b] == c0
      invariant forall i :: 0 <= i < k && i != home ==> BlockMoved(l, p0, c0, bi.producers, bi.consumers, i)
    {
      ghost var p1, c1 := bi.producers, bi.consumers;
      if k in groups && k != home {
        MoveProducers(bi, l, b, p0, c0, k, last, origin);
        GrownTrans(l, pp, cc, p1, c1, bi.producers, bi.consumers, b);
        forall i | 0 <= i < k && i != home
          ensures BlockMoved(l, p0, c0, bi.producers, bi.consumers, i)
        {
          MovedGrows(l, p0, c0, p1, c1, bi.producers, bi.consumers, b, i);
        }
      } else {
        NothingToTrim(l, p0, p1[b], home, k);
      }
      k := k + 1;
    }
  }

  lemma NothingToTrim(l: Layout, s0: set<nat>, s: set<nat>, home: nat, k: nat)
    requires forall t :: t in s0 ==> t < |l.blockOf|
    requires Trimmed(l, s0, s, home, k) && (k == home || InBlock(l, s0, k) == {})
    ensures Trimmed(l, s0, s, home, k + 1)
  {
    assert forall t :: t in s0 && l.blockOf[t] == k ==> t in InBlock(l, s0, k);
  }

  method DropConsumers(bi: BarrierInfo, l: Layout, b: nat, ghost c0: set<nat>, groups: map<nat, set<nat>>, home: nat,
                       ghost origin: Origin)
    requires bi.Valid() && l.Ok() && |l.blockOf| == bi.numTasks && b < l.base
    requires Shape(l, bi.producers, bi.consumers, origin)
    requires bi.consumers[b] == c0 && forall t :: t in c0 ==> t < |l.blockOf|
    requires forall k :: k in groups <==> InBlock(l, c0, k) != {}
    requires forall k :: k in groups ==> groups[k] == InBlock(l, c0, k)
    modifies bi`consumers, bi`waits
    ensures bi.Valid() && bi.consumers == old(bi.consumers)[b := InBlock(l, c0, home)]
  {
    var k := 0;
    while k <= |l.syncs|
      invariant k <= |l.syncs| + 1 && bi.Valid() && |bi.consumers| == old(|bi.consumers|)
      invariant bi.consumers == old(bi.consumers)[b := bi.consumers[b]]
      invariant Trimmed(l, c0, bi.consumers[b], home, k)
    {
      if k in groups && k != home {
        bi.RemoveConsumers(b, groups[k]);
      } else {
        NothingToTrim(l, c0, bi.consumers[b], home, k);
      }
      k := k + 1;
    }
    assert bi.consumers[b] == InBlock(l, c0, home);
  }

  method LinkConsumers(bi: BarrierInfo, l: Layout, ghost b: nat, c0: set<nat>, groups: map<nat, set<nat>>, home: nat,
                       ghost origin: Origin)
    requires bi.Valid() && l.Ok() && |l.blockOf| == bi.numTasks && b < l.base
    requires Shape(l, bi.producers, bi.consumers, origin)
    requires forall t :: t in c0 ==> t < |l.blockOf| && home <= l.blockOf[t] && (t + 1 == |l.blockOf| ==> origin.late)
    requires forall k :: k in groups <==> InBlock(l, c0, k) != {}
    requires forall k :: k in groups ==> groups[k] == InBlock(l, c0, k)
    modifies bi`consumers, bi`waits
    ensures bi.Valid() && Shape(l, bi.producers, bi.consumers, origin)
    ensures Grown(l, bi.producers, old(bi.consumers), bi.producers, bi.consumers, b)
    ensures bi.consumers[b] == old(bi.consumers[b])
    ensures forall i :: 0 <= i <= |l.syncs| && i != home ==> BlockLinked(l, c0, bi.consumers, i)
  {
    ghost var pp, cc := bi.producers, bi.consumers;
    var k := 0;
    while k <= |l.syncs|
      invariant k <= |l.syncs| + 1
      invariant bi.Valid() && Shape(l, bi.producers, bi.consumers, origin)
      invariant Grown(l, pp, cc, bi.producers, bi.consumers, b) && bi.consumers[b] == cc[b]
      invariant forall i :: 0 <= i < k && i != home ==> BlockLinked(l, c0, bi.consumers, i)
    {
      ghost var c1 := bi.consumers;
      if k in groups && k != home {
        var tasks := NoSync(l, groups[k]);
        UpdateGrows(l, pp, c1, origin, k - 1, tasks, b);
        bi.AddConsumers(l.Update(k - 1), tasks);
        GrownTrans(l, pp, cc, pp, c1, pp, bi.consumers, b);
        forall i | 0 <= i < k && i != home
          ensures BlockLinked(l, c0, bi.consumers, i)
        {
          MovedGrows(l, {}, c0, pp, c1, pp, bi.consumers, b, i);
        }
      }
      k := k + 1;
    }
  }

  /** All users of the barrier lie in block `home`. */
  ghost predicate Untouched(l: Layout, p0: set<nat>, c0: set<nat>, p: set<nat>, c: set<nat>, home: nat)
  {
    p == p0 == InBlock(l, p0, home) && c == c0 == InBlock(l, c0, home)
  }

  /** What is left in a barrier that starts in block `home` and reaches beyond it. */
  ghost predicate Remainder(l: Layout, p0: set<nat>, c0: set<nat>, p: set<nat>, c: set<nat>, home: nat)
    requires home < |l.syncs|
  {
    var s := l.syncs[home];
    || (p == InBlock(l, p0, home) && c == InBlock(l, c0, home) && s in p)
    || (p == InBlock(l, p0, home) - {s} && c == InBlock(l, c0, home) + {s} && p != {})
  }

  ghost predicate Rerouted(l: Layout, p0: set<nat>, c0: set<nat>, p: IndexSets, c: IndexSets, b: nat, home: nat)
    requires b < |p| && |p| == |c| >= l.Extra()
  {
    || Untouched(l, p0, c0, p[b], c[b], home)
    || (&& home < |l.syncs|
        && (forall x :: x in p0 && x < |l.blockOf| ==> home <= l.blockOf[x])
        && Remainder(l, p0, c0, p[b], c[b], home)
        && (forall i :: 0 <= i <= |l.syncs| && i != home ==> BlockMoved(l, p0, c0, p, c, i))
        && (forall i :: 0 <= i <= |l.syncs| && i != home ==> BlockLinked(l, c0, c, i)))
  }

  lemma SingleBlock(l: Layout, p0: set<nat>, c0: set<nat>, blocks: set<nat>, home: nat)
    requires forall t :: t in p0 || t in c0 ==> t < |l.blockOf|
    requires forall k :: k in blocks <==> InBlock(l, p0, k) != {} || InBlock(l, c0, k) != {}
    requires home in blocks && |blocks| < 2
    ensures InBlock(l, p0, home) == p0 && InBlock(l, c0, home) == c0
  {
    forall k | k in blocks
      ensures k == home
    {
      if k != home { FifoDependencies.SubsetSize({k, home}, blocks); }
    }
    forall t | t in p0 || t in c0
      ensures l.blockOf[t] == home
    {
      assert t in InBlock(l, p0, l.blockOf[t]) || t in InBlock(l, c0, l.blockOf[t]);
      assert l.blockOf[t] in blocks;
    }
  }

  function Min(a: nat, b: nat): nat { if a < b then a else b }

  /** Several blocks means that the first one is not the last block of the program. */
  lemma HasSyncPoint(l: Layout, p0: set<nat>, c0: set<nat>, origin: Origin, blocks: set<nat>, home: nat)
    requires l.Ok() && Proper(l, p0, c0, origin)
    requires forall k :: k in blocks ==> InBlock(l, p0, k) != {} || InBlock(l, c0, k) != {}
    requires InBlock(l, p0, home) != {} && |blocks| >= 2 && forall x :: x in p0 ==> home <= l.blockOf[x]
    ensures home < |l.syncs|
  {
    ProducerBlock(l, p0, c0, origin, home);
    if home >= |l.syncs| {
      forall k | k in blocks
        ensures k == home
      {
        var t :| t in InBlock(l, p0, k) || t in InBlock(l, c0, k);
      }
      assert blocks <= {home};
      FifoDependencies.SubsetSize(blocks, {home});
    }
  }

  /** Exchanges the sync point of block `home` from the producing to the consuming side, unless it is the producer that
      the iteration meets first. */
  method TurnSyncPoint(bi: BarrierInfo, l: Layout, b: nat, ghost p0: set<nat>, ghost c0: set<nat>, home: nat,
                       ghost origin: Origin)
    requires bi.Valid() && l.Ok() && |l.blockOf| == bi.numTasks && b < l.base && home < |l.syncs|
    requires Shape(l, bi.producers, bi.consumers, origin)
    requires bi.producers[b] == InBlock(l, p0, home) != {} && bi.consumers[b] == InBlock(l, c0, home)
    modifies bi`producers, bi`consumers, bi`updates, bi`waits
    ensures bi.Valid() && Shape(l, bi.producers, bi.consumers, origin)
    ensures Grown(l, old(bi.producers), old(bi.consumers), bi.producers, bi.consumers, b)
    ensures Remainder(l, p0, c0, bi.producers[b], bi.consumers[b], home)
  {
    ghost var pp, cc := bi.producers, bi.consumers;
    var s := l.syncs[home];
    var first :| first in bi.producers[b];
    if first != s {
      bi.RemoveProducer(b, s);
      bi.AddConsumer(b, s);
      assert first in bi.producers[b];
      OwnShape(l, pp, cc, origin, b, pp[b] - {s}, cc[b] + {s});
    }
  }

  method SplitBarrier(bi: BarrierInfo, l: Layout, b: nat, ghost origin: Origin) returns (home: nat)
    requires bi.Valid() && bi.fifoDeps == [] && l.Ok() && |l.blockOf| == bi.numTasks && b < l.base
    requires Shape(l, bi.producers, bi.consumers, origin) && Proper(l, bi.producers[b], bi.consumers[b], origin)
    modifies bi`producers, bi`consumers, bi`updates, bi`waits, bi`opCount
    ensures bi.Valid() && Shape(l, bi.producers, bi.consumers, origin)
    ensures Grown(l, old(bi.producers), old(bi.consumers), bi.producers, bi.consumers, b)
    ensures Rerouted(l, old(bi.producers[b]), old(bi.consumers[b]), bi.producers, bi.consumers, b, home)
  {
    var p0, c0 := bi.producers[b], bi.consumers[b];
    var producerGroups := GroupByBlock(l, p0);
    var consumerGroups := GroupByBlock(l, c0);
    var blocks := producerGroups.Keys + consumerGroups.Keys;
    var last, firstConsumer, lastConsumer;
    home, last := BlockRange(l, p0, producerGroups);
    firstConsumer, lastConsumer := BlockRange(l, c0, consumerGroups);
    ghost var start := home;
    home := Min(home, firstConsumer);
    ProducerBlock(l, p0, c0, origin, start);
    if |blocks| < 2 {
      SingleBlock(l, p0, c0, blocks, home);
      return;
    }
    HasSyncPoint(l, p0, c0, origin, blocks, home);
    Reroute(bi, l, b, p0, c0, producerGroups, consumerGroups, home, last, origin);
  }

  method Reroute(bi: BarrierInfo, l: Layout, b: nat, p0: set<nat>, c0: set<nat>, producerGroups: map<nat, set<nat>>,
                 consumerGroups: map<nat, set<nat>>, home: nat, last: nat, ghost origin: Origin)
    requires bi.Valid() && bi.fifoDeps == [] && l.Ok() && |l.blockOf| == bi.numTasks && b < l.base
    requires Shape(l, bi.producers, bi.consumers, origin) && Proper(l, p0, c0, origin)
    requires bi.producers[b] == p0 && bi.consumers[b] == c0
    requires forall k :: k in producerGroups <==> InBlock(l, p0, k) != {}
    requires forall k :: k in consumerGroups <==> InBlock(l, c0, k) != {}
    requires forall k :: k in consumerGroups ==> consumerGroups[k] == InBlock(l, c0, k)
    requires InBlock(l, p0, home) != {} && InBlock(l, p0, last) != {}
    requires forall x :: x in p0 ==> home <= l.blockOf[x] <= last
    requires home < |l.syncs| && forall y :: y in c0 ==> home <= l.blockOf[y]
    modifies bi`producers, bi`consumers, bi`updates, bi`waits, bi`opCount
    ensures bi.Valid() && Shape(l, bi.producers, bi.consumers, origin)
    ensures Grown(l, old(bi.producers), old(bi.consumers), bi.producers, bi.consumers, b)
    ensures Rerouted(l, p0, c0, bi.producers, bi.consumers, b, home)
  {
    ghost var pp, cc := bi.producers, bi.consumers;
    RerouteProducers(bi, l, b, p0, c0, producerGroups, home, last, origin);
    ghost var p1, c1 := bi.producers, bi.consumers;
    DropConsumers(bi, l, b, c0, consumerGroups, home, origin);
    OwnShape(l, p1, c1, origin, b, p1[b], InBlock(l, c0, home));
    assert p1[b := p1[b]] == p1;
    ghost var c2 := bi.consumers;
    GrownTrans(l, pp, cc, p1, c1, p1, c2, b);
    TurnSyncPoint(bi, l, b, p0, c0, home, origin);
    ghost var p3, c3 := bi.producers, bi.consumers;
    GrownTrans(l, p1, c1, p1, c2, p3, c3, b);
    LinkConsumers(bi, l, b, c0, consumerGroups, home, origin);
    GrownTrans(l, p1, c1, p3, c3, bi.producers, bi.consumers, b);
    GrownTrans(l, pp, cc, p1, c1, bi.producers, bi.consumers, b);
    forall i | 0 <= i <= |l.syncs| && i != home
      ensures BlockMoved(l, p0, c0, bi.producers, bi.consumers, i)
    {
      MovedGrows(l, p0, c0, p1, c1, bi.producers, bi.consumers, b, i);
    }
  }

  //
  // What rerouting all barriers achieves
  //

  /** Edges of the barriers below `n` and of all barriers created by the split. */
  ghost function Settled(l: Layout, p: IndexSets, c: IndexSets, n: nat): Edges
    requires |p| == |c|
  {
    set j, x, y | 0 <= j < |p| && (j < n || l.base <= j) && x in p[j] && y in c[j] :: (x, y)
  }

  /** Edges to sync points that are still owed by barriers below `n` that lost all consumers. */
  ghost function Owed(l: Layout, p: IndexSets, c: IndexSets, n: nat): Edges
    requires |p| == |c|
  {
    set j, x | 0 <= j < |p| && j < n && c[j] == {} && x in p[j] && x < |l.blockOf| &&
              l.blockOf[x] < |l.syncs| && !l.IsSync(x) ::
      (x, l.syncs[l.blockOf[x]])
  }

  lemma SettledGrows(l: Layout, p: IndexSets, c: IndexSets, p': IndexSets, c': IndexSets, b: nat)
    requires |p| == |c| && |p'| == |c'| && b < l.base <= |p| && Grown(l, p, c, p', c', b)
    ensures Settled(l, p, c, b) + Owed(l, p, c, b) <= Settled(l, p', c', b + 1) + Owed(l, p', c', b + 1)
  {
  }

  lemma KeptGrows(l: Layout, p: set<nat>, c: set<nat>, g: Edges, h: Edges)
    requires Kept(l, p, c, g) && g <= h
    ensures Kept(l, p, c, h)
  {
  }

  lemma KeptBelowGrows(l: Layout, p0: IndexSets, c0: IndexSets, g: Edges, h: Edges, n: nat)
    requires n <= |p0| == |c0| && KeptBelow(l, p0, c0, g, n) && g <= h
    ensures KeptBelow(l, p0, c0, h, n)
  {
    forall b | 0 <= b < n
      ensures KeptAt(l, p0, c0, h, b)
    {
      assert KeptAt(l, p0, c0, g, b);
      KeptGrows(l, p0[b], c0[b], g, h);
    }
  }

  /** An edge inside a block survives. */
  lemma InnerKept(l: Layout, p0: set<nat>, c0: set<nat>, p: IndexSets, c: IndexSets, origin: Origin, b: nat, home: nat,
                  x: nat, y: nat)
    requires l.Ok() && Shape(l, p, c, origin) && Proper(l, p0, c0, origin) && b < l.base
    requires Rerouted(l, p0, c0, p, c, b, home)
    requires x in p0 && y in c0 && l.blockOf[x] == l.blockOf[y]
    ensures (x, y) in Settled(l, p, c, b + 1)
  {
    var i := l.blockOf[x];
    assert x in InBlock(l, p0, i) && y in InBlock(l, c0, i);
    if i == home || Untouched(l, p0, c0, p[b], c[b], home) {
      SyncOfBlock(l, y);
      assert x in p[b] && y in c[b];
    } else {
      assert BlockMoved(l, p0, c0, p, c, i);
      var j :| l.Extra() <= j < |p| && InBlock(l, p0, i) <= p[j] && InBlock(l, c0, i) <= c[j];
      assert x in p[j] && y in c[j];
    }
  }

  /** A producer without consumers in its block leads to the sync point. */
  lemma OuterKept(l: Layout, p0: set<nat>, c0: set<nat>, p: IndexSets, c: IndexSets, origin: Origin, b: nat, home: nat,
                  x: nat)
    requires l.Ok() && Shape(l, p, c, origin) && Proper(l, p0, c0, origin) && b < l.base
    requires Rerouted(l, p0, c0, p, c, b, home)
    requires x in p0 && !l.IsSync(x) && l.blockOf[x] < |l.syncs| && InBlock(l, c0, l.blockOf[x]) == {}
    ensures (x, l.syncs[l.blockOf[x]]) in Settled(l, p, c, b + 1) + Owed(l, p, c, b + 1)
  {
    var i := l.blockOf[x];
    var s := l.syncs[i];
    assert x in InBlock(l, p0, i);
    if i != home {
      assert BlockMoved(l, p0, c0, p, c, i) && WaitShape(l, p[l.Wait(i)], c[l.Wait(i)], i);
      assert x in p[l.Wait(i)] && s in c[l.Wait(i)];
    } else {
      assert x in p[b];
      assert s in c[b] || c[b] == {};
    }
  }

  /** A consumer of an earlier block follows the sync point in front of its own. */
  lemma CrossingLinked(l: Layout, p0: set<nat>, c0: set<nat>, p: IndexSets, c: IndexSets, origin: Origin, b: nat,
                       home: nat, x: nat, y: nat)
    requires l.Ok() && Shape(l, p, c, origin) && Proper(l, p0, c0, origin) && b < l.base
    requires Rerouted(l, p0, c0, p, c, b, home)
    requires x in p0 && y in c0 && l.blockOf[x] < l.blockOf[y] <= |l.syncs| && !l.IsSync(y)
    ensures (l.syncs[l.blockOf[y] - 1], y) in Settled(l, p, c, b + 1)
  {
    var i := l.blockOf[y];
    assert y in NoSync(l, InBlock(l, c0, i));
    assert i != home;
    assert BlockLinked(l, c0, c, i) && UpdateShape(l, p[l.Update(i - 1)], c[l.Update(i - 1)], i - 1);
    assert l.syncs[i - 1] in p[l.Update(i - 1)] && y in c[l.Update(i - 1)];
  }

  lemma ReroutedKept(l: Layout, p0: set<nat>, c0: set<nat>, p: IndexSets, c: IndexSets, origin: Origin, b: nat,
                     home: nat)
    requires l.Ok() && Shape(l, p, c, origin) && Proper(l, p0, c0, origin) && b < l.base
    requires Rerouted(l, p0, c0, p, c, b, home)
    ensures Kept(l, p0, c0, Settled(l, p, c, b + 1) + Owed(l, p, c, b + 1))
  {
    var g := Settled(l, p, c, b + 1) + Owed(l, p, c, b + 1);
    forall x, y | x in p0 && y in c0 && l.blockOf[x] == l.blockOf[y]
      ensures (x, y) in g
    {
      InnerKept(l, p0, c0, p, c, origin, b, home, x, y);
    }
    forall x | x in p0 && !l.IsSync(x) && InBlock(l, c0, l.blockOf[x]) == {} && l.blockOf[x] < |l.syncs|
      ensures (x, l.syncs[l.blockOf[x]]) in g
    {
      OuterKept(l, p0, c0, p, c, origin, b, home, x);
    }
    forall x, y | x in p0 && y in c0 && l.blockOf[x] < l.blockOf[y] <= |l.syncs| && !l.IsSync(y)
      ensures (l.syncs[l.blockOf[y] - 1], y) in g
    {
      CrossingLinked(l, p0, c0, p, c, origin, b, home, x, y);
    }
  }

  /** A processed barrier: its edges are local, it still has producers, and those without consumers have a sync point
      ahead of them. */
  ghost predicate Clean(l: Layout, p: set<nat>, c: set<nat>, origin: Origin)
  {
    Local(l, p, c, origin) && p != {} && forall x :: x in p ==> x < |l.blockOf| && (c == {} ==>
      l.blockOf[x] < |l.syncs|)
  }

  lemma ReroutedClean(l: Layout, p0: set<nat>, c0: set<nat>, p: IndexSets, c: IndexSets, origin: Origin, b: nat,
                      home: nat)
    requires l.Ok() && Shape(l, p, c, origin) && Proper(l, p0, c0, origin) && b < l.base
    requires Rerouted(l, p0, c0, p, c, b, home)
    ensures Clean(l, p[b], c[b], origin)
  {
    forall x, y | x in p[b] && y in c[b]
      ensures LocalEdge(l, x, y)
    {
      SyncOfBlock(l, x);
      if y !in c0 { SyncBlock(l, home); }
    }
  }

  /** The first `b` barriers have been rerouted. */
  ghost predicate Split3(l: Layout, p0: IndexSets, c0: IndexSets, p: IndexSets, c: IndexSets, origin: Origin, b: nat)
  {
    && Shape(l, p, c, origin) && |p0| == |c0| == l.base && b <= l.base
    && (forall j :: b <= j < l.base ==> p[j] == p0[j] && c[j] == c0[j])
    && (forall j {:trigger Clean(l, p[j], c[j], origin)} :: 0 <= j < b ==> Clean(l, p[j], c[j], origin))
    && KeptBelow(l, p0, c0, Settled(l, p, c, b) + Owed(l, p, c, b), b)
  }

  lemma Split3Step(l: Layout, p0: IndexSets, c0: IndexSets, p: IndexSets, c: IndexSets, p': IndexSets, c': IndexSets,
                   origin: Origin, b: nat, home: nat)
    requires l.Ok() && Split3(l, p0, c0, p, c, origin, b) && b < l.base && Proper(l, p0[b], c0[b], origin)
    requires Shape(l, p', c', origin) && Grown(l, p, c, p', c', b) && Rerouted(l, p0[b], c0[b], p', c', b, home)
    ensures Split3(l, p0, c0, p', c', origin, b + 1)
  {
    var g, g' := Settled(l, p, c, b) + Owed(l, p, c, b), Settled(l, p', c', b + 1) + Owed(l, p', c', b + 1);
    SettledGrows(l, p, c, p', c', b);
    ReroutedKept(l, p0[b], c0[b], p', c', origin, b, home);
    ReroutedClean(l, p0[b], c0[b], p', c', origin, b, home);
    KeptBelowGrows(l, p0, c0, g, g', b);
    assert KeptAt(l, p0, c0, g', b);
  }
}
