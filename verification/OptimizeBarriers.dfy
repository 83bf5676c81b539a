/** Pruning of redundant barrier producers and consumers, and merging of barriers with equal producers.
    Rows of bits are sets here, indexed by task; the offsets that shorten the bit vectors are dropped. */
module OptimizeBarriers {
  import opened TaskGraph
  import opened Barriers
  import opened FifoDependencies
  import VariantBatches

  ghost predicate InSomeRow(rows: IndexSets, picks: set<nat>, x: nat)
  {
    exists c :: c in picks && c < |rows| && x in rows[c]
  }

  method UnionRows(rows: IndexSets, start: set<nat>, picks: set<nat>) returns (r: set<nat>)
    requires forall c :: c in picks ==> c < |rows|
    ensures forall x :: x in r <==> x in start || InSomeRow(rows, picks, x)
  {
    r := start;
    var done, rest := {}, picks;
    while rest != {}
      invariant done + rest == picks
      invariant forall x :: x in r <==> x in start || InSomeRow(rows, done, x)
      decreases rest
    {
      var c :| c in rest;
      ghost var r0 := r;
      r := r + rows[c];
      forall x
        ensures x in r <==> x in start || InSomeRow(rows, done + {c}, x)
      {
        assert x in rows[c] ==> InSomeRow(rows, done + {c}, x);
        assert InSomeRow(rows, done, x) ==> InSomeRow(rows, done + {c}, x);
      }
      done, rest := done + {c}, rest - {c};
    }
    assert done == picks;
  }

  method SubtractRows(rows: IndexSets, start: set<nat>, picks: set<nat>) returns (r: set<nat>)
    requires forall c :: c in picks ==> c < |rows|
    ensures forall x :: x in r <==> x in start && !InSomeRow(rows, picks, x)
  {
    var u := UnionRows(rows, {}, picks);
    r := start - u;
  }

  /** Tasks linked to a task through the barriers `links`. */
  function Linkage(links: set<nat>, sets: IndexSets): set<nat>
    requires forall b :: b in links ==> b < |sets|
  {
    set b, c | b in links && c in sets[b] :: c
  }

  lemma SuccessorsAreEdges(bi: BarrierInfo, t: nat)
    requires bi.Valid() && t < bi.numTasks
    ensures forall c :: c in Linkage(bi.updates[t], bi.consumers) <==> (t, c) in bi.Graph()
  {
  }

  lemma PredecessorsAreEdges(bi: BarrierInfo, t: nat)
    requires bi.Valid() && t < bi.numTasks
    ensures forall p :: p in Linkage(bi.waits[t], bi.producers) <==> (p, t) in bi.Graph()
  {
  }

  //
  // Producers
  //

  /** `b` is updated by a task of the range that runs after `t`. */
  ghost predicate UpdatedLater(e: Edges, updates: IndexSets, hi: nat, t: nat, b: nat)
  {
    exists d: nat :: Reach(e, t, d) && d <= hi && d < |updates| && b in updates[d]
  }

  lemma UpdatedLaterStep(e: Edges, updates: IndexSets, hi: nat, t: nat, b: nat)
    requires Forward(e) && hi < |updates|
    ensures UpdatedLater(e, updates, hi, t, b) <==>
              exists c :: (t, c) in e && c <= hi && (b in updates[c] || UpdatedLater(e, updates, hi, c, b))
  {
    if UpdatedLater(e, updates, hi, t, b) {
      var d: nat :| Reach(e, t, d) && d <= hi && b in updates[d];
      var c := ReachFirst(e, t, d);
      if c != d { ForwardReach(e, c, d); }
    }
    if c :| (t, c) in e && c <= hi && (b in updates[c] || UpdatedLater(e, updates, hi, c, b)) {
      EdgeReach(e, t, c);
      if b !in updates[c] {
        var d: nat :| Reach(e, c, d) && d <= hi && b in updates[d];
        ReachTrans(e, t, c, d);
      }
    }
  }

  /** Row `t` holds the barriers updated by task `t` or by a later task of the range. */
  ghost predicate UpdateRows(rows: IndexSets, e: Edges, updates: IndexSets, from: nat, hi: nat)
    requires hi < |updates| == |rows|
  {
    forall t, b {:trigger b in rows[t]} :: from <= t <= hi ==>
      (b in rows[t] <==> b in updates[t] || UpdatedLater(e, updates, hi, t, b))
  }

  lemma LaterInRows(rows: IndexSets, e: Edges, updates: IndexSets, hi: nat, t: nat, children: set<nat>, b: nat)
    requires Forward(e) && hi < |updates| == |rows|
    requires UpdateRows(rows, e, updates, t + 1, hi)
    requires forall c :: c in children <==> (t, c) in e && c <= hi
    ensures InSomeRow(rows, children, b) <==> UpdatedLater(e, updates, hi, t, b)
  {
    UpdatedLaterStep(e, updates, hi, t, b);
    if UpdatedLater(e, updates, hi, t, b) {
      var c :| (t, c) in e && c <= hi && (b in updates[c] || UpdatedLater(e, updates, hi, c, b));
      assert b in rows[c];
    }
  }

  /** An edge that leaves the range `[lo, hi]`; the sync point closing the range is exempt. */
  ghost predicate LeavesRange(bi: BarrierInfo, e: Edges, lo: nat, hi: nat)
  {
    exists t, c :: (t, c) in e && lo <= t <= hi && !(t == hi && bi.IsSyncPoint(t)) && c > hi
  }

  method CollectUpdates(bi: BarrierInfo, lo: nat, hi: nat) returns (ok: bool, rows: IndexSets)
    requires bi.Valid() && Forward(bi.Graph()) && lo <= hi < bi.numTasks
    ensures |rows| == bi.numTasks
    ensures ok <==> !LeavesRange(bi, bi.Graph(), lo, hi)
    ensures ok ==> UpdateRows(rows, bi.Graph(), bi.updates, lo, hi)
  {
    rows := seq(bi.numTasks, _ => {});
    var t := hi + 1;
    while t > lo
      invariant lo <= t <= hi + 1 && |rows| == bi.numTasks
      invariant UpdateRows(rows, bi.Graph(), bi.updates, t, hi)
      invariant forall x, c :: t <= x <= hi && (x, c) in bi.Graph() && !(x == hi && bi.IsSyncPoint(x)) ==> c <= hi
    {
      t := t - 1;
      SuccessorsAreEdges(bi, t);
      var children := Linkage(bi.updates[t], bi.consumers);
      var row := bi.updates[t];
      if !(t == hi && bi.IsSyncPoint(t)) {
        if exists c :: c in children && !(lo <= c <= hi) {
          return false, rows;
        }
        row := UnionRows(rows, row, children);
      }
      forall b
        ensures b in row <==> b in bi.updates[t] || UpdatedLater(bi.Graph(), bi.updates, hi, t, b)
      {
        LaterInRows(rows, bi.Graph(), bi.updates, hi, t, (set c | c in children && c <= hi), b);
      }
      rows := rows[t := row];
    }
    ok := true;
  }

  /** What is left of the update barriers of task `t`. */
  ghost predicate StillUpdates(e: Edges, updates: IndexSets, hi: nat, t: nat, b: nat)
    requires t < |updates|
  {
    b in updates[t] && !UpdatedLater(e, updates, hi, t, b)
  }

  /** The tasks of `[lo, hi]` below `upto` only update barriers that no later task of the range updates. */
  ghost predicate ProducersPruned(updates: IndexSets, updates0: IndexSets, e: Edges, lo: nat, hi: nat, upto: nat)
    requires |updates| == |updates0|
  {
    && (forall t :: 0 <= t < |updates| && !(lo <= t <= hi && t < upto) ==> updates[t] == updates0[t])
    && (forall t, b {:trigger b in updates[t]} :: lo <= t <= hi && t < upto && t < |updates| ==>
          (b in updates[t] <==> StillUpdates(e, updates0, hi, t, b)))
  }

  method OptimizeProducers(bi: BarrierInfo, lo: nat, hi: nat) returns (ok: bool)
    requires bi.Valid() && Forward(bi.Graph()) && lo <= hi < bi.numTasks
    modifies bi`producers, bi`updates
    ensures bi.Valid() && |bi.producers| == |old(bi.producers)|
    ensures ok <==> !LeavesRange(bi, old(bi.Graph()), lo, hi)
    ensures ok ==> ProducersPruned(bi.updates, old(bi.updates), old(bi.Graph()), lo, hi, bi.numTasks)
    ensures !ok ==> bi.producers == old(bi.producers)
  {
    var rows;
    ok, rows := CollectUpdates(bi, lo, hi);
    if !ok {
      return;
    }
    ghost var e, u := bi.Graph(), bi.updates;
    var t := lo;
    while t <= hi
      invariant lo <= t <= hi + 1
      invariant bi.Valid() && |bi.producers| == |old(bi.producers)|
      invariant ProducersPruned(bi.updates, u, e, lo, hi, t)
    {
      var children := set c | c in Linkage(bi.updates[t], bi.consumers) && lo <= c <= hi;
      var row := SubtractRows(rows, rows[t], children);
      forall b
        ensures b in row <==> StillUpdates(e, u, hi, t, b)
      {
        LaterInRows(rows, e, u, hi, t, children, b);
      }
      bi.SetUpdateBarriers(t, row);
      t := t + 1;
    }
  }

  /** Producer pruning loses no order: each removed edge is bypassed by the later task that keeps the barrier. */
  lemma ProducersPrunedOrder(p: IndexSets, p0: IndexSets, c: IndexSets, u: IndexSets, u0: IndexSets, lo: nat, hi: nat,
                             n: nat)
    requires |p| == |p0| == |c| && |u| == |u0| == n
    requires Inverse(u, p) && Inverse(u0, p0) && Forward(BarrierEdges(p0, c))
    requires ProducersPruned(u, u0, BarrierEdges(p0, c), lo, hi, n)
    ensures BarrierEdges(p, c) <= BarrierEdges(p0, c)
    ensures SameOrder(BarrierEdges(p0, c), BarrierEdges(p, c))
  {
    var e, f := BarrierEdges(p0, c), BarrierEdges(p, c);
    forall x | x in f
      ensures x in e
    {
      var b :| 0 <= b < |p| && x.0 in p[b] && x.1 in c[b];
      assert b in u[x.0];
      assert b in u0[x.0];
    }
    forall x, y | (x, y) in e && (x, y) !in f
      ensures Bypassed(e, x, y)
    {
      var b :| 0 <= b < |p0| && x in p0[b] && y in c[b];
      assert b in u0[x] && b !in u[x];
      var d: nat :| Reach(e, x, d) && d <= hi && d < n && b in u0[d];
      assert (d, y) in e;
      EdgeReach(e, d, y);
    }
    PruneKeepsOrder(e, f);
    SubsetKeepsOrder(f, e);
  }

  //
  // Consumers
  //

  /** `b` is waited for by a task of the range that runs before `t`. */
  ghost predicate WaitedEarlier(e: Edges, waits: IndexSets, lo: nat, t: nat, b: nat)
  {
    exists d: nat :: Reach(e, d, t) && lo <= d < |waits| && b in waits[d]
  }

  lemma WaitedEarlierStep(e: Edges, waits: IndexSets, lo: nat, t: nat, b: nat)
    requires Forward(e) && t < |waits|
    ensures WaitedEarlier(e, waits, lo, t, b) <==>
              exists c :: (c, t) in e && lo <= c < |waits| && (b in waits[c] || WaitedEarlier(e, waits, lo, c, b))
  {
    if WaitedEarlier(e, waits, lo, t, b) {
      var d: nat :| Reach(e, d, t) && lo <= d < |waits| && b in waits[d];
      var c := ReachLast(e, d, t);
      if c != d { ForwardReach(e, d, c); }
    }
    if c :| (c, t) in e && lo <= c < |waits| && (b in waits[c] || WaitedEarlier(e, waits, lo, c, b)) {
      EdgeReach(e, c, t);
      if b !in waits[c] {
        var d: nat :| Reach(e, d, c) && lo <= d < |waits| && b in waits[d];
        ReachTrans(e, d, c, t);
      }
    }
  }

  /** Row `t` holds the barriers that task `t` or an earlier task of the range waits for. */
  ghost predicate WaitRows(rows: IndexSets, e: Edges, waits: IndexSets, lo: nat, to: nat)
    requires to <= |waits| == |rows|
  {
    forall t, b {:trigger b in rows[t]} :: lo <= t < to ==>
      (b in rows[t] <==> b in waits[t] || WaitedEarlier(e, waits, lo, t, b))
  }

  lemma EarlierInRows(rows: IndexSets, e: Edges, waits: IndexSets, lo: nat, t: nat, parents: set<nat>, b: nat)
    requires Forward(e) && t < |waits| == |rows|
    requires WaitRows(rows, e, waits, lo, t)
    requires forall c :: c in parents <==> (c, t) in e && lo <= c
    ensures InSomeRow(rows, parents, b) <==> WaitedEarlier(e, waits, lo, t, b)
  {
    WaitedEarlierStep(e, waits, lo, t, b);
    if WaitedEarlier(e, waits, lo, t, b) {
      var c :| (c, t) in e && lo <= c < |waits| && (b in waits[c] || WaitedEarlier(e, waits, lo, c, b));
      assert b in rows[c];
    }
  }

  /** An edge that enters the range `[lo, hi]`; the sync point opening the range is exempt. */
  ghost predicate EntersRange(bi: BarrierInfo, e: Edges, lo: nat, hi: nat)
  {
    exists p, t :: (p, t) in e && lo <= t <= hi && !(t == lo && bi.IsSyncPoint(t)) && p < lo
  }

  method CollectWaits(bi: BarrierInfo, lo: nat, hi: nat) returns (ok: bool, rows: IndexSets)
    requires bi.Valid() && Forward(bi.Graph()) && lo <= hi < bi.numTasks
    ensures |rows| == bi.numTasks
    ensures ok <==> !EntersRange(bi, bi.Graph(), lo, hi)
    ensures ok ==> WaitRows(rows, bi.Graph(), bi.waits, lo, hi + 1)
  {
    rows := seq(bi.numTasks, _ => {});
    var t := lo;
    while t <= hi
      invariant lo <= t <= hi + 1 && |rows| == bi.numTasks
      invariant WaitRows(rows, bi.Graph(), bi.waits, lo, t)
      invariant forall p, x :: lo <= x < t && (p, x) in bi.Graph() && !(x == lo && bi.IsSyncPoint(x)) ==> lo <= p
    {
      PredecessorsAreEdges(bi, t);
      var parents := Linkage(bi.waits[t], bi.producers);
      var row := bi.waits[t];
      if !(t == lo && bi.IsSyncPoint(t)) {
        if exists p :: p in parents && !(lo <= p <= hi) {
          return false, rows;
        }
        row := UnionRows(rows, row, parents);
      }
      forall b
        ensures b in row <==> b in bi.waits[t] || WaitedEarlier(bi.Graph(), bi.waits, lo, t, b)
      {
        EarlierInRows(rows, bi.Graph(), bi.waits, lo, t, (set p | p in parents && lo <= p), b);
      }
      rows := rows[t := row];
      t := t + 1;
    }
    ok := true;
  }

  ghost predicate StillWaits(e: Edges, waits: IndexSets, lo: nat, t: nat, b: nat)
    requires t < |waits|
  {
    b in waits[t] && !WaitedEarlier(e, waits, lo, t, b)
  }

  /** The tasks of `[lo, hi]` from `from` on only wait for barriers that no earlier task of the range waits for. */
  ghost predicate ConsumersPruned(waits: IndexSets, waits0: IndexSets, e: Edges, lo: nat, hi: nat, from: nat)
    requires |waits| == |waits0|
  {
    && (forall t :: 0 <= t < |waits| && !(lo <= t <= hi && from <= t) ==> waits[t] == waits0[t])
    && (forall t, b {:trigger b in waits[t]} :: lo <= t <= hi && from <= t < |waits| ==>
          (b in waits[t] <==> StillWaits(e, waits0, lo, t, b)))
  }

  method OptimizeConsumers(bi: BarrierInfo, lo: nat, hi: nat) returns (ok: bool)
    requires bi.Valid() && Forward(bi.Graph()) && lo <= hi < bi.numTasks
    modifies bi`consumers, bi`waits
    ensures bi.Valid() && |bi.consumers| == |old(bi.consumers)|
    ensures ok <==> !EntersRange(bi, old(bi.Graph()), lo, hi)
    ensures ok ==> ConsumersPruned(bi.waits, old(bi.waits), old(bi.Graph()), lo, hi, 0)
    ensures !ok ==> bi.consumers == old(bi.consumers)
  {
    var rows;
    ok, rows := CollectWaits(bi, lo, hi);
    if !ok {
      return;
    }
    ghost var e, w := bi.Graph(), bi.waits;
    var t := hi + 1;
    while t > lo
      invariant lo <= t <= hi + 1
      invariant bi.Valid() && |bi.consumers| == |old(bi.consumers)|
      invariant ConsumersPruned(bi.waits, w, e, lo, hi, t)
    {
      t := t - 1;
      var parents := set p | p in Linkage(bi.waits[t], bi.producers) && lo <= p <= hi;
      var row := SubtractRows(rows, rows[t], parents);
      forall b
        ensures b in row <==> StillWaits(e, w, lo, t, b)
      {
        EarlierInRows(rows, e, w, lo, t, parents, b);
      }
      bi.SetWaitBarriers(t, row);
    }
  }

  /** Consumer pruning loses no order: each removed edge is bypassed by the earlier task that keeps the barrier. */
  lemma ConsumersPrunedOrder(p: IndexSets, c: IndexSets, c0: IndexSets, w: IndexSets, w0: IndexSets, lo: nat, hi: nat,
                             n: nat)
    requires |p| == |c0| == |c| && |w| == |w0| == n
    requires Inverse(w, c) && Inverse(w0, c0) && Forward(BarrierEdges(p, c0))
    requires ConsumersPruned(w, w0, BarrierEdges(p, c0), lo, hi, 0)
    ensures BarrierEdges(p, c) <= BarrierEdges(p, c0)
    ensures SameOrder(BarrierEdges(p, c0), BarrierEdges(p, c))
  {
    var e, f := BarrierEdges(p, c0), BarrierEdges(p, c);
    forall x | x in f
      ensures x in e
    {
      var b :| 0 <= b < |p| && x.0 in p[b] && x.1 in c[b];
      assert b in w[x.1];
      assert b in w0[x.1];
    }
    forall x, y | (x, y) in e && (x, y) !in f
      ensures Bypassed(e, x, y)
    {
      var b :| 0 <= b < |p| && x in p[b] && y in c0[b];
      assert b in w0[y] && b !in w[y];
      var d: nat :| Reach(e, d, y) && lo <= d < n && b in w0[d];
      assert (x, d) in e;
      EdgeReach(e, x, d);
    }
    PruneKeepsOrder(e, f);
    SubsetKeepsOrder(f, e);
  }

  //
  // Barriers with the same producers
  //

  /** Some task of `from..last` is linked to barrier `b`. */
  ghost predicate UsedBy(links: IndexSets, from: nat, last: int, b: nat)
    requires last < |links|
  {
    exists t :: from <= t <= last && b in links[t]
  }

  /** `getBarriersForTaskBlock`: the barriers updated or waited for by the tasks `from..last`, ascending. */
  method BarriersOf(links: IndexSets, from: nat, last: int, count: nat) returns (bars: seq<nat>)
    requires last < |links| && forall t, b {:trigger b in links[t]} :: 0 <= t < |links| && b in links[t] ==> b < count
    ensures forall i :: 0 <= i < |bars| ==> bars[i] < count
    ensures forall b :: b in bars <==> UsedBy(links, from, last, b)
    ensures forall i, j :: 0 <= i < j < |bars| ==> bars[i] < bars[j]
  {
    var mask: set<nat> := {};
    var t := from;
    while t <= last
      invariant from <= t && (t <= last + 1 || t == from)
      invariant forall b :: b in mask <==> exists x :: from <= x <= last && x < t && b in links[x]
    {
      mask := mask + links[t];
      t := t + 1;
    }
    bars := [];
    var b := 0;
    while b < count
      invariant 0 <= b <= count
      invariant forall i :: 0 <= i < |bars| ==> bars[i] < b && bars[i] in mask
      invariant forall x :: x in mask && x < b ==> x in bars
      invariant forall i, j :: 0 <= i < j < |bars| ==> bars[i] < bars[j]
    {
      if b in mask {
        bars := bars + [b];
      }
      b := b + 1;
    }
  }

  ghost predicate Enumerates(v: seq<nat>, s: set<nat>)
  {
    && (forall i :: 0 <= i < |v| ==> v[i] in s)
    && (forall x :: x in s ==> x in v) && Distinct(v)
  }

  /** Copies a set to a vector, in whatever order the set is iterated. */
  method ToVector(s: set<nat>) returns (v: seq<nat>)
    ensures Enumerates(v, s)
  {
    v := [];
    var rest := s;
    while rest != {}
      invariant rest <= s && Enumerates(v, s - rest)
      decreases rest
    {
      var x :| x in rest;
      v := v + [x];
      rest := rest - {x};
    }
    assert s - rest == s;
  }

  lemma SameVectorSameSet(v: seq<nat>, s: set<nat>, t: set<nat>)
    requires Enumerates(v, s) && Enumerates(v, t)
    ensures s == t
  {
  }

  method CopyProducers(producers: IndexSets, bars: seq<nat>) returns (copies: seq<seq<nat>>)
    requires forall i :: 0 <= i < |bars| ==> bars[i] < |producers|
    ensures |copies| == |bars| && forall i :: 0 <= i < |bars| ==> Enumerates(copies[i], producers[bars[i]])
  {
    copies := [];
    while |copies| < |bars|
      invariant |copies| <= |bars|
      invariant forall i :: 0 <= i < |copies| ==> Enumerates(copies[i], producers[bars[i]])
    {
      var v := ToVector(producers[bars[|copies|]]);
      copies := copies + [v];
    }
  }

  /** Barrier `y` after its consumers moved to barrier `x`. */
  ghost predicate Merged(p: IndexSets, c: IndexSets, p0: IndexSets, c0: IndexSets, x: nat, y: nat)
  {
    && |p| == |c| == |p0| == |c0| && x < y < |p0| && p0[x] == p0[y]
    && p == p0[y := {}] && c == c0[x := c0[x] + c0[y]][y := {}]
  }

  /** Merging barriers with equal producers does not change the task graph at all. */
  lemma MergeKeepsGraph(p: IndexSets, c: IndexSets, p0: IndexSets, c0: IndexSets, x: nat, y: nat)
    requires Merged(p, c, p0, c0, x, y)
    ensures BarrierEdges(p, c) == BarrierEdges(p0, c0)
  {
    var e, e0 := BarrierEdges(p, c), BarrierEdges(p0, c0);
    forall z | z in e
      ensures z in e0
    {
      var b :| 0 <= b < |p| && z.0 in p[b] && z.1 in c[b];
      if b == x && z.1 in c0[y] {
        assert z.0 in p0[y];
      } else {
        assert z.0 in p0[b] && z.1 in c0[b];
      }
    }
    forall z | z in e0
      ensures z in e
    {
      var b :| 0 <= b < |p| && z.0 in p0[b] && z.1 in c0[b];
      var b' := if b == y then x else b;
      assert z.0 in p[b'] && z.1 in c[b'];
    }
  }

  /** Merging leaves every temporary barrier untouched or empties it. */
  lemma MergeKeepsDeps(p: IndexSets, c: IndexSets, p0: IndexSets, c0: IndexSets, x: nat, y: nat, opCount: nat,
                       deps: seq<FifoDep>)
    requires Merged(p, c, p0, c0, x, y) && |p0| == opCount + |deps|
    requires DepsIntact(p0, c0, opCount, deps)
    ensures DepsIntact(p, c, opCount, deps)
  {
    forall i | 0 <= i < |deps|
      ensures DepIntact(p, c, deps[i])
    {
      var d := deps[i];
      assert DepIntact(p0, c0, d);
      if d.barrier == x {
        assert DepIntact(p0, c0, deps[y - opCount]);
        assert p0[x] == {};
      }
    }
  }

  method MergePair(bi: BarrierInfo, x: nat, y: nat)
    requires bi.Valid() && x < y < |bi.producers| && bi.producers[x] == bi.producers[y]
    modifies bi`producers, bi`consumers, bi`updates, bi`waits
    ensures bi.Valid() && Merged(bi.producers, bi.consumers, old(bi.producers), old(bi.consumers), x, y)
  {
    bi.AddConsumers(x, bi.consumers[y]);
    bi.ResetBarrier(y);
  }

  /** A barrier that gained consumers uses at most `limit` slots. */
  ghost predicate LimitKept(bi: BarrierInfo, p: IndexSets, c: IndexSets, c0: IndexSets, limit: nat)
    requires bi.ValidConfig() && |p| == |c| == |c0|
  {
    forall b :: 0 <= b < |c| ==>
      c[b] == c0[b] || c[b] == {} ||
      SlotSum(bi.slots, p[b], bi.numTasks) + SlotSum(bi.slots, c[b], bi.numTasks) <= limit
  }

  ghost predicate Shrunk(p: IndexSets, p0: IndexSets)
  {
    |p| == |p0| && forall b :: 0 <= b < |p| ==> p[b] <= p0[b]
  }

  ghost predicate KeptOrEmptied(p: IndexSets, p0: IndexSets)
  {
    |p| == |p0| && forall b :: 0 <= b < |p| ==> p[b] == p0[b] || p[b] == {}
  }

  /** A barrier gains only consumers that depend on some task from `start` on. */
  ghost predicate LaterConsumers(c: IndexSets, c0: IndexSets, g: Edges, start: nat)
  {
    |c| == |c0| && forall b, y {:trigger y in c[b]} :: 0 <= b < |c| && y in c[b] ==>
      y in c0[b] || FollowsSome(g, start, y)
  }

  ghost predicate FollowsSome(g: Edges, start: nat, y: nat)
  {
    exists t :: start <= t && (t, y) in g
  }

  /** Every listed barrier has a producer from `start` on. */
  ghost predicate StartsAt(p: IndexSets, bars: seq<nat>, start: nat)
  {
    forall i :: 0 <= i < |bars| ==> bars[i] < |p| && exists t :: t in p[bars[i]] && start <= t
  }

  lemma MergeKeepsLater(p: IndexSets, c: IndexSets, p1: IndexSets, c1: IndexSets, c0: IndexSets, x: nat, y: nat,
                        start: nat)
    requires |p1| == |c1| && x < y < |p1| && Merged(p, c, p1, c1, x, y)
    requires LaterConsumers(c1, c0, BarrierEdges(p1, c1), start)
    requires c1[y] != {} ==> exists t :: t in p1[y] && start <= t
    ensures LaterConsumers(c, c0, BarrierEdges(p1, c1), start)
  {
    var g := BarrierEdges(p1, c1);
    forall b, z | 0 <= b < |c| && z in c[b]
      ensures z in c0[b] || FollowsSome(g, start, z)
    {
      if z in c1[b] {
      } else {
        assert z in c1[y];
        var t :| t in p1[y] && start <= t;
        assert (t, z) in g;
      }
    }
  }

  /** Progress of the pairwise merge: `vecs` are the copied producer lists, emptied for barriers merged away. */
  ghost predicate MergeState(p: IndexSets, c: IndexSets, p0: IndexSets, bars: seq<nat>, copies: seq<seq<nat>>,
                             vecs: seq<seq<nat>>)
  {
    && |p| == |c| == |p0| && |vecs| == |copies| == |bars|
    && (forall i :: 0 <= i < |bars| ==> bars[i] < |p|)
    && (forall i :: 0 <= i < |bars| ==>
          || (vecs[i] == copies[i] && p[bars[i]] == p0[bars[i]])
          || (vecs[i] == [] && p[bars[i]] == {} && c[bars[i]] == {} && exists k ::
            0 <= k < i && copies[k] == copies[i]))
  }

  /** Of two barriers with equal producers the second one is gone, or merging them would exceed the limit. */
  ghost predicate PairDone(bi: BarrierInfo, p: IndexSets, c: IndexSets, x: nat, y: nat, check: bool, limit: nat)
    requires bi.ValidConfig() && x < |p| == |c| && y < |p|
  {
    || p[y] == {}
    || (check && (p[x] == {}
                  || SlotSum(bi.slots, p[x], bi.numTasks) + SlotSum(bi.slots, c[x] + c[y], bi.numTasks) > limit))
  }

  /** This holds for every pair of equal copies seen so far. */
  ghost predicate PairsDone(bi: BarrierInfo, p: IndexSets, c: IndexSets, bars: seq<nat>, copies: seq<seq<nat>>,
                            ind1: nat, ind2: nat, check: bool, limit: nat)
    requires bi.ValidConfig() && |p| == |c| && |copies| == |bars| && forall i :: 0 <= i < |bars| ==> bars[i] < |p|
  {
    forall i, j :: 0 <= i < j < |bars| && (i < ind1 || (i == ind1 && j < ind2)) && copies[i] == copies[j] ==>
      PairDone(bi, p, c, bars[i], bars[j], check, limit)
  }

  lemma MergeKeepsPairs(bi: BarrierInfo, p: IndexSets, c: IndexSets, p1: IndexSets, c1: IndexSets, x: nat, y: nat,
                        bars: seq<nat>, copies: seq<seq<nat>>, ind1: nat, ind2: nat, check: bool, limit: nat)
    requires bi.ValidConfig() && |p1| == |c1| && x < y < |p1| && Merged(p, c, p1, c1, x, y)
    requires |copies| == |bars| && forall i :: 0 <= i < |bars| ==> bars[i] < |p1|
    requires PairsDone(bi, p1, c1, bars, copies, ind1, ind2, check, limit)
    ensures PairsDone(bi, p, c, bars, copies, ind1, ind2, check, limit)
  {
    forall i, j | 0 <= i < j < |bars| && (i < ind1 || (i == ind1 && j < ind2)) && copies[i] == copies[j]
      ensures PairDone(bi, p, c, bars[i], bars[j], check, limit)
    {
      assert PairDone(bi, p1, c1, bars[i], bars[j], check, limit);
      if bars[i] != y && bars[j] != y {
        VariantBatches.SlotSumMono(bi.slots, c1[bars[i]] + c1[bars[j]], c[bars[i]] + c[bars[j]], bi.numTasks);
      }
    }
  }

  lemma MergeKeepsState(p: IndexSets, c: IndexSets, p1: IndexSets, c1: IndexSets, p0: IndexSets, bars: seq<nat>,
                        copies: seq<seq<nat>>, vecs: seq<seq<nat>>, ind1: nat, ind2: nat)
    requires MergeState(p1, c1, p0, bars, copies, vecs) && ind1 < ind2 < |bars| && vecs[ind1] == vecs[ind2]
    requires forall i, j :: 0 <= i < j < |bars| ==> bars[i] < bars[j]
    requires forall i :: 0 <= i < |copies| ==> copies[i] != []
    requires bars[ind1] < bars[ind2] && Merged(p, c, p1, c1, bars[ind1], bars[ind2])
    ensures MergeState(p, c, p0, bars, copies, vecs[ind2 := []]) && Shrunk(p, p1)
  {
    assert vecs[ind1] == [] ==> c1[bars[ind1]] + c1[bars[ind2]] == {};
  }

  lemma MergeKeepsLimit(bi: BarrierInfo, p: IndexSets, c: IndexSets, p1: IndexSets, c1: IndexSets, c0: IndexSets,
                        x: nat, y: nat, limit: nat)
    requires bi.ValidConfig() && |p1| == |c1| == |c0| && x < y < |p1| && Merged(p, c, p1, c1, x, y)
    requires LimitKept(bi, p1, c1, c0, limit)
    requires SlotSum(bi.slots, p1[x], bi.numTasks) + SlotSum(bi.slots, c1[x] + c1[y], bi.numTasks) <= limit
    ensures LimitKept(bi, p, c, c0, limit)
  {
  }

  /** All that holds between two steps of the pairwise merge. */
  ghost predicate Merging(bi: BarrierInfo, bars: seq<nat>, copies: seq<seq<nat>>, vecs: seq<seq<nat>>, p0: IndexSets,
                          c0: IndexSets, g0: Edges, start: nat, check: bool, limit: nat)
    reads bi
  {
    && bi.Valid() && bi.Graph() == g0 && |c0| == |bi.consumers| && KeptOrEmptied(bi.producers, p0)
    && MergeState(bi.producers, bi.consumers, p0, bars, copies, vecs)
    && DepsIntact(bi.producers, bi.consumers, bi.opCount, bi.fifoDeps)
    && (check ==> LimitKept(bi, bi.producers, bi.consumers, c0, limit))
    && LaterConsumers(bi.consumers, c0, g0, start)
  }

  ghost predicate GoodBars(bars: seq<nat>, copies: seq<seq<nat>>, p0: IndexSets, start: nat)
  {
    && |copies| == |bars| && StartsAt(p0, bars, start)
    && (forall i, j :: 0 <= i < j < |bars| ==> bars[i] < bars[j])
    && forall i :: 0 <= i < |bars| ==> copies[i] != [] && Enumerates(copies[i], p0[bars[i]])
  }

  method MergeInto(bi: BarrierInfo, bars: seq<nat>, ind1: nat, ind2: nat, ghost check: bool, ghost limit: nat,
                   ghost p0: IndexSets, ghost c0: IndexSets, ghost g0: Edges, ghost copies: seq<seq<nat>>,
                   vecs: seq<seq<nat>>, ghost start: nat) returns (vecs': seq<seq<nat>>)
    requires ind1 < ind2 < |bars| && GoodBars(bars, copies, p0, start)
    requires Merging(bi, bars, copies, vecs, p0, c0, g0, start, check, limit) && vecs[ind1] == vecs[ind2]
    requires bi.producers[bars[ind1]] == bi.producers[bars[ind2]]
    requires PairsDone(bi, bi.producers, bi.consumers, bars, copies, ind1, ind2, check, limit)
    requires check ==> SlotSum(bi.slots, bi.producers[bars[ind1]], bi.numTasks)
                       + SlotSum(bi.slots, bi.consumers[bars[ind1]] + bi.consumers[bars[ind2]], bi.numTasks) <= limit
    modifies bi`producers, bi`consumers, bi`updates, bi`waits
    ensures Merging(bi, bars, copies, vecs', p0, c0, g0, start, check, limit) && bi.producers[bars[ind2]] == {}
    ensures PairsDone(bi, bi.producers, bi.consumers, bars, copies, ind1, ind2, check, limit)
  {
    var x, y := bars[ind1], bars[ind2];
    ghost var p1, c1 := bi.producers, bi.consumers;
    MergePair(bi, x, y);
    MergeKeepsGraph(bi.producers, bi.consumers, p1, c1, x, y);
    MergeKeepsDeps(bi.producers, bi.consumers, p1, c1, x, y, bi.opCount, bi.fifoDeps);
    MergeKeepsLater(bi.producers, bi.consumers, p1, c1, c0, x, y, start);
    MergeKeepsState(bi.producers, bi.consumers, p1, c1, p0, bars, copies, vecs, ind1, ind2);
    MergeKeepsPairs(bi, bi.producers, bi.consumers, p1, c1, x, y, bars, copies, ind1, ind2, check, limit);
    if check {
      MergeKeepsLimit(bi, bi.producers, bi.consumers, p1, c1, c0, x, y, limit);
    }
    vecs' := vecs[ind2 := []];
  }

  /** A pair that is left alone is done. */
  lemma PairLeft(bi: BarrierInfo, p: IndexSets, c: IndexSets, p0: IndexSets, bars: seq<nat>, copies: seq<seq<nat>>,
                 vecs: seq<seq<nat>>, ind1: nat, ind2: nat, check: bool, limit: nat)
    requires bi.ValidConfig() && ind1 < ind2 < |bars| && MergeState(p, c, p0, bars, copies, vecs)
    requires PairsDone(bi, p, c, bars, copies, ind1, ind2, check, limit) && copies[ind2] != []
    requires vecs[ind1] != vecs[ind2] || PairDone(bi, p, c, bars[ind1], bars[ind2], check, limit)
    ensures PairsDone(bi, p, c, bars, copies, ind1, ind2 + 1, check, limit)
  {
    if copies[ind1] == copies[ind2] && vecs[ind1] != vecs[ind2] && vecs[ind2] != [] {
      assert vecs[ind1] == [];
      var k :| 0 <= k < ind1 && copies[k] == copies[ind1];
      assert PairDone(bi, p, c, bars[k], bars[ind2], check, limit);
    }
  }

  method MergeIfEqual(bi: BarrierInfo, bars: seq<nat>, ind1: nat, ind2: nat, check: bool, limit: nat,
                      ghost p0: IndexSets, ghost c0: IndexSets, ghost g0: Edges, ghost copies: seq<seq<nat>>,
                      vecs: seq<seq<nat>>, ghost start: nat)
    returns (vecs': seq<seq<nat>>)
    requires ind1 < ind2 < |bars| && GoodBars(bars, copies, p0, start)
    requires Merging(bi, bars, copies, vecs, p0, c0, g0, start, check, limit)
    requires PairsDone(bi, bi.producers, bi.consumers, bars, copies, ind1, ind2, check, limit)
    modifies bi`producers, bi`consumers, bi`updates, bi`waits
    ensures Merging(bi, bars, copies, vecs', p0, c0, g0, start, check, limit)
    ensures PairsDone(bi, bi.producers, bi.consumers, bars, copies, ind1, ind2 + 1, check, limit)
  {
    vecs' := vecs;
    var x, y := bars[ind1], bars[ind2];
    if vecs[ind1] == vecs[ind2] {
      assert bi.producers[x] == bi.producers[y] by {
        if vecs[ind1] != [] { SameVectorSameSet(copies[ind1], p0[x], p0[y]); }
      }
      var slotCount := SlotSum(bi.slots, bi.producers[x], bi.numTasks)
                       + SlotSum(bi.slots, bi.consumers[x] + bi.consumers[y], bi.numTasks);
      if !check || slotCount <= limit {
        vecs' := MergeInto(bi, bars, ind1, ind2, check, limit, p0, c0, g0, copies, vecs, start);
      }
    }
    PairLeft(bi, bi.producers, bi.consumers, p0, bars, copies, vecs', ind1, ind2, check, limit);
  }

  method OptimizeSameProducers(bi: BarrierInfo, from: nat, last: int, check: bool, limit: nat)
    returns (bars: seq<nat>, copies: seq<seq<nat>>)
    requires bi.Valid() && last < bi.numTasks
    requires DepsIntact(bi.producers, bi.consumers, bi.opCount, bi.fifoDeps)
    modifies bi`producers, bi`consumers, bi`updates, bi`waits
    ensures bi.Valid() && bi.Graph() == old(bi.Graph()) && KeptOrEmptied(bi.producers, old(bi.producers))
    ensures DepsIntact(bi.producers, bi.consumers, bi.opCount, bi.fifoDeps)
    // every barrier of the block was considered, with a copy of its producers
    ensures forall b :: UsedBy(old(bi.updates), from, last, b) ==> b in bars
    ensures |copies| == |bars| && forall i :: 0 <= i < |bars| ==> bars[i] < |bi.producers|
    ensures forall i, j :: 0 <= i < j < |bars| ==> bars[i] < bars[j]
    ensures forall i :: 0 <= i < |bars| ==> Enumerates(copies[i], old(bi.producers)[bars[i]])
    // of barriers with equal copies only the first one is left, up to merges that would exceed the limit
    ensures PairsDone(bi, bi.producers, bi.consumers, bars, copies, |bars|, 0, check, limit)
    ensures check ==> LimitKept(bi, bi.producers, bi.consumers, old(bi.consumers), limit)
    ensures LaterConsumers(bi.consumers, old(bi.consumers), bi.Graph(), from)
  {
    bars := BarriersOf(bi.updates, from, last, |bi.producers|);
    ghost var p0, c0, g0 := bi.producers, bi.consumers, bi.Graph();
    copies := CopyProducers(bi.producers, bars);
    forall i | 0 <= i < |bars|
      ensures copies[i] != [] && exists t :: t in p0[bars[i]] && from <= t
    {
      assert UsedBy(bi.updates, from, last, bars[i]);
      var t :| from <= t <= last && bars[i] in bi.updates[t];
      assert t in p0[bars[i]] && t in copies[i];
    }
    var vecs := copies;
    assert GoodBars(bars, copies, p0, from);
    assert Merging(bi, bars, copies, vecs, p0, c0, g0, from, check, limit);
    var ind1 := 0;
    while ind1 < |bars|
      invariant ind1 <= |bars| && Merging(bi, bars, copies, vecs, p0, c0, g0, from, check, limit)
      invariant PairsDone(bi, bi.producers, bi.consumers, bars, copies, ind1, 0, check, limit)
    {
      var ind2 := ind1 + 1;
      while ind2 < |bars|
        invariant ind1 < ind2 <= |bars| && Merging(bi, bars, copies, vecs, p0, c0, g0, from, check, limit)
        invariant PairsDone(bi, bi.producers, bi.consumers, bars, copies, ind1, ind2, check, limit)
      {
        vecs := MergeIfEqual(bi, bars, ind1, ind2, check, limit, p0, c0, g0, copies, vecs, from);
        ind2 := ind2 + 1;
      }
      ind1 := ind1 + 1;
    }
  }

  //
  // What the merge leaves behind
  //

  /** A barrier with consumers that some task of `lo..last` updates. */
  ghost predicate UsedIn(p: set<nat>, c: set<nat>, lo: nat, last: int)
  {
    c != {} && exists t :: t in p && lo <= t <= last
  }

  /** `order` lists the producers of the barriers in use in the order in which their sets were iterated. Two of them
      with the same list are only left if their joint consumers `c0` before the last pruning exceed the limit; these
      are direct successors of the producers in the graph `e`. */
  ghost predicate MergedAs(bi: BarrierInfo, lo: nat, last: int, p: IndexSets, c: IndexSets, order: seq<seq<nat>>,
                           c0: IndexSets, check: bool, limit: nat, e: Edges)
    requires bi.ValidConfig()
  {
    && |p| == |c| == |order| == |c0|
    && (forall b :: 0 <= b < |p| && UsedIn(p[b], c[b], lo, last) ==> Enumerates(order[b], p[b]) && c[b] <= c0[b])
    && (forall b, t, z :: 0 <= b < |p| && UsedIn(p[b], c[b], lo, last) && t in p[b] && z in c0[b] ==> (t, z) in e)
    && forall x, y :: 0 <= x < y < |p| && UsedIn(p[x], c[x], lo, last) && UsedIn(p[y], c[y], lo, last) &&
                      order[x] == order[y] ==>
         check && SlotSum(bi.slots, p[x], bi.numTasks) + SlotSum(bi.slots, c0[x] + c0[y], bi.numTasks) > limit
  }

  ghost predicate BlockMerged(bi: BarrierInfo, k: nat, p: IndexSets, c: IndexSets, check: bool, limit: nat, e: Edges)
    requires bi.ValidConfig() && k < bi.BlockCount()
  {
    exists order, c0 :: MergedAs(bi, bi.BlockLo(k), bi.BlockLast(k), p, c, order, c0, check, limit, e)
  }

  /** The copy of the producers of barrier `b`, if it is in the list. */
  ghost function CopyOf(bars: seq<nat>, copies: seq<seq<nat>>, b: nat): seq<nat>
    requires |copies| == |bars|
  {
    if exists i :: 0 <= i < |bars| && bars[i] == b then
      var i :| 0 <= i < |bars| && bars[i] == b;
      copies[i]
    else []
  }

  lemma CopyAt(bars: seq<nat>, copies: seq<seq<nat>>, i: nat)
    requires |copies| == |bars| && i < |bars| && forall i, j :: 0 <= i < j < |bars| ==> bars[i] < bars[j]
    ensures CopyOf(bars, copies, bars[i]) == copies[i]
  {
  }

  lemma IsMerged(bi: BarrierInfo, lo: nat, last: int, p0: IndexSets, u0: IndexSets, p: IndexSets, c: IndexSets,
                 bars: seq<nat>, copies: seq<seq<nat>>, check: bool, limit: nat, e: Edges)
    returns (order: seq<seq<nat>>)
    requires bi.ValidConfig() && |p| == |c| && last < |u0| && Inverse(u0, p0) && KeptOrEmptied(p, p0)
    requires |copies| == |bars| && forall i :: 0 <= i < |bars| ==> bars[i] < |p|
    requires forall i, j :: 0 <= i < j < |bars| ==> bars[i] < bars[j]
    requires forall b :: UsedBy(u0, lo, last, b) ==> b in bars
    requires forall i :: 0 <= i < |bars| ==> Enumerates(copies[i], p0[bars[i]])
    requires PairsDone(bi, p, c, bars, copies, |bars|, 0, check, limit) && BarrierEdges(p, c) <= e
    ensures MergedAs(bi, lo, last, p, c, order, c, check, limit, e)
  {
    order := seq(|p|, b requires b >= 0 => CopyOf(bars, copies, b));
    forall b | 0 <= b < |p| && UsedIn(p[b], c[b], lo, last)
      ensures b in bars && p[b] == p0[b] && Enumerates(order[b], p[b])
    {
      var t :| t in p[b] && lo <= t <= last;
      assert t in p0[b] && b in u0[t];
      assert UsedBy(u0, lo, last, b);
      var i :| 0 <= i < |bars| && bars[i] == b;
      CopyAt(bars, copies, i);
    }
    forall b, t, z | 0 <= b < |p| && t in p[b] && z in c[b]
      ensures (t, z) in e
    {
      assert (t, z) in BarrierEdges(p, c);
    }
    forall x, y | 0 <= x < y < |p| && UsedIn(p[x], c[x], lo, last) && UsedIn(p[y], c[y], lo, last) &&
                  order[x] == order[y]
      ensures check && SlotSum(bi.slots, p[x], bi.numTasks) + SlotSum(bi.slots, c[x] + c[y], bi.numTasks) > limit
    {
      var i :| 0 <= i < |bars| && bars[i] == x;
      var j :| 0 <= j < |bars| && bars[j] == y;
      CopyAt(bars, copies, i);
      CopyAt(bars, copies, j);
      assert PairDone(bi, p, c, bars[i], bars[j], check, limit);
    }
  }

  /** Consumers that go later do not matter. */
  lemma MergedThinned(bi: BarrierInfo, lo: nat, last: int, p: IndexSets, c: IndexSets, c': IndexSets,
                      order: seq<seq<nat>>, c0: IndexSets, check: bool, limit: nat, e: Edges)
    requires bi.ValidConfig() && MergedAs(bi, lo, last, p, c, order, c0, check, limit, e) && Shrunk(c', c)
    ensures MergedAs(bi, lo, last, p, c', order, c0, check, limit, e)
  {
  }

  /** A barrier with consumers it did not have before uses at most `limit` slots. */
  ghost predicate GrownWithin(bi: BarrierInfo, p: IndexSets, c: IndexSets, c0: IndexSets, limit: nat)
    requires bi.ValidConfig()
  {
    && |p| == |c| == |c0|
    && forall b :: 0 <= b < |c| ==>
         c[b] <= c0[b] || SlotSum(bi.slots, p[b], bi.numTasks) + SlotSum(bi.slots, c[b], bi.numTasks) <= limit
  }

  lemma GrownThinned(bi: BarrierInfo, p: IndexSets, c3: IndexSets, c: IndexSets, c0: IndexSets, limit: nat)
    requires bi.ValidConfig() && |p| == |c3| == |c0| && LimitKept(bi, p, c3, c0, limit) && Shrunk(c, c3)
    ensures GrownWithin(bi, p, c, c0, limit)
  {
    forall b | 0 <= b < |c| && !(c[b] <= c0[b])
      ensures SlotSum(bi.slots, p[b], bi.numTasks) + SlotSum(bi.slots, c[b], bi.numTasks) <= limit
    {
      VariantBatches.SlotSumMono(bi.slots, c[b], c3[b], bi.numTasks);
    }
  }

  lemma GrownPrefix(bi: BarrierInfo, p: IndexSets, c: IndexSets, c1: IndexSets, c0: IndexSets, limit: nat, n: nat)
    requires bi.ValidConfig() && GrownWithin(bi, p, c, c1, limit) && n <= |c| && c1[..n] == c0
    ensures GrownWithin(bi, p[..n], c[..n], c0, limit)
  {
    assert forall b :: 0 <= b < n ==> c1[b] == c0[b];
  }

  lemma GrownTwice(bi: BarrierInfo, p: IndexSets, c: IndexSets, p1: IndexSets, c1: IndexSets, c0: IndexSets, limit: nat)
    requires bi.ValidConfig() && GrownWithin(bi, p1, c1, c0, limit) && GrownWithin(bi, p, c, c1, limit) && Shrunk(p, p1)
    ensures GrownWithin(bi, p, c, c0, limit)
  {
    forall b | 0 <= b < |c| && !(c[b] <= c0[b])
      ensures SlotSum(bi.slots, p[b], bi.numTasks) + SlotSum(bi.slots, c[b], bi.numTasks) <= limit
    {
      if c[b] <= c1[b] {
        VariantBatches.SlotSumMono(bi.slots, c[b], c1[b], bi.numTasks);
        VariantBatches.SlotSumMono(bi.slots, p[b], p1[b], bi.numTasks);
      }
    }
  }

  lemma MergedPrefix(bi: BarrierInfo, lo: nat, last: int, p: IndexSets, c: IndexSets, order: seq<seq<nat>>,
                     c0: IndexSets, check: bool, limit: nat, e: Edges, n: nat)
    requires bi.ValidConfig() && MergedAs(bi, lo, last, p, c, order, c0, check, limit, e) && n <= |p|
    ensures MergedAs(bi, lo, last, p[..n], c[..n], order[..n], c0[..n], check, limit, e)
  {
  }

  /** A single producer has only one order, so barriers with the same one are merged. */
  lemma TwinsMerged(bi: BarrierInfo, lo: nat, last: int, p: IndexSets, c: IndexSets, order: seq<seq<nat>>,
                    c0: IndexSets, check: bool, limit: nat, e: Edges, x: nat, y: nat, t: nat)
    requires bi.ValidConfig() && MergedAs(bi, lo, last, p, c, order, c0, check, limit, e) && x < y < |p|
    requires p[x] == p[y] == {t} && c[x] != {} && c[y] != {} && lo <= t <= last
    ensures check && c[x] <= c0[x] && c[y] <= c0[y]
    ensures SlotSum(bi.slots, {t}, bi.numTasks) + SlotSum(bi.slots, c0[x] + c0[y], bi.numTasks) > limit
  {
    OneOrder(order[x], t);
    OneOrder(order[y], t);
  }

  lemma OneOrder(v: seq<nat>, t: nat)
    ensures Enumerates(v, {t}) ==> v == [t]
  {
    if Enumerates(v, {t}) {
      assert t in {t} && t in v;
      if |v| >= 2 { FirstTwoDiffer(v); }
    }
  }

  lemma FirstTwoDiffer(v: seq<nat>)
    requires |v| >= 2 && Distinct(v)
    ensures v[0] != v[1]
  {
  }

  //
  // One block
  //

  /** No two tasks of the range that share a barrier are ordered with respect to each other. */
  ghost predicate Antichains(sets: IndexSets, e: Edges, lo: nat, hi: nat)
  {
    forall b, p, q :: 0 <= b < |sets| && p in sets[b] && q in sets[b] && lo <= p && q <= hi ==> !Reach(e, p, q)
  }

  lemma ProducersPrunedFacts(p: IndexSets, p0: IndexSets, c: IndexSets, u: IndexSets, u0: IndexSets, lo: nat, hi: nat,
                             n: nat, opCount: nat, deps: seq<FifoDep>)
    requires |p| == |p0| == |c| == opCount + |deps| && |u| == |u0| == n && lo <= hi < n
    requires Inverse(u, p) && Inverse(u0, p0) && Forward(BarrierEdges(p0, c))
    requires ProducersPruned(u, u0, BarrierEdges(p0, c), lo, hi, n)
    requires DepsIntact(p0, c, opCount, deps)
    ensures DepsIntact(p, c, opCount, deps)
    ensures Antichains(p, BarrierEdges(p0, c), lo, hi) && Shrunk(p, p0)
    ensures forall b, t {:trigger t in p[b]} :: 0 <= b < |p| && t in p0[b] && t < lo ==> t in p[b]
    ensures forall a, x :: (a, x) in BarrierEdges(p0, c) && a >= hi ==> (a, x) in BarrierEdges(p, c)
  {
    var e := BarrierEdges(p0, c);
    forall b, t | 0 <= b < |p| && t in p[b]
      ensures t in p0[b]
    {
      assert b in u[t];
      assert b in u0[t];
    }
    forall b, t {:trigger t in p[b]} | 0 <= b < |p| && t in p0[b] && t < lo
      ensures t in p[b]
    {
      assert b in u0[t] && b in u[t];
    }
    forall b, t | 0 <= b < |p| && t in p0[b] && t !in p[b]
      ensures exists d: nat :: Reach(e, t, d) && d <= hi && d in p0[b] && d > t && t < hi
    {
      assert b in u0[t] && b !in u[t];
      var d: nat :| Reach(e, t, d) && d <= hi && b in u0[d];
      ForwardReach(e, t, d);
    }
    forall i | 0 <= i < |deps|
      ensures DepIntact(p, c, deps[i])
    {
      assert DepIntact(p0, c, deps[i]);
    }
    forall b, x, y | 0 <= b < |p| && x in p[b] && y in p[b] && lo <= x && y <= hi
      ensures !Reach(e, x, y)
    {
      if Reach(e, x, y) {
        ForwardReach(e, x, y);
        assert b in u0[y] && b in u[x];
        assert UpdatedLater(e, u0, hi, x, b);
      }
    }
    forall a, x | (a, x) in e && a >= hi
      ensures (a, x) in BarrierEdges(p, c)
    {
      var b :| 0 <= b < |p| && a in p0[b] && x in c[b];
      assert a in p[b];
    }
  }

  lemma ConsumersPrunedFacts(p: IndexSets, c: IndexSets, c0: IndexSets, w: IndexSets, w0: IndexSets, lo: nat, hi: nat,
                             n: nat, opCount: nat, deps: seq<FifoDep>)
    requires |p| == |c0| == |c| == opCount + |deps| && |w| == |w0| == n && lo <= hi < n
    requires Inverse(w, c) && Inverse(w0, c0) && Forward(BarrierEdges(p, c0))
    requires ConsumersPruned(w, w0, BarrierEdges(p, c0), lo, hi, 0)
    requires DepsIntact(p, c0, opCount, deps)
    ensures DepsIntact(p, c, opCount, deps)
    ensures Antichains(c, BarrierEdges(p, c0), lo, hi) && Shrunk(c, c0)
    ensures forall a, x :: (a, x) in BarrierEdges(p, c0) && a >= hi ==> (a, x) in BarrierEdges(p, c)
  {
    var e := BarrierEdges(p, c0);
    forall b, t | 0 <= b < |c| && t in c[b]
      ensures t in c0[b]
    {
      assert b in w[t];
      assert b in w0[t];
    }
    forall b, t | 0 <= b < |c| && t in c0[b] && t !in c[b]
      ensures exists d: nat :: Reach(e, d, t) && d in c0[b] && d < t <= hi
    {
      assert b in w0[t] && b !in w[t];
      var d: nat :| Reach(e, d, t) && lo <= d < n && b in w0[d];
      ForwardReach(e, d, t);
    }
    forall i | 0 <= i < |deps|
      ensures DepIntact(p, c, deps[i])
    {
      assert DepIntact(p, c0, deps[i]);
    }
    forall b, x, y | 0 <= b < |c| && x in c[b] && y in c[b] && lo <= x && y <= hi
      ensures !Reach(e, x, y)
    {
      if Reach(e, x, y) {
        ForwardReach(e, x, y);
        assert b in w0[x] && b in w[y];
        assert WaitedEarlier(e, w0, lo, y, b);
      }
    }
    forall a, x | (a, x) in e && a >= hi
      ensures (a, x) in BarrierEdges(p, c)
    {
      var b :| 0 <= b < |p| && a in p[b] && x in c0[b];
      assert x in c[b];
    }
  }

  /** Dropping intact temporary barriers only drops their own edges. */
  lemma TruncateGraph(p: IndexSets, c: IndexSets, opCount: nat, deps: seq<FifoDep>)
    requires |p| == |c| == opCount + |deps| && DepsIntact(p, c, opCount, deps)
    ensures BarrierEdges(p[..opCount], c[..opCount]) <= BarrierEdges(p, c)
    ensures BarrierEdges(p, c) <= BarrierEdges(p[..opCount], c[..opCount]) + RecordedEdges(deps)
  {
    forall e | e in BarrierEdges(p[..opCount], c[..opCount])
      ensures e in BarrierEdges(p, c)
    {
      var b :| 0 <= b < opCount && e.0 in p[..opCount][b] && e.1 in c[..opCount][b];
      assert e.0 in p[b] && e.1 in c[b];
    }
    forall e | e in BarrierEdges(p, c)
      ensures e in BarrierEdges(p[..opCount], c[..opCount]) + RecordedEdges(deps)
    {
      var b :| 0 <= b < |p| && e.0 in p[b] && e.1 in c[b];
      if b < opCount {
        assert e.0 in p[..opCount][b] && e.1 in c[..opCount][b];
      } else {
        assert DepIntact(p, c, deps[b - opCount]);
        assert e == (deps[b - opCount].parent, deps[b - opCount].child);
      }
    }
  }

  /** How the graphs of one block pass relate: `g0` before, `g1` with temporary barriers, `g4` pruned, `g5` after. */
  lemma BlockOrder(g0: Edges, g1: Edges, g4: Edges, g5: Edges, d: Edges, q: Edges)
    requires g1 == g0 + d && d <= q && g4 <= g1 && SameOrder(g1, g4)
    requires g5 <= g4 <= g5 + d
    ensures SameOrder(g0 + q, g5 + q)
  {
    SubsetKeepsOrder(g5 + q, g0 + q);
    SubsetKeepsOrder(g0, g1);
    SubsetKeepsOrder(g4, g5 + q);
    KeepsOrderTrans(g0, g1, g4);
    KeepsOrderTrans(g0, g4, g5 + q);
    KeepsOrderUnion(g0, g5, q);
  }

  /** No edge jumps over a sync point. */
  ghost predicate NoCrossing(syncTasks: seq<nat>, e: Edges)
  {
    forall a, c, i :: (a, c) in e && 0 <= i < |syncTasks| ==> !(a < syncTasks[i] < c)
  }

  ghost function BlockFifo(bi: BarrierInfo, k: nat, fifo: bool, active: set<nat>): Edges
    requires bi.ValidConfig() && k < bi.BlockCount()
  {
    if fifo then FifoEdges(bi.queue, active, bi.BlockFrom(k), bi.BlockLast(k)) else {}
  }

  lemma BlockRange(bi: BarrierInfo, k: nat, e: Edges)
    requires bi.ValidConfig() && k < bi.BlockCount() && NoCrossing(bi.syncTasks, e)
    requires forall a, c :: (a, c) in e ==> c < bi.numTasks
    ensures !LeavesRange(bi, e, bi.BlockLo(k), bi.BlockHi(k)) && !EntersRange(bi, e, bi.BlockLo(k), bi.BlockHi(k))
  {
  }

  lemma AntichainsOf(sets: IndexSets, sets0: IndexSets, e: Edges, f: Edges, lo: nat, hi: nat)
    requires Antichains(sets0, e, lo, hi) && KeepsOrder(f, e)
    requires |sets| <= |sets0| && forall b :: 0 <= b < |sets| ==> sets[b] <= sets0[b]
    ensures Antichains(sets, f, lo, hi)
  {
  }

  /** What pruning block `k` makes of graph `g`: a subgraph with the same order, everything behind the block kept, and
      no two ordered tasks left on one side of a barrier. */
  ghost predicate Pruned(bi: BarrierInfo, k: nat, g: Edges, p: IndexSets, c: IndexSets)
    requires bi.ValidConfig() && k < bi.BlockCount() && |p| == |c|
  {
    var lo, hi := bi.BlockLo(k), bi.BlockHi(k);
    && !LeavesRange(bi, g, lo, hi)
    && BarrierEdges(p, c) <= g && SameOrder(g, BarrierEdges(p, c))
    && (forall a, x :: (a, x) in g && a >= hi ==> (a, x) in BarrierEdges(p, c))
    && Antichains(p, g, lo, hi) && Antichains(c, g, lo, hi)
  }

  /** No barrier in use loses a producer before task `lo`. */
  ghost predicate EarlierKept(p: IndexSets, p0: IndexSets, lo: nat)
  {
    |p| == |p0| && forall b :: 0 <= b < |p| ==> p[b] == {} || KeepsEarlier(p[b], p0[b], lo)
  }

  ghost predicate KeepsEarlier(p: set<nat>, p0: set<nat>, lo: nat)
  {
    forall t :: t in p0 && t < lo ==> t in p
  }

  /** Up to task `lo` no barrier gains a consumer or loses a producer while in use, and none gains a producer at all. */
  ghost predicate NoneGained(p: IndexSets, c: IndexSets, p0: IndexSets, c0: IndexSets, lo: nat)
  {
    && Shrunk(p, p0) && |c| == |c0| && EarlierKept(p, p0, lo)
    && forall b, y {:trigger y in c[b]} :: 0 <= b < |c| && y in c[b] && y <= lo ==> y in c0[b]
  }

  lemma NoneGainedAfter(p: IndexSets, c: IndexSets, p2: IndexSets, c3: IndexSets, p0: IndexSets, c0: IndexSets,
                        g: Edges, lo: nat)
    requires KeptOrEmptied(p, p2) && Shrunk(p2, p0) && Shrunk(c, c3) && LaterConsumers(c3, c0, g, lo) && Forward(g)
    requires forall b, t {:trigger t in p2[b]} :: 0 <= b < |p2| && t in p0[b] && t < lo ==> t in p2[b]
    ensures NoneGained(p, c, p0, c0, lo)
  {
    forall b, y | 0 <= b < |c| && y in c[b] && y <= lo
      ensures y in c0[b]
    {
      assert y in c3[b];
    }
  }

  /** The three passes over one block, on a graph that may hold temporary barriers. */
  method PruneBlock(bi: BarrierInfo, k: nat, check: bool, limit: nat) returns (ok: bool)
    requires bi.Valid() && k < bi.BlockCount() && Forward(bi.Graph())
    requires DepsIntact(bi.producers, bi.consumers, bi.opCount, bi.fifoDeps)
    modifies bi`producers, bi`consumers, bi`updates, bi`waits
    ensures bi.Valid() && (NoCrossing(bi.syncTasks, old(bi.Graph())) ==> ok)
    ensures ok ==> DepsIntact(bi.producers, bi.consumers, bi.opCount, bi.fifoDeps)
    ensures ok ==> Pruned(bi, k, old(bi.Graph()), bi.producers, bi.consumers)
    ensures ok ==> NoneGained(bi.producers, bi.consumers, old(bi.producers), old(bi.consumers), bi.BlockLo(k))
    ensures ok ==> BlockMerged(bi, k, bi.producers, bi.consumers, check, limit, old(bi.Graph()))
    ensures ok && check ==> GrownWithin(bi, bi.producers, bi.consumers, old(bi.consumers), limit)
  {
    var lo, hi := bi.BlockLo(k), bi.BlockHi(k);
    ghost var g1, p1, u1, c1 := bi.Graph(), bi.producers, bi.updates, bi.consumers;
    if NoCrossing(bi.syncTasks, g1) { BlockRange(bi, k, g1); }
    ok := OptimizeProducers(bi, lo, hi);
    if !ok {
      return;
    }
    ProducersPrunedOrder(bi.producers, p1, bi.consumers, bi.updates, u1, lo, hi, bi.numTasks);
    ProducersPrunedFacts(bi.producers, p1, bi.consumers, bi.updates, u1, lo, hi, bi.numTasks, bi.opCount, bi.fifoDeps);
    ghost var p2, u2 := bi.producers, bi.updates;
    var bars, copies := OptimizeSameProducers(bi, lo, bi.BlockLast(k), check, limit);
    ghost var order := IsMerged(bi, lo, bi.BlockLast(k), p2, u2, bi.producers, bi.consumers, bars, copies, check, limit,
                                g1);
    ghost var g3, c3, w3 := bi.Graph(), bi.consumers, bi.waits;
    AntichainsOf(bi.producers, p2, g1, g1, lo, hi);
    if NoCrossing(bi.syncTasks, g1) { BlockRange(bi, k, g3); }
    ok := OptimizeConsumers(bi, lo, hi);
    if !ok {
      return;
    }
    ConsumersPrunedOrder(bi.producers, bi.consumers, c3, bi.waits, w3, lo, hi, bi.numTasks);
    ConsumersPrunedFacts(bi.producers, bi.consumers, c3, bi.waits, w3, lo, hi, bi.numTasks, bi.opCount, bi.fifoDeps);
    AntichainsOf(bi.consumers, bi.consumers, g3, g1, lo, hi);
    NoneGainedAfter(bi.producers, bi.consumers, p2, c3, p1, c1, g3, lo);
    if check { GrownThinned(bi, bi.producers, c3, bi.consumers, c1, limit); }
    MergedThinned(bi, lo, bi.BlockLast(k), bi.producers, c3, bi.consumers, order, c3, check, limit, g1);
  }

  /** What `optimizeBarriers` makes of graph `g0` for block `k`, where `f` is the queue order the pruning may use:
      the same order of barriers plus queues, and no two tasks ordered by `g0 + f` on one side of a barrier. */
  ghost predicate Optimized(bi: BarrierInfo, k: nat, g0: Edges, f: Edges, p: IndexSets, c: IndexSets)
    requires bi.ValidConfig() && k < bi.BlockCount() && |p| == |c|
  {
    var lo, hi, q := bi.BlockLo(k), bi.BlockHi(k), QueueEdges(bi.queue, bi.Tracked());
    && !LeavesRange(bi, g0, lo, hi)
    && BarrierEdges(p, c) <= g0 + f && SameOrder(g0 + q, BarrierEdges(p, c) + q)
    && (forall a, x :: (a, x) in g0 && a >= hi ==> (a, x) in BarrierEdges(p, c))
    && Antichains(p, g0 + f, lo, hi) && Antichains(c, g0 + f, lo, hi)
  }

  lemma PrunedIsOptimized(bi: BarrierInfo, k: nat, g0: Edges, p: IndexSets, c: IndexSets)
    requires bi.ValidConfig() && k < bi.BlockCount() && |p| == |c| && Pruned(bi, k, g0, p, c)
    ensures Optimized(bi, k, g0, {}, p, c)
  {
    assert g0 + {} == g0;
    BlockOrder(g0, g0, BarrierEdges(p, c), BarrierEdges(p, c), {}, QueueEdges(bi.queue, bi.Tracked()));
  }

  /** Pruning with temporary barriers, once these are gone. */
  lemma FifoPrunedIsOptimized(bi: BarrierInfo, k: nat, g0: Edges, f: Edges, p: IndexSets, c: IndexSets, opCount: nat,
                              deps: seq<FifoDep>)
    requires bi.ValidConfig() && k < bi.BlockCount() && |p| == |c| == opCount + |deps|
    requires RecordedEdges(deps) <= f <= QueueEdges(bi.queue, bi.Tracked())
    requires SameOrder(g0 + RecordedEdges(deps), g0 + f)
    requires forall a, x :: (a, x) in f ==> a < x <= bi.BlockHi(k)
    requires DepsIntact(p, c, opCount, deps) && Pruned(bi, k, g0 + RecordedEdges(deps), p, c)
    ensures Optimized(bi, k, g0, f, p[..opCount], c[..opCount])
  {
    var d, q := RecordedEdges(deps), QueueEdges(bi.queue, bi.Tracked());
    TruncateGraph(p, c, opCount, deps);
    BlockOrder(g0, g0 + d, BarrierEdges(p, c), BarrierEdges(p[..opCount], c[..opCount]), d, q);
    AntichainsOf(p[..opCount], p, g0 + d, g0 + f, bi.BlockLo(k), bi.BlockHi(k));
    AntichainsOf(c[..opCount], c, g0 + d, g0 + f, bi.BlockLo(k), bi.BlockHi(k));
  }

  lemma FifoInBlock(bi: BarrierInfo, k: nat, active: set<nat>)
    requires bi.ValidConfig() && k < bi.BlockCount()
    ensures NoCrossing(bi.syncTasks, BlockFifo(bi, k, true, active))
    ensures forall a, c :: (a, c) in BlockFifo(bi, k, true, active) ==> a < c <= bi.BlockHi(k)
  {
  }

  lemma NoneGainedPrefix(p: IndexSets, c: IndexSets, p1: IndexSets, c1: IndexSets, p0: IndexSets, c0: IndexSets,
                         lo: nat, n: nat)
    requires NoneGained(p, c, p1, c1, lo) && n <= |p| == |c| && n == |p0| == |c0| && p1[..n] == p0 && c1[..n] == c0
    ensures NoneGained(p[..n], c[..n], p0, c0, lo)
  {
    assert forall b :: 0 <= b < n ==> p1[b] == p0[b] && c1[b] == c0[b];
  }

  lemma BlockMergedGrows(bi: BarrierInfo, k: nat, p: IndexSets, c: IndexSets, check: bool, limit: nat, e: Edges,
                         e': Edges)
    requires bi.ValidConfig() && k < bi.BlockCount() && BlockMerged(bi, k, p, c, check, limit, e) && e <= e'
    ensures BlockMerged(bi, k, p, c, check, limit, e')
  {
    var order, c0 :| MergedAs(bi, bi.BlockLo(k), bi.BlockLast(k), p, c, order, c0, check, limit, e);
    assert MergedAs(bi, bi.BlockLo(k), bi.BlockLast(k), p, c, order, c0, check, limit, e');
  }

  lemma BlockMergedPrefix(bi: BarrierInfo, k: nat, p: IndexSets, c: IndexSets, check: bool, limit: nat, e: Edges,
                          n: nat)
    requires bi.ValidConfig() && k < bi.BlockCount() && BlockMerged(bi, k, p, c, check, limit, e) && n <= |p| == |c|
    ensures BlockMerged(bi, k, p[..n], c[..n], check, limit, e)
  {
    var order, c0 :| MergedAs(bi, bi.BlockLo(k), bi.BlockLast(k), p, c, order, c0, check, limit, e);
    MergedPrefix(bi, bi.BlockLo(k), bi.BlockLast(k), p, c, order, c0, check, limit, e, n);
  }

  /** `optimizeBarriers` for one block. With `fifo`, the pruning knows the queue order of the block. The block is
      rejected only if some barrier leads past a sync point; the temporary barriers always come out again. */
  method OptimizeBlock(bi: BarrierInfo, k: nat, fifo: bool, active: set<nat>, check: bool, limit: nat)
    returns (ok: bool)
    requires bi.Valid() && bi.fifoDeps == [] && k < bi.BlockCount() && Forward(bi.Graph())
    requires active <= bi.Tracked()
    modifies bi`producers, bi`consumers, bi`updates, bi`waits, bi`fifoDeps
    ensures NoCrossing(bi.syncTasks, old(bi.Graph())) ==> ok
    ensures ok ==> bi.Valid() && bi.fifoDeps == []
    ensures ok ==> Optimized(bi, k, old(bi.Graph()), BlockFifo(bi, k, fifo, active), bi.producers, bi.consumers)
    ensures ok ==> NoneGained(bi.producers, bi.consumers, old(bi.producers), old(bi.consumers), bi.BlockLo(k))
    ensures ok ==> BlockMerged(bi, k, bi.producers, bi.consumers, check, limit,
                               old(bi.Graph()) + BlockFifo(bi, k, fifo, active))
    ensures ok && check ==> GrownWithin(bi, bi.producers, bi.consumers, old(bi.consumers), limit)
  {
    ghost var g0, f := bi.Graph(), BlockFifo(bi, k, fifo, active);
    if fifo {
      FifoWithinQueues(bi.queue, active, bi.Tracked(), bi.BlockFrom(k), bi.BlockLast(k));
      FifoInBlock(bi, k, active);
      var _ := CreateDependencies(bi, bi.BlockFrom(k), bi.BlockLast(k), active);
      assert DepsInRange(bi.fifoDeps, bi.numTasks);
    }
    ghost var p1, c1 := bi.producers, bi.consumers;
    ok := PruneBlock(bi, k, check, limit);
    if ok && fifo {
      NoneGainedPrefix(bi.producers, bi.consumers, p1, c1, old(bi.producers), old(bi.consumers), bi.BlockLo(k),
                       bi.opCount);
      FifoPrunedIsOptimized(bi, k, g0, f, bi.producers, bi.consumers, bi.opCount, bi.fifoDeps);
      BlockMergedPrefix(bi, k, bi.producers, bi.consumers, check, limit, g0 + RecordedEdges(bi.fifoDeps), bi.opCount);
      BlockMergedGrows(bi, k, bi.producers[..bi.opCount], bi.consumers[..bi.opCount], check, limit,
                       g0 + RecordedEdges(bi.fifoDeps), g0 + f);
      if check {
        GrownPrefix(bi, bi.producers, bi.consumers, c1, old(bi.consumers), limit, bi.opCount);
      }
      var cleared, _ := RemoveDependencies(bi);
      ok := cleared;
    } else if ok {
      PrunedIsOptimized(bi, k, g0, bi.producers, bi.consumers);
      assert g0 + f == g0;
    }
  }

  //
  // All blocks
  //

  ghost predicate NoCrossingBelow(syncTasks: seq<nat>, e: Edges, bound: nat)
  {
    forall a, c, i :: (a, c) in e && a < bound && 0 <= i < |syncTasks| ==> !(a < syncTasks[i] < c)
  }

  /** First task not yet covered when the first `k` blocks are done. */
  ghost function Covered(bi: BarrierInfo, k: nat): nat
    requires bi.ValidConfig() && k <= bi.BlockCount()
  {
    if k == bi.BlockCount() then bi.numTasks else bi.BlockLo(k)
  }

  /** What the loop over the blocks has established before block `k`. */
  ghost predicate Progress(bi: BarrierInfo, k: nat, g0: Edges, g: Edges)
    requires bi.ValidConfig() && k <= bi.BlockCount()
  {
    var q := QueueEdges(bi.queue, bi.Tracked());
    && Forward(g) && SameOrder(g0 + q, g + q)
    && (NoCrossing(bi.syncTasks, g0) ==> NoCrossing(bi.syncTasks, g))
    && NoCrossingBelow(bi.syncTasks, g0, Covered(bi, k))
    && (forall a, c :: (a, c) in g0 && a >= Covered(bi, k) ==> (a, c) in g)
  }

  lemma ProgressStep(bi: BarrierInfo, k: nat, g0: Edges, g: Edges, f: Edges, p: IndexSets, c: IndexSets)
    requires bi.ValidConfig() && k < bi.BlockCount() && |p| == |c|
    requires Progress(bi, k, g0, g) && Optimized(bi, k, g, f, p, c)
    requires Forward(f) && NoCrossing(bi.syncTasks, f)
    requires forall a, x :: (a, x) in g0 ==> a < x < bi.numTasks
    ensures Progress(bi, k + 1, g0, BarrierEdges(p, c))
  {
    var lo, hi := bi.BlockLo(k), bi.BlockHi(k);
    forall a, x, i | (a, x) in g0 && a < Covered(bi, k + 1) && 0 <= i < |bi.syncTasks|
      ensures !(a < bi.syncTasks[i] < x)
    {
      assert a >= lo ==> (a, x) in g;
    }
  }

  lemma ProgressStart(bi: BarrierInfo, g: Edges)
    requires bi.ValidConfig() && Forward(g)
    ensures Progress(bi, 0, g, g)
  {
  }

  lemma ProgressEnd(bi: BarrierInfo, g0: Edges, g: Edges)
    requires bi.ValidConfig() && Progress(bi, bi.BlockCount(), g0, g)
    requires forall a, x :: (a, x) in g0 ==> a < x < bi.numTasks
    ensures Forward(g) && NoCrossing(bi.syncTasks, g0)
    ensures SameRuns(g0 + QueueEdges(bi.queue, bi.Tracked()), g + QueueEdges(bi.queue, bi.Tracked()), bi.numTasks)
  {
    SameOrderSameRuns(g0 + QueueEdges(bi.queue, bi.Tracked()), g + QueueEdges(bi.queue, bi.Tracked()), bi.numTasks);
  }

  /** In none of the first `n` blocks are two producers or two consumers of a barrier ordered by the barriers and the
      queues of the block. */
  ghost predicate BlocksAntichain(bi: BarrierInfo, fifo: bool, active: set<nat>, p: IndexSets, c: IndexSets, n: nat)
    requires bi.ValidConfig() && n <= bi.BlockCount() && |p| == |c|
  {
    forall k :: 0 <= k < n ==> BlockAntichain(bi, fifo, active, p, c, k)
  }

  ghost predicate BlockAntichain(bi: BarrierInfo, fifo: bool, active: set<nat>, p: IndexSets, c: IndexSets, k: nat)
    requires bi.ValidConfig() && k < bi.BlockCount() && |p| == |c|
  {
    var e, lo, hi := BarrierEdges(p, c) + BlockFifo(bi, k, fifo, active), bi.BlockLo(k), bi.BlockHi(k);
    Antichains(p, e, lo, hi) && Antichains(c, e, lo, hi)
  }

  /** An order between two tasks up to `hi` does not come from edges behind `hi`. */
  lemma EarlierOrder(e: Edges, e0: Edges, hi: nat, x: nat, y: nat)
    requires Forward(e) && Reach(e, x, y) && y <= hi && forall a, b :: (a, b) in e && b <= hi ==> (a, b) in e0
    ensures Reach(e0, x, y)
  {
    ReachWithin(e, x, hi, x, y);
    SubsetKeepsOrder(Within(e, x, hi), e0);
  }

  /** What was achieved for block `k` survives the work on a later block `n`. */
  lemma AntichainKept(bi: BarrierInfo, fifo: bool, active: set<nat>, p: IndexSets, c: IndexSets, p0: IndexSets,
                      c0: IndexSets, k: nat, n: nat)
    requires bi.ValidConfig() && k < n < bi.BlockCount() && |p| == |c| == |p0| == |c0|
    requires BlockAntichain(bi, fifo, active, p0, c0, k)
    requires Forward(BarrierEdges(p, c)) && BarrierEdges(p, c) <= BarrierEdges(p0, c0) + BlockFifo(bi, n, fifo, active)
    requires NoneGained(p, c, p0, c0, bi.BlockLo(n))
    ensures BlockAntichain(bi, fifo, active, p, c, k)
  {
    var f, lo, hi := BlockFifo(bi, k, fifo, active), bi.BlockLo(k), bi.BlockHi(k);
    var e, e0 := BarrierEdges(p, c) + f, BarrierEdges(p0, c0) + f;
    assert hi <= bi.BlockLo(n) < bi.BlockFrom(n);
    forall b, x, y | 0 <= b < |p| && lo <= x && y <= hi && ((x in p[b] && y in p[b]) || (x in c[b] && y in c[b]))
      ensures !Reach(e, x, y)
    {
      if Reach(e, x, y) {
        ForwardReach(e, x, y);
        EarlierOrder(e, e0, hi, x, y);
      }
    }
  }

  lemma AntichainStep(bi: BarrierInfo, fifo: bool, active: set<nat>, p: IndexSets, c: IndexSets, p0: IndexSets,
                      c0: IndexSets, n: nat)
    requires bi.ValidConfig() && n < bi.BlockCount() && |p| == |c| == |p0| == |c0|
    requires BlocksAntichain(bi, fifo, active, p0, c0, n)
    requires Optimized(bi, n, BarrierEdges(p0, c0), BlockFifo(bi, n, fifo, active), p, c) && Forward(BarrierEdges(p, c))
    requires NoneGained(p, c, p0, c0, bi.BlockLo(n))
    ensures BlocksAntichain(bi, fifo, active, p, c, n + 1)
  {
    var f := BlockFifo(bi, n, fifo, active);
    forall k | 0 <= k < n + 1
      ensures BlockAntichain(bi, fifo, active, p, c, k)
    {
      if k < n {
        AntichainKept(bi, fifo, active, p, c, p0, c0, k, n);
      } else {
        SubsetKeepsOrder(BarrierEdges(p, c) + f, BarrierEdges(p0, c0) + f);
      }
    }
  }

  /** What was merged in block `k` stays merged while later blocks are worked on. */
  lemma MergedKept(bi: BarrierInfo, k: nat, n: nat, p: IndexSets, c: IndexSets, p0: IndexSets, c0: IndexSets,
                   check: bool, limit: nat, e: Edges)
    requires bi.ValidConfig() && k < n < bi.BlockCount() && |p| == |c| == |p0| == |c0|
    requires BlockMerged(bi, k, p0, c0, check, limit, e) && NoneGained(p, c, p0, c0, bi.BlockLo(n))
    requires Forward(BarrierEdges(p0, c0)) && NoCrossingBelow(bi.syncTasks, BarrierEdges(p, c), bi.BlockLo(n))
    ensures BlockMerged(bi, k, p, c, check, limit, e)
  {
    var lo, last := bi.BlockLo(k), bi.BlockLast(k);
    var order, cm :| MergedAs(bi, lo, last, p0, c0, order, cm, check, limit, e);
    forall b | 0 <= b < |p| && UsedIn(p[b], c[b], lo, last)
      ensures UsedIn(p0[b], c0[b], lo, last) && p[b] == p0[b] && c[b] <= c0[b]
    {
      BarrierUntouched(bi, k, n, p, c, p0, c0, b);
    }
    assert MergedAs(bi, lo, last, p, c, order, cm, check, limit, e);
  }

  lemma BarrierUntouched(bi: BarrierInfo, k: nat, n: nat, p: IndexSets, c: IndexSets, p0: IndexSets, c0: IndexSets,
                         b: nat)
    requires bi.ValidConfig() && k < n < bi.BlockCount() && |p| == |c| == |p0| == |c0| && b < |p|
    requires NoneGained(p, c, p0, c0, bi.BlockLo(n)) && UsedIn(p[b], c[b], bi.BlockLo(k), bi.BlockLast(k))
    requires Forward(BarrierEdges(p0, c0)) && NoCrossingBelow(bi.syncTasks, BarrierEdges(p, c), bi.BlockLo(n))
    ensures UsedIn(p0[b], c0[b], bi.BlockLo(k), bi.BlockLast(k)) && p[b] == p0[b] && c[b] <= c0[b]
  {
    var x :| x in p[b] && bi.BlockLo(k) <= x <= bi.BlockLast(k);
    var s := bi.syncTasks[k];
    assert x < s <= bi.BlockLo(n);
    forall z | z in c[b]
      ensures z <= s && z in c0[b]
    {
      assert (x, z) in BarrierEdges(p, c);
    }
    var z :| z in c[b];
    forall t | t in p0[b]
      ensures t in p[b]
    {
      assert (t, z) in BarrierEdges(p0, c0);
      assert KeepsEarlier(p[b], p0[b], bi.BlockLo(n));
    }
  }

  ghost predicate BlocksMerged(bi: BarrierInfo, p: IndexSets, c: IndexSets, n: nat, check: bool, limit: nat, e: Edges)
    requires bi.ValidConfig() && n <= bi.BlockCount()
  {
    forall k :: 0 <= k < n ==> BlockMerged(bi, k, p, c, check, limit, e)
  }

  lemma MergedStep(bi: BarrierInfo, n: nat, p: IndexSets, c: IndexSets, p0: IndexSets, c0: IndexSets, check: bool,
                   limit: nat, e: Edges)
    requires bi.ValidConfig() && n < bi.BlockCount() && |p| == |c| == |p0| == |c0|
    requires BlocksMerged(bi, p0, c0, n, check, limit, e) && BlockMerged(bi, n, p, c, check, limit, e)
    requires NoneGained(p, c, p0, c0, bi.BlockLo(n)) && Forward(BarrierEdges(p0, c0))
    requires NoCrossingBelow(bi.syncTasks, BarrierEdges(p, c), bi.BlockLo(n))
    ensures BlocksMerged(bi, p, c, n + 1, check, limit, e)
  {
    forall k | 0 <= k < n + 1
      ensures BlockMerged(bi, k, p, c, check, limit, e)
    {
      if k < n { MergedKept(bi, k, n, p, c, p0, c0, check, limit, e); }
    }
  }

  /** Edges of the blocks that are done do not cross any sync point. */
  lemma CrossingStep(bi: BarrierInfo, k: nat, g: Edges, f: Edges, p: IndexSets, c: IndexSets)
    requires bi.ValidConfig() && k < bi.BlockCount() && |p| == |c|
    requires NoCrossingBelow(bi.syncTasks, g, Covered(bi, k)) && Optimized(bi, k, g, f, p, c)
    requires NoCrossing(bi.syncTasks, f) && forall a, x :: (a, x) in g ==> a < x < bi.numTasks
    ensures NoCrossingBelow(bi.syncTasks, BarrierEdges(p, c), Covered(bi, k + 1))
  {
    var lo, hi := bi.BlockLo(k), bi.BlockHi(k);
    forall a, x, i | (a, x) in BarrierEdges(p, c) && a < Covered(bi, k + 1) && 0 <= i < |bi.syncTasks|
      ensures !(a < bi.syncTasks[i] < x)
    {
      assert (a, x) in g + f;
    }
  }

  lemma CoveredBefore(bi: BarrierInfo, k: nat, g: Edges)
    requires bi.ValidConfig() && k < bi.BlockCount() && NoCrossingBelow(bi.syncTasks, g, Covered(bi, k + 1))
    ensures NoCrossingBelow(bi.syncTasks, g, bi.BlockLo(k))
  {
  }

  /** Without the slot check, no two barriers are left that have the same single producer. */
  ghost predicate NoTwins(p: IndexSets, c: IndexSets)
    requires |p| == |c|
  {
    forall x, y, t: nat :: 0 <= x < y < |p| && p[x] == {t} && p[y] == {t} ==> c[x] == {} || c[y] == {}
  }

  lemma AllTwinsMerged(bi: BarrierInfo, p: IndexSets, c: IndexSets, limit: nat, e: Edges)
    requires bi.ValidConfig() && |p| == |c| && BlocksMerged(bi, p, c, bi.BlockCount(), false, limit, e)
    requires forall b, t :: 0 <= b < |p| && t in p[b] ==> t < bi.numTasks
    ensures NoTwins(p, c)
  {
    forall x, y, t: nat | 0 <= x < y < |p| && p[x] == {t} && p[y] == {t}
      ensures c[x] == {} || c[y] == {}
    {
      assert t in p[x];
      var k := BlockWith(bi, t);
      assert BlockMerged(bi, k, p, c, false, limit, e);
      var order, c0 :| MergedAs(bi, bi.BlockLo(k), bi.BlockLast(k), p, c, order, c0, false, limit, e);
      if c[x] != {} && c[y] != {} {
        TwinsMerged(bi, bi.BlockLo(k), bi.BlockLast(k), p, c, order, c0, false, limit, e, x, y, t);
      }
    }
  }

  /** The block in which task `t` can update barriers. */
  lemma BlockWith(bi: BarrierInfo, t: nat) returns (k: nat)
    requires bi.ValidConfig() && t < bi.numTasks
    ensures k < bi.BlockCount() && bi.BlockLo(k) <= t <= bi.BlockLast(k)
  {
    k := |bi.syncTasks|;
    while k > 0 && t < bi.BlockLo(k)
      invariant 0 <= k <= |bi.syncTasks| && (k == |bi.syncTasks| || t < bi.syncTasks[k])
    {
      k := k - 1;
    }
  }

  /** The queue order that the pruning knows. */
  ghost function KnownQueues(bi: BarrierInfo, fifo: bool): Edges
  {
    if fifo then QueueEdges(bi.queue, bi.Tracked()) else {}
  }

  /** `optimizeBarriers` accepts exactly the graphs without an edge past a sync point, and then the optimized program
      has exactly the runs it had before. In each block barriers with the same producers are merged as far as the
      limit allows. */
  method Optimize(bi: BarrierInfo, fifo: bool, active: set<nat>, check: bool, limit: nat) returns (ok: bool)
    requires bi.Valid() && bi.fifoDeps == [] && Forward(bi.Graph()) && active <= bi.Tracked()
    modifies bi`producers, bi`consumers, bi`updates, bi`waits, bi`fifoDeps
    ensures ok <==> NoCrossing(bi.syncTasks, old(bi.Graph()))
    ensures ok ==> bi.Valid() && bi.fifoDeps == [] && Forward(bi.Graph())
    ensures ok ==> SameRuns(old(bi.Order()), bi.Order(), bi.numTasks)
    ensures ok ==> BlocksAntichain(bi, fifo, active, bi.producers, bi.consumers, bi.BlockCount())
    ensures ok ==> BlocksMerged(bi, bi.producers, bi.consumers, bi.BlockCount(), check, limit,
                                old(bi.Graph()) + KnownQueues(bi, fifo))
    ensures ok && !check ==> NoTwins(bi.producers, bi.consumers)
    ensures ok && check ==> GrownWithin(bi, bi.producers, bi.consumers, old(bi.consumers), limit)
    ensures ok && bi.syncTasks == [] ==>
              Optimized(bi, 0, old(bi.Graph()), BlockFifo(bi, 0, fifo, active), bi.producers, bi.consumers)
  {
    ghost var g0, e := bi.Graph(), bi.Graph() + KnownQueues(bi, fifo);
    ProgressStart(bi, g0);
    var k := 0;
    while k < bi.BlockCount()
      invariant 0 <= k <= bi.BlockCount()
      invariant bi.Valid() && bi.fifoDeps == [] && Progress(bi, k, g0, bi.Graph())
      invariant k == 0 ==> bi.Graph() == g0
      invariant k == 1 ==> Optimized(bi, 0, g0, BlockFifo(bi, 0, fifo, active), bi.producers, bi.consumers)
      invariant BlocksAntichain(bi, fifo, active, bi.producers, bi.consumers, k)
      invariant BlocksMerged(bi, bi.producers, bi.consumers, k, check, limit, e)
      invariant NoCrossingBelow(bi.syncTasks, bi.Graph(), Covered(bi, k)) && bi.Graph() <= e
      invariant check ==> GrownWithin(bi, bi.producers, bi.consumers, old(bi.consumers), limit)
    {
      ghost var g, p, c := bi.Graph(), bi.producers, bi.consumers;
      ok := OptimizeBlock(bi, k, fifo, active, check, limit);
      if !ok {
        return;
      }
      FifoInBlock(bi, k, active);
      ProgressStep(bi, k, g0, g, BlockFifo(bi, k, fifo, active), bi.producers, bi.consumers);
      AntichainStep(bi, fifo, active, bi.producers, bi.consumers, p, c, k);
      FifoWithinQueues(bi.queue, active, bi.Tracked(), bi.BlockFrom(k), bi.BlockLast(k));
      assert BlockFifo(bi, k, fifo, active) <= KnownQueues(bi, fifo);
      BlockMergedGrows(bi, k, bi.producers, bi.consumers, check, limit, g + BlockFifo(bi, k, fifo, active), e);
      CrossingStep(bi, k, g, BlockFifo(bi, k, fifo, active), bi.producers, bi.consumers);
      if check { GrownTwice(bi, bi.producers, bi.consumers, p, c, old(bi.consumers), limit); }
      CoveredBefore(bi, k, bi.Graph());
      MergedStep(bi, k, bi.producers, bi.consumers, p, c, check, limit, e);
      k := k + 1;
    }
    ok := true;
    ProgressEnd(bi, g0, bi.Graph());
    if !check { AllTwinsMerged(bi, bi.producers, bi.consumers, limit, e); }
  }
}
