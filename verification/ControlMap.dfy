/** The task control map of a block: for every task, the tasks of the block that can only start after it. */
module ControlMap {
  import opened TaskGraph
  import opened Barriers
  import opened FifoDependencies
  import opened OptimizeBarriers
  import opened ControlShapes
  import BarrierEdits

  /** The successors of every task, read off the maps. */
  ghost predicate HasSuccessors(e: Edges, updates: IndexSets, consumers: IndexSets)
  {
    && (forall t, b {:trigger b in updates[t]} :: 0 <= t < |updates| && b in updates[t] ==> b < |consumers|)
    && (forall t, c {:trigger c in Linkage(updates[t], consumers)} :: 0 <= t < |updates| ==>
         ((t, c) in e <==> c in Linkage(updates[t], consumers)))
  }

  lemma GraphSuccessors(bi: BarrierInfo)
    requires bi.Valid()
    ensures HasSuccessors(bi.Graph(), bi.updates, bi.consumers)
  {
  }

  method Absorb(updates: IndexSets, consumers: IndexSets, rows: IndexSets, t: nat, lo: nat, hi: nat, ghost e: Edges)
    returns (row: set<nat>)
    requires HasSuccessors(e, updates, consumers) && t < |updates| == |rows| && hi < |rows|
    ensures row == AbsorbedRow(e, rows, t, lo, hi)
  {
    var kids := set c | c in Linkage(updates[t], consumers) && lo <= c <= hi;
    row := UnionRows(rows, rows[t], kids);
    forall x
      ensures x in row <==> x in AbsorbedRow(e, rows, t, lo, hi)
    {
      if x in AbsorbedRow(e, rows, t, lo, hi) && x !in rows[t] {
        var p :| p in e && p.0 == t && lo <= p.1 <= hi && p.1 < |rows| && x in rows[p.1];
        assert (t, p.1) in e && p.1 in Linkage(updates[t], consumers);
      }
      if InSomeRow(rows, kids, x) {
        var c :| c in kids && c < |rows| && x in rows[c];
        assert (t, c) in e;
      }
    }
  }

  method DirectSuccessors(updates: IndexSets, consumers: IndexSets, lo: nat, hi: nat, ghost e: Edges)
    returns (rows: IndexSets)
    requires HasSuccessors(e, updates, consumers) && lo <= hi < |updates|
    ensures rows == DirectRows(e, |updates|, lo, hi)
  {
    rows := seq(|updates|, _ => {});
    var t := hi + 1;
    while t > lo
      invariant lo <= t <= hi + 1 && |rows| == |updates|
      invariant forall x :: 0 <= x < |updates| ==> rows[x] == if t <= x then DirectRow(e, x, lo, hi) else {}
    {
      t := t - 1;
      var row := set c | c in Linkage(updates[t], consumers) && lo <= c <= hi;
      assert row == DirectRow(e, t, lo, hi) by {
        forall c | c in row
          ensures c in DirectRow(e, t, lo, hi)
        {
          assert (t, c) in e;
        }
        forall c | c in DirectRow(e, t, lo, hi)
          ensures c in row
        {
          assert (t, c) in e && c in Linkage(updates[t], consumers);
        }
      }
      rows := rows[t := row];
    }
    forall x | 0 <= x < lo
      ensures DirectRow(e, x, lo, hi) == {}
    {
    }
  }

  ghost predicate StaysInside(e: Edges, t: nat, lo: nat, hi: nat)
  {
    forall c :: (t, c) in e ==> lo <= c <= hi
  }

  /** A task other than the closing sync point has a successor outside the range. */
  ghost predicate LinksOutside(e: Edges, lo: nat, hi: nat, skip: bool)
  {
    exists t :: lo <= t < (if skip then hi else hi + 1) && !StaysInside(e, t, lo, hi)
  }

  /** Checks the successors of the tasks in `[lo, end)` and collects the tasks with backward edges. */
  method CheckSuccessors(bi: BarrierInfo, lo: nat, hi: nat, end: nat, ignoreOutside: bool)
    returns (ok: bool, back: set<nat>)
    requires bi.Valid() && lo <= hi < bi.numTasks && end <= hi + 1
    ensures ok <==> ignoreOutside || forall t :: lo <= t < end ==> StaysInside(bi.Graph(), t, lo, hi)
    ensures ok ==> back == BackwardTasks(bi.Graph(), lo, end)
  {
    back := {};
    var t := end;
    while t > lo
      invariant t <= end && (lo <= t || t == end)
      invariant ignoreOutside || forall x :: t <= x < end ==> StaysInside(bi.Graph(), x, lo, hi)
      invariant forall x :: x in back <==> t <= x < end && LinksBack(bi.Graph(), x, lo)
    {
      t := t - 1;
      SuccessorsAreEdges(bi, t);
      var children := Linkage(bi.updates[t], bi.consumers);
      if !ignoreOutside && exists c :: c in children && !(lo <= c <= hi) {
        assert !StaysInside(bi.Graph(), t, lo, hi);
        return false, back;
      }
      if exists c :: c in children && lo <= c < t {
        back := back + {t};
      }
    }
    ok := true;
  }

  /** A downward sweep from `end - 1` to `lo`. */
  method SweepBelow(updates: IndexSets, consumers: IndexSets, start: IndexSets, lo: nat, hi: nat, end: nat,
                    ghost e: Edges) returns (rows: IndexSets)
    requires HasSuccessors(e, updates, consumers) && lo <= hi < |updates| == |start| && lo <= end <= hi + 1
    ensures rows == Sweep(e, start, Down(lo, end), lo, hi)
  {
    rows := start;
    var t := end;
    SweepNothing(e, start, end, end, lo, hi);
    while t > lo
      invariant lo <= t <= end && |rows| == |updates|
      invariant rows == Sweep(e, start, Down(t, end), lo, hi)
    {
      t := t - 1;
      rows := SweepOne(updates, consumers, start, rows, t, lo, hi, end, e);
    }
  }

  method SweepOne(updates: IndexSets, consumers: IndexSets, ghost start: IndexSets, rows: IndexSets, t: nat, lo: nat,
                  hi: nat, ghost end: nat, ghost e: Edges) returns (rows': IndexSets)
    requires HasSuccessors(e, updates, consumers) && lo <= hi < |updates| == |start| && t < end <= hi + 1
    requires |rows| == |updates| && rows == Sweep(e, start, Down(t + 1, end), lo, hi)
    ensures rows' == Sweep(e, start, Down(t, end), lo, hi)
  {
    var row := Absorb(updates, consumers, rows, t, lo, hi, e);
    SweepDownStep(e, start, t, end, lo, hi);
    rows' := rows[t := row];
  }

  /** Absorbs for the tasks of `back` below `end`, ascending. */
  method SweepUp(updates: IndexSets, consumers: IndexSets, start: IndexSets, lo: nat, hi: nat, end: nat, back: set<nat>,
                 ghost e: Edges)
    returns (rows: IndexSets)
    requires HasSuccessors(e, updates, consumers) && lo <= hi < |updates| == |start| && end <= hi + 1
    ensures rows == Sweep(e, start, Ascending(back, end), lo, hi)
  {
    rows := start;
    var t := 0;
    while t < end
      invariant 0 <= t <= end && |rows| == |updates|
      invariant rows == Sweep(e, start, Ascending(back, t), lo, hi)
    {
      SweepUpStep(e, start, back, t, lo, hi);
      if t in back {
        var row := Absorb(updates, consumers, rows, t, lo, hi, e);
        rows := rows[t := row];
      }
      t := t + 1;
    }
  }

  method Highest(s: set<nat>, k: nat) returns (highest: nat)
    ensures highest == Top(s, k)
  {
    highest := 0;
    for t := 0 to k
      invariant highest == Top(s, t)
    {
      if t in s {
        highest := t;
      }
    }
  }

  method BuildRows(bi: BarrierInfo, lo: nat, hi: nat, ignoreOutside: bool) returns (ok: bool, rows: IndexSets)
    requires bi.Valid() && lo <= hi < bi.numTasks
    ensures ok <==> ignoreOutside || !LinksOutside(bi.Graph(), lo, hi, bi.IsSyncPoint(hi))
    ensures ok ==> rows == ControlRows(bi.Graph(), bi.numTasks, lo, hi, bi.IsSyncPoint(hi))
  {
    var end := if bi.IsSyncPoint(hi) then hi else hi + 1;
    GraphSuccessors(bi);
    rows := DirectSuccessors(bi.updates, bi.consumers, lo, hi, bi.Graph());
    var back;
    ok, back := CheckSuccessors(bi, lo, hi, end, ignoreOutside);
    if ok {
      rows := SweepBelow(bi.updates, bi.consumers, rows, lo, hi, end, bi.Graph());
      if back != {} {
        rows := SweepUp(bi.updates, bi.consumers, rows, lo, hi, end, back, bi.Graph());
        var highest := Highest(back, end);
        rows := SweepBelow(bi.updates, bi.consumers, rows, lo, hi, highest, bi.Graph());
      }
    }
  }

  /** The rows hold exactly the pairs that a recorded path joins. */
  ghost predicate IsControlMap(rows: IndexSets, e: Edges, n: nat, lo: nat, hi: nat, skip: bool)
    requires hi < n
  {
    |rows| == n && ExactRows(rows, Within(e, lo, hi), RangeEnd(hi, skip), hi)
  }

  ghost predicate SoundRows(rows: IndexSets, w: Edges)
  {
    forall t, x {:trigger x in rows[t]} :: 0 <= t < |rows| && x in rows[t] ==> Reach(w, t, x)
  }

  ghost predicate CompleteRows(rows: IndexSets, e: Edges, from: nat, hi: nat)
    requires hi < |rows|
  {
    forall t: nat, x: nat {:trigger Reach(e, t, x)} :: from <= t && x <= hi && Reach(e, t, x) ==>
      t < |rows| && x in rows[t]
  }

  /** Real paths inside the range only and, on a forward graph, all of them. */
  ghost predicate IsOrderMap(rows: IndexSets, e: Edges, n: nat, lo: nat, hi: nat)
    requires hi < n
  {
    && |rows| == n && SoundRows(rows, Within(e, lo, hi))
    && (Forward(e) ==> CompleteRows(rows, e, lo, hi))
  }

  lemma ControlMapOrder(rows: IndexSets, e: Edges, n: nat, lo: nat, hi: nat, skip: bool)
    requires lo <= hi < n && IsControlMap(rows, e, n, lo, hi, skip)
    ensures IsOrderMap(rows, e, n, lo, hi)
  {
    var w, end := Within(e, lo, hi), RangeEnd(hi, skip);
    forall t, x | 0 <= t < |rows| && x in rows[t]
      ensures Reach(w, t, x)
    {
      ZigzagsReach(w, end, hi, t, x);
    }
    if Forward(e) {
      forall t: nat, x: nat | lo <= t && x <= hi && Reach(e, t, x)
        ensures t < |rows| && x in rows[t]
      {
        ForwardReach(e, t, x);
        ForwardZigzags(e, lo, hi, end, t, x);
      }
    }
  }

  lemma RowsWithQueues(rows: IndexSets, g: Edges, d: Edges, f: Edges, n: nat, lo: nat, hi: nat)
    requires hi < n && d <= f && SameOrder(g + d, g + f) && IsOrderMap(rows, g + d, n, lo, hi)
    ensures IsOrderMap(rows, g + f, n, lo, hi)
  {
  }

  /** Links between queue neighbours inside block `k`, sync points apart. */
  ghost function BlockLinks(bi: BarrierInfo, k: nat, fifo: bool): Edges
    requires bi.ValidConfig() && k < bi.BlockCount()
  {
    if fifo then NeighbourEdges(bi.queue, bi.Tracked(), bi.BlockFrom(k), bi.BlockLast(k)) else {}
  }

  /** The control map of block `k` for the barrier graph `g`. */
  ghost predicate IsBlockMap(bi: BarrierInfo, rows: IndexSets, g: Edges, k: nat, fifo: bool)
    requires bi.ValidConfig() && k < bi.BlockCount()
  {
    var lo, hi := bi.BlockLo(k), bi.BlockHi(k);
    && IsControlMap(rows, g + BlockLinks(bi, k, fifo), bi.numTasks, lo, hi, bi.IsSyncPoint(hi))
    && IsOrderMap(rows, g + BlockFifo(bi, k, fifo, bi.Tracked()), bi.numTasks, lo, hi)
  }

  lemma QueuesStayInside(bi: BarrierInfo, k: nat, g: Edges, d: Edges, active: set<nat>)
    requires bi.ValidConfig() && k < bi.BlockCount() && d <= BlockFifo(bi, k, true, active)
    ensures var lo, hi := bi.BlockLo(k), bi.BlockHi(k);
            LinksOutside(g + d, lo, hi, bi.IsSyncPoint(hi)) <==> LinksOutside(g, lo, hi, bi.IsSyncPoint(hi))
  {
    var lo, hi := bi.BlockLo(k), bi.BlockHi(k);
    forall t | lo <= t <= hi
      ensures StaysInside(g + d, t, lo, hi) <==> StaysInside(g, t, lo, hi)
    {
    }
  }

  method BuildMap(bi: BarrierInfo, lo: nat, hi: nat, ignoreOutside: bool) returns (ok: bool, rows: IndexSets)
    requires bi.Valid() && lo <= hi < bi.numTasks
    ensures ok <==> ignoreOutside || !LinksOutside(bi.Graph(), lo, hi, bi.IsSyncPoint(hi))
    ensures ok ==> IsControlMap(rows, bi.Graph(), bi.numTasks, lo, hi, bi.IsSyncPoint(hi))
    ensures ok ==> IsOrderMap(rows, bi.Graph(), bi.numTasks, lo, hi)
  {
    ok, rows := BuildRows(bi, lo, hi, ignoreOutside);
    if ok {
      ControlRowsExact(bi.Graph(), bi.numTasks, lo, hi, bi.IsSyncPoint(hi));
      ControlMapOrder(rows, bi.Graph(), bi.numTasks, lo, hi, bi.IsSyncPoint(hi));
    }
  }

  method RestoreMaps(bi: BarrierInfo, newDeps: nat, ghost p0: IndexSets, ghost c0: IndexSets, ghost u0: IndexSets,
                     ghost w0: IndexSets)
    returns (ok: bool)
    requires bi.Valid() && DepsInRange(bi.fifoDeps, bi.numTasks) && newDeps == 2 * |bi.fifoDeps|
    requires DepsIntact(bi.producers, bi.consumers, bi.opCount, bi.fifoDeps)
    requires Extended(bi.producers, bi.consumers, bi.fifoDeps, p0, c0)
    requires |u0| == |w0| == bi.numTasks && Inverse(u0, p0) && Inverse(w0, c0)
    modifies bi`producers, bi`consumers, bi`updates, bi`waits, bi`fifoDeps
    ensures ok && bi.Valid() && bi.fifoDeps == []
    ensures bi.producers == p0 && bi.consumers == c0 && bi.updates == u0 && bi.waits == w0
  {
    assert bi.producers[..bi.opCount] == p0 && bi.consumers[..bi.opCount] == c0;
    var cleared, removed := RemoveDependencies(bi);
    ok := cleared && newDeps == removed;
    BarrierEdits.InverseUnique(bi.updates, u0, bi.producers);
    BarrierEdits.InverseUnique(bi.waits, w0, bi.consumers);
  }

  /** `buildTaskControlMap`: rows of tasks that run after a task by barriers and, with `fifo`, by queue order. Exactly
      the recorded paths count, whatever the direction of the edges. The temporary barriers used on the way leave no
      trace. */
  method BuildTaskControlMap(bi: BarrierInfo, k: nat, fifo: bool, ignoreOutside: bool)
    returns (ok: bool, rows: IndexSets)
    requires bi.Valid() && bi.fifoDeps == [] && k < bi.BlockCount()
    modifies bi`producers, bi`consumers, bi`updates, bi`waits, bi`fifoDeps
    ensures ok <==> ignoreOutside ||
                    !LinksOutside(old(bi.Graph()), bi.BlockLo(k), bi.BlockHi(k), bi.IsSyncPoint(bi.BlockHi(k)))
    ensures ok ==> bi.Valid() && bi.fifoDeps == []
    ensures ok ==> bi.producers == old(bi.producers) && bi.consumers == old(bi.consumers)
    ensures ok ==> bi.updates == old(bi.updates) && bi.waits == old(bi.waits)
    ensures ok ==> IsBlockMap(bi, rows, old(bi.Graph()), k, fifo)
  {
    var lo, hi := bi.BlockLo(k), bi.BlockHi(k);
    ghost var g, f := bi.Graph(), BlockFifo(bi, k, fifo, bi.Tracked());
    if fifo {
      var active := set q | q in bi.trackedQueues;
      assert active == bi.Tracked();
      var newDeps := CreateDependencies(bi, bi.BlockFrom(k), bi.BlockLast(k), active);
      ghost var d := RecordedEdges(bi.fifoDeps);
      QueuesStayInside(bi, k, g, d, active);
      ok, rows := BuildMap(bi, lo, hi, ignoreOutside);
      if ok {
        RowsWithQueues(rows, g, d, f, bi.numTasks, lo, hi);
        DepsWithinBlock(bi, k, bi.fifoDeps, active);
        ok := RestoreMaps(bi, newDeps, old(bi.producers), old(bi.consumers), old(bi.updates), old(bi.waits));
      }
    } else {
      ok, rows := BuildMap(bi, lo, hi, ignoreOutside);
      assert g + f == g;
    }
  }

  lemma DepsWithinBlock(bi: BarrierInfo, k: nat, deps: seq<FifoDep>, active: set<nat>)
    requires bi.ValidConfig() && k < bi.BlockCount() && RecordedEdges(deps) <= BlockFifo(bi, k, true, active)
    ensures DepsInRange(deps, bi.numTasks)
  {
    FifoInBlock(bi, k, active);
    forall i | 0 <= i < |deps|
      ensures deps[i].parent < bi.numTasks && deps[i].child < bi.numTasks
    {
      assert (deps[i].parent, deps[i].child) in RecordedEdges(deps);
    }
  }

  /** `controlPathExistsBetweenTasksInSameBlock` on a map of the right block. */
  predicate ControlPathExists(rows: IndexSets, a: nat, b: nat, biDirection: bool)
    requires a < |rows| && b < |rows|
  {
    a == b || b in rows[a] || (biDirection && a in rows[b])
  }
}
