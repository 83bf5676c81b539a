/** What sharing barriers along the queues makes of the barriers each task uses. */
module SharedRows {
  import opened TaskGraph
  import opened Barriers
  import opened VariantBatches

  //
  // The barriers of a neighbour
  //

  /** The barriers of the first task of queue `q`, from `t` on, that has some. */
  function NextRow(rows: IndexSets, queue: seq<nat>, q: nat, t: nat): set<nat>
    requires |rows| == |queue| && t <= |rows|
    decreases |rows| - t
  {
    if t == |rows| then {}
    else if queue[t] == q && rows[t] != {} then rows[t]
    else NextRow(rows, queue, q, t + 1)
  }

  /** The barriers of the last task of queue `q` below `t` that has some. */
  function PrevRow(rows: IndexSets, queue: seq<nat>, q: nat, t: nat): set<nat>
    requires |rows| == |queue| && t <= |rows|
  {
    if t == 0 then {}
    else if queue[t - 1] == q && rows[t - 1] != {} then rows[t - 1]
    else PrevRow(rows, queue, q, t - 1)
  }

  /** The barriers of `u` or else of its closest neighbour in the direction of sharing: a later one for update barriers,
      an earlier one for wait barriers. */
  function Shared(rows: IndexSets, queue: seq<nat>, u: nat, waiting: bool): set<nat>
    requires |rows| == |queue| && u < |rows|
  {
    if waiting then PrevRow(rows, queue, queue[u], u + 1) else NextRow(rows, queue, queue[u], u)
  }

  /** The tasks of the queues in `done` share the barriers of their neighbours. */
  function Filled(rows: IndexSets, queue: seq<nat>, done: set<nat>, waiting: bool): IndexSets
    requires |rows| == |queue|
  {
    seq(|rows|, u requires 0 <= u < |rows| => if queue[u] in done then Shared(rows, queue, u, waiting) else rows[u])
  }

  lemma {:induction false} NextRowUser(rows: IndexSets, queue: seq<nat>, q: nat, t: nat) returns (v: nat)
    requires |rows| == |queue| && t <= |rows| && NextRow(rows, queue, q, t) != {}
    ensures t <= v < |rows| && queue[v] == q && rows[v] == NextRow(rows, queue, q, t)
    ensures forall x :: t <= x < v && queue[x] == q ==> rows[x] == {}
    decreases |rows| - t
  {
    v := t;
    if !(queue[t] == q && rows[t] != {}) {
      v := NextRowUser(rows, queue, q, t + 1);
    }
  }

  lemma {:induction false} NoNextRow(rows: IndexSets, queue: seq<nat>, q: nat, t: nat)
    requires |rows| == |queue| && t <= |rows|
    ensures NextRow(rows, queue, q, t) == {} <==> forall x :: t <= x < |rows| && queue[x] == q ==> rows[x] == {}
    decreases |rows| - t
  {
    if t < |rows| {
      NoNextRow(rows, queue, q, t + 1);
    }
  }

  lemma {:induction false} PrevRowUser(rows: IndexSets, queue: seq<nat>, q: nat, t: nat) returns (v: nat)
    requires |rows| == |queue| && t <= |rows| && PrevRow(rows, queue, q, t) != {}
    ensures v < t && queue[v] == q && rows[v] == PrevRow(rows, queue, q, t)
    ensures forall x :: v < x < t && queue[x] == q ==> rows[x] == {}
  {
    v := t - 1;
    if !(queue[t - 1] == q && rows[t - 1] != {}) {
      v := PrevRowUser(rows, queue, q, t - 1);
    }
  }

  lemma {:induction false} NoPrevRow(rows: IndexSets, queue: seq<nat>, q: nat, t: nat)
    requires |rows| == |queue| && t <= |rows|
    ensures PrevRow(rows, queue, q, t) == {} <==> forall x :: 0 <= x < t && queue[x] == q ==> rows[x] == {}
  {
    if t > 0 {
      NoPrevRow(rows, queue, q, t - 1);
    }
  }

  /** A shared barrier is one of some task `v` of the same queue, at or behind `u` in the direction of sharing. */
  lemma SharedUser(rows: IndexSets, queue: seq<nat>, u: nat, waiting: bool) returns (v: nat)
    requires |rows| == |queue| && u < |rows| && Shared(rows, queue, u, waiting) != {}
    ensures v < |rows| && queue[v] == queue[u] && rows[v] == Shared(rows, queue, u, waiting)
    ensures if waiting then v <= u else u <= v
  {
    if waiting {
      v := PrevRowUser(rows, queue, queue[u], u + 1);
    } else {
      v := NextRowUser(rows, queue, queue[u], u);
    }
  }

  lemma {:induction false} NextRowSame(rows: IndexSets, rows': IndexSets, queue: seq<nat>, q: nat, t: nat)
    requires |rows| == |rows'| == |queue| && t <= |rows|
    requires forall x :: 0 <= x < |rows| && queue[x] == q ==> rows'[x] == rows[x]
    ensures NextRow(rows', queue, q, t) == NextRow(rows, queue, q, t)
    decreases |rows| - t
  {
    if t < |rows| { NextRowSame(rows, rows', queue, q, t + 1); }
  }

  lemma {:induction false} PrevRowSame(rows: IndexSets, rows': IndexSets, queue: seq<nat>, q: nat, t: nat)
    requires |rows| == |rows'| == |queue| && t <= |rows|
    requires forall x :: 0 <= x < |rows| && queue[x] == q ==> rows'[x] == rows[x]
    ensures PrevRow(rows', queue, q, t) == PrevRow(rows, queue, q, t)
  {
    if t > 0 { PrevRowSame(rows, rows', queue, q, t - 1); }
  }

  /** The queues are filled one after the other. */
  lemma FilledOneMore(rows: IndexSets, queue: seq<nat>, done: set<nat>, q: nat, waiting: bool)
    requires |rows| == |queue| && q !in done
    ensures Filled(Filled(rows, queue, done, waiting), queue, {q}, waiting) == Filled(rows, queue, done + {q}, waiting)
  {
    var rows' := Filled(rows, queue, done, waiting);
    forall u | 0 <= u < |rows|
      ensures Filled(rows', queue, {q}, waiting)[u] == Filled(rows, queue, done + {q}, waiting)[u]
    {
      if queue[u] == q {
        if waiting { PrevRowSame(rows, rows', queue, q, u + 1); } else { NextRowSame(rows, rows', queue, q, u); }
      }
    }
  }

  /** Nothing is taken away. */
  lemma FilledGrows(rows: IndexSets, queue: seq<nat>, done: set<nat>, done': set<nat>, waiting: bool)
    requires |rows| == |queue| && done <= done'
    ensures forall u :: 0 <= u < |rows| ==>
              Filled(rows, queue, done, waiting)[u] <= Filled(rows, queue, done', waiting)[u]
  {
  }

  //
  // Completeness and order
  //

  /** On every queue of `done` no task without a barrier stands before one that has some (update barriers), or after one
      that has some (wait barriers). */
  lemma FilledComplete(rows: IndexSets, queue: seq<nat>, done: set<nat>, waiting: bool, u: nat, v: nat)
    requires |rows| == |queue| && u < |rows| && v < |rows| && queue[u] == queue[v] && queue[u] in done
    requires (if waiting then v <= u else u <= v) && Filled(rows, queue, done, waiting)[v] != {}
    ensures Filled(rows, queue, done, waiting)[u] != {}
  {
    var w := SharedUser(rows, queue, v, waiting);
    if waiting {
      NoPrevRow(rows, queue, queue[u], u + 1);
    } else {
      NoNextRow(rows, queue, queue[u], u);
    }
  }

  /** A task gains barriers only from a neighbour that the queue orders after it (update barriers) or before it (wait
      barriers), so sharing neither adds nor loses any order. */
  lemma FilledOrder(bi: BarrierInfo, u0: IndexSets, w0: IndexSets, p0: IndexSets, c0: IndexSets,
                    u: IndexSets, w: IndexSets, p: IndexSets, c: IndexSets)
    requires bi.ValidConfig() && |u0| == |w0| == bi.numTasks && |p0| == |c0| && |p| == |c|
    requires Inverse(u0, p0) && Inverse(w0, c0) && Inverse(u, p) && Inverse(w, c)
    requires u == Filled(u0, bi.queue, bi.Tracked(), false) && w == Filled(w0, bi.queue, bi.Tracked(), true)
    ensures var q := QueueEdges(bi.queue, bi.Tracked());
            SameOrder(BarrierEdges(p0, c0) + q, BarrierEdges(p, c) + q)
  {
    var q := QueueEdges(bi.queue, bi.Tracked());
    var e, f := BarrierEdges(p0, c0) + q, BarrierEdges(p, c) + q;
    forall x, y | (x, y) in e
      ensures Reach(f, x, y)
    {
      if (x, y) !in q {
        var b :| 0 <= b < |p0| && x in p0[b] && y in c0[b];
        assert b in u0[x] && b in w0[y];
        assert b in u[x] && b in w[y];
        assert x in p[b] && y in c[b];
      }
      EdgeReach(f, x, y);
    }
    EdgesKeepOrder(e, f);
    forall x, y | (x, y) in f
      ensures Reach(e, x, y)
    {
      if (x, y) in q {
        EdgeReach(e, x, y);
      } else {
        var b :| 0 <= b < |p| && x in p[b] && y in c[b];
        assert b in u[x] && b in w[y];
        FilledPair(bi, u0, w0, p0, c0, b, x, y);
      }
    }
    EdgesKeepOrder(f, e);
  }

  lemma FilledPair(bi: BarrierInfo, u0: IndexSets, w0: IndexSets, p0: IndexSets, c0: IndexSets, b: nat, x: nat, y: nat)
    requires bi.ValidConfig() && |u0| == |w0| == bi.numTasks && |p0| == |c0| && Inverse(u0, p0) && Inverse(w0, c0)
    requires x < bi.numTasks && y < bi.numTasks
    requires b in Filled(u0, bi.queue, bi.Tracked(), false)[x] && b in Filled(w0, bi.queue, bi.Tracked(), true)[y]
    ensures Reach(BarrierEdges(p0, c0) + QueueEdges(bi.queue, bi.Tracked()), x, y)
  {
    var q := QueueEdges(bi.queue, bi.Tracked());
    var e := BarrierEdges(p0, c0) + q;
    var x', y' := x, y;
    if bi.queue[x] in bi.Tracked() { x' := SharedUser(u0, bi.queue, x, false); }
    if bi.queue[y] in bi.Tracked() { y' := SharedUser(w0, bi.queue, y, true); }
    assert b in u0[x'] && b in w0[y'];
    assert x' in p0[b] && y' in c0[b];
    EdgeReach(e, x', y');
    if x != x' {
      assert (x, x') in q;
      EdgeReach(e, x, x');
      ReachTrans(e, x, x', y');
    }
    if y != y' {
      assert (y', y) in q;
      EdgeReach(e, y', y);
      ReachTrans(e, x, y', y);
    }
  }

  //
  // Barriers that get too large
  //

  function Users(rows: IndexSets, b: nat): set<nat>
  {
    set u: nat | u < |rows| && b in rows[u]
  }

  /** Some barrier that a task without barriers shares has too many users. */
  ghost predicate Overfull(slots: seq<nat>, rows0: IndexSets, rows: IndexSets, available: nat)
  {
    exists u, b :: 0 <= u < |rows0| && u < |rows| && b in rows[u] && Grown(slots, rows0, rows, available, u, b)
  }

  ghost predicate Grown(slots: seq<nat>, rows0: IndexSets, rows: IndexSets, available: nat, u: nat, b: nat)
    requires u < |rows0|
  {
    rows0[u] == {} && SlotSum(slots, Users(rows, b), |slots|) > available
  }

  /** The tasks gain the barriers. */
  ghost predicate Gained(rows: IndexSets, rows': IndexSets, tasks: set<nat>, bars: set<nat>)
  {
    && |rows| == |rows'|
    && forall u :: 0 <= u < |rows| ==> rows'[u] == if u in tasks then rows[u] + bars else rows[u]
  }

  /** A barrier that fits with its new users adds no overfull one. */
  lemma StillFits(slots: seq<nat>, rows0: IndexSets, rows: IndexSets, rows': IndexSets, tasks: set<nat>, b: nat,
                  available: nat)
    requires !Overfull(slots, rows0, rows, available) && Gained(rows, rows', tasks, {b}) && |rows0| == |rows|
    requires forall u :: u in tasks ==> u < |rows|
    requires SlotSum(slots, Users(rows, b) + tasks, |slots|) <= available
    ensures !Overfull(slots, rows0, rows', available)
  {
    assert Users(rows', b) == Users(rows, b) + tasks;
    forall u: nat, d | u < |rows0| && d in rows'[u]
      ensures !Grown(slots, rows0, rows', available, u, d)
    {
      if d != b {
        assert Users(rows', d) == Users(rows, d);
        assert !Grown(slots, rows0, rows, available, u, d);
      }
    }
  }

  /** A barrier that does not fit with its new users does not fit in the end either. */
  lemma IsOverfull(slots: seq<nat>, rows0: IndexSets, rows: IndexSets, full: IndexSets, tasks: set<nat>, b: nat,
                   available: nat)
    requires |rows0| == |rows| == |full| && tasks != {}
    requires forall u :: u in tasks ==> u < |rows| && b in full[u] && rows0[u] == {}
    requires forall u :: 0 <= u < |rows| ==> rows[u] <= full[u]
    requires SlotSum(slots, Users(rows, b) + tasks, |slots|) > available
    ensures Overfull(slots, rows0, full, available)
  {
    assert Users(rows, b) + tasks <= Users(full, b);
    SlotSumMono(slots, Users(rows, b) + tasks, Users(full, b), |slots|);
    var u :| u in tasks;
    assert Grown(slots, rows0, full, available, u, b);
  }

  //
  // The scan of one queue
  //

  /** The tasks passed so far: below `t` for update barriers, from `t` on for wait barriers. */
  predicate Passed(u: nat, t: nat, waiting: bool) { if waiting then u >= t else u < t }

  /** What a task at the front of the scan shares. */
  function Front(rows: IndexSets, queue: seq<nat>, q: nat, t: nat, waiting: bool): set<nat>
    requires |rows| == |queue| && t <= |rows|
  {
    if waiting then PrevRow(rows, queue, q, t) else NextRow(rows, queue, q, t)
  }

  /** The task the scan reaches next. */
  function At(t: nat, waiting: bool): (x: int) { if waiting then t - 1 else t }

  function After(t: nat, waiting: bool): (x: int) { if waiting then t - 1 else t + 1 }

  /** The passed tasks of queue `q` have their shared barriers, but those of `idle` still have none. */
  ghost predicate Scanned(rows0: IndexSets, rows: IndexSets, queue: seq<nat>, q: nat, t: nat, idle: set<nat>,
                          waiting: bool)
  {
    && |rows0| == |rows| == |queue| && t <= |queue|
    && (forall u {:trigger rows[u]} :: 0 <= u < |rows| ==>
          rows[u] ==
          if queue[u] == q && Passed(u, t, waiting) && u !in idle then Shared(rows0, queue, u, waiting) else rows0[u])
    && (forall u {:trigger u in idle} :: u in idle ==>
          u < |rows| && queue[u] == q && Passed(u, t, waiting) && rows0[u] == {} &&
          Shared(rows0, queue, u, waiting) == Front(rows0, queue, q, t, waiting))
  }

  /** The task is of another queue, or nothing waits for its barriers. */
  lemma ScanPass(rows0: IndexSets, rows: IndexSets, queue: seq<nat>, q: nat, t: nat, idle: set<nat>, waiting: bool)
    requires Scanned(rows0, rows, queue, q, t, idle, waiting) && 0 <= At(t, waiting) < |queue|
    requires queue[At(t, waiting)] == q ==> rows[At(t, waiting)] != {} && idle == {}
    ensures Scanned(rows0, rows, queue, q, After(t, waiting), idle, waiting)
  {
  }

  lemma ScanIdle(rows0: IndexSets, rows: IndexSets, queue: seq<nat>, q: nat, t: nat, idle: set<nat>, waiting: bool)
    requires Scanned(rows0, rows, queue, q, t, idle, waiting) && 0 <= At(t, waiting) < |queue|
    requires queue[At(t, waiting)] == q && rows[At(t, waiting)] == {}
    ensures Scanned(rows0, rows, queue, q, After(t, waiting), idle + {At(t, waiting)}, waiting)
  {
  }

  lemma ScanJoin(rows0: IndexSets, rows: IndexSets, rows': IndexSets, queue: seq<nat>, q: nat, t: nat, idle: set<nat>,
                 waiting: bool)
    requires Scanned(rows0, rows, queue, q, t, idle, waiting) && 0 <= At(t, waiting) < |queue|
    requires queue[At(t, waiting)] == q && rows[At(t, waiting)] != {}
    requires Gained(rows, rows', idle, rows[At(t, waiting)])
    ensures Scanned(rows0, rows', queue, q, After(t, waiting), {}, waiting)
  {
    var x := At(t, waiting);
    assert rows[x] == rows0[x] == Front(rows0, queue, q, t, waiting);
    forall u | 0 <= u < |rows| && u in idle
      ensures rows'[u] == Shared(rows0, queue, u, waiting)
    {
      assert rows[u] == {};
    }
  }

  lemma ScanDone(rows0: IndexSets, rows: IndexSets, queue: seq<nat>, q: nat, t: nat, idle: set<nat>, waiting: bool)
    requires Scanned(rows0, rows, queue, q, t, idle, waiting) && t == if waiting then 0 else |queue|
    ensures rows == Filled(rows0, queue, {q}, waiting)
  {
  }

  /** In between, no task has more barriers than in the end. */
  lemma ScanBelow(rows0: IndexSets, rows: IndexSets, queue: seq<nat>, q: nat, t: nat, idle: set<nat>, waiting: bool)
    requires Scanned(rows0, rows, queue, q, t, idle, waiting)
    ensures forall u :: 0 <= u < |rows| ==> rows[u] <= Filled(rows0, queue, {q}, waiting)[u]
  {
  }
}
