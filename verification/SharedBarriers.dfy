/** `shareWaitAndUpdateBarriers`: tasks without barriers join the barriers of their neighbours on the same queue. */
module SharedBarriers {
  import opened TaskGraph
  import opened Barriers
  import opened BarrierEdits
  import opened VariantBatches
  import opened BatchChains
  import opened SharedJoin
  import opened SharedRows

  //
  // What every join keeps
  //

  /** Some barrier that had users has none any more. */
  ghost predicate EmptiedSome(p0: IndexSets, c0: IndexSets, p: IndexSets, c: IndexSets)
  {
    exists b :: 0 <= b < |p0| && b < |p| && Emptied(p0, c0, p, c, b)
  }

  ghost predicate Emptied(p0: IndexSets, c0: IndexSets, p: IndexSets, c: IndexSets, b: nat)
    requires b < |p0| && b < |p|
  {
    b < |c0| && b < |c| && (p0[b] != {} || c0[b] != {}) && p[b] == {} && c[b] == {}
  }

  /** Either some barrier gave way to a chain, or each barrier still has the sides it had. */
  ghost predicate Accounted(p0: IndexSets, c0: IndexSets, p: IndexSets, c: IndexSets, split: bool)
  {
    && |p0| == |c0| <= |p| == |c|
    && if split then EmptiedSome(p0, c0, p, c)
       else |p| == |p0| && forall b :: 0 <= b < |p| ==> (p[b] == {} <==> p0[b] == {}) && (c[b] == {} <==> c0[b] == {})
  }

  lemma AccountedStep(p0: IndexSets, c0: IndexSets, p: IndexSets, c: IndexSets, p': IndexSets, c': IndexSets, b: nat,
                    tasks: set<nat>, waiting: bool, batches: seq<set<nat>>, split: bool)
    requires Accounted(p0, c0, p, c, split) && Joined(p, c, p', c', b, tasks, waiting, batches) && batches != []
    requires if waiting then c[b] != {} else p[b] != {}
    ensures Accounted(p0, c0, p', c', split || |batches| > 1)
  {
    if split {
      var d :| 0 <= d < |p0| && d < |p| && Emptied(p0, c0, p, c, d);
      assert Emptied(p0, c0, p', c', d);
    } else if |batches| > 1 {
      assert Emptied(p0, c0, p', c', b);
    }
  }

  /** The four maps of a control graph. */
  datatype Maps = Maps(updates: IndexSets, waits: IndexSets, producers: IndexSets, consumers: IndexSets)

  ghost function MapsOf(bi: BarrierInfo): Maps
    reads bi
  {
    Maps(bi.updates, bi.waits, bi.producers, bi.consumers)
  }

  ghost predicate Consistent(bi: BarrierInfo, m: Maps)
  {
    && bi.ValidConfig() && |m.updates| == |m.waits| == bi.numTasks && |m.producers| == |m.consumers|
    && Inverse(m.updates, m.producers) && Inverse(m.waits, m.consumers)
  }

  /** Still a forward graph; what happened to the barriers of `m0`; and no order lost, if the guard held. */
  ghost predicate Kept(bi: BarrierInfo, m0: Maps, m: Maps, fine: bool, split: bool, available: nat)
  {
    && bi.ValidConfig() && Accounted(m0.producers, m0.consumers, m.producers, m.consumers, split)
    && Forward(BarrierEdges(m.producers, m.consumers))
    && (fine ==> Guarded(bi, m.producers, m.consumers, available) &&
                 KeepsOrder(BarrierEdges(m0.producers, m0.consumers), BarrierEdges(m.producers, m.consumers)))
  }

  /** Tasks of a queue that join the barriers of their neighbour `anchor`. */
  datatype Group = Group(tasks: set<nat>, anchor: nat, waiting: bool)

  ghost predicate Joins(bi: BarrierInfo, p: set<nat>, c: set<nat>, g: Group)
  {
    && g.tasks != {} && g.anchor in (if g.waiting then c else p)
    && forall t :: t in g.tasks ==> t < bi.numTasks && (if g.waiting then g.anchor < t else t < g.anchor)
  }

  lemma JoinedBefore(bi: BarrierInfo, p: IndexSets, c: IndexSets, b: nat, g: Group)
    requires |p| == |c| && b < |p| && Joins(bi, p[b], c[b], g) && Forward(BarrierEdges(p, c))
    ensures Before(Left(p[b], g.tasks, g.waiting), Right(c[b], g.tasks, g.waiting))
  {
    forall x, y | x in p[b] && y in c[b]
      ensures x < y
    {
      assert (x, y) in BarrierEdges(p, c);
    }
  }

  //
  // The rows of the side that grows
  //

  ghost function Rows(m: Maps, waiting: bool): IndexSets { if waiting then m.waits else m.updates }

  /** The tasks gained the barriers on the side that grows, the other side is unchanged. */
  ghost predicate SidesGained(m: Maps, m': Maps, g: Group, bars: set<nat>)
  {
    Rows(m', !g.waiting) == Rows(m, !g.waiting) && Gained(Rows(m, g.waiting), Rows(m', g.waiting), g.tasks, bars)
  }

  /** Nothing is too large so far; `full` are the rows to be reached from `base`, in which the tasks have no barriers.
      */
  ghost predicate Within(slots: seq<nat>, base: IndexSets, rows: IndexSets, full: IndexSets, available: nat)
  {
    && |base| == |rows| == |full| && !Overfull(slots, base, rows, available)
    && forall u :: 0 <= u < |rows| ==> rows[u] <= full[u]
  }

  ghost predicate Gaining(base: IndexSets, full: IndexSets, tasks: set<nat>, bars: set<nat>)
  {
    forall u :: u in tasks ==> u < |base| && u < |full| && base[u] == {} && bars <= full[u]
  }

  lemma GainedRows(rows: IndexSets, cols: IndexSets, rows': IndexSets, cols': IndexSets, b: nat, tasks: set<nat>)
    requires Inverse(rows, cols) && Inverse(rows', cols') && |rows| == |rows'| && b < |cols|
    requires cols' == cols[b := cols[b] + tasks] && forall t :: t in tasks ==> t < |rows|
    ensures Gained(rows, rows', tasks, {b})
  {
    forall u | 0 <= u < |rows|
      ensures rows'[u] == if u in tasks then rows[u] + {b} else rows[u]
    {
      forall k
        ensures k in rows'[u] <==> k in rows[u] || (u in tasks && k == b)
      {
        if k in rows'[u] { assert u in cols'[k]; }
        if k in rows[u] { assert u in cols[k] && u in cols'[k]; }
        if u in tasks && k == b { assert u in cols'[k]; }
      }
    }
  }

  lemma UsersAre(rows: IndexSets, cols: IndexSets, b: nat)
    requires Inverse(rows, cols) && b < |cols|
    ensures cols[b] == Users(rows, b)
  {
    forall u
      ensures u in cols[b] <==> u in Users(rows, b)
    {
      if u in cols[b] { assert b in rows[u]; }
      if u in Users(rows, b) { assert b in rows[u]; }
    }
  }

  //
  // Tasks that lose their barriers
  //

  /** Task `y` comes first among the consumers of each of its barriers. */
  ghost predicate FirstIn(c: IndexSets, y: nat)
  {
    forall b :: 0 <= b < |c| && y in c[b] ==> IsMin(c[b], y)
  }

  /** `y` has no new wait barriers, and none of `bars` any more. */
  ghost predicate Deprived(c0: IndexSets, c: IndexSets, y: nat, bars: set<nat>)
  {
    forall d :: 0 <= d < |c| && y in c[d] ==> d < |c0| && c[d] == c0[d] && d !in bars
  }

  /** Every task that does not fit and comes first everywhere, before the tasks, lost the barriers. */
  ghost predicate AllDeprived(slots: seq<nat>, c0: IndexSets, c: IndexSets, tasks: set<nat>, bars: set<nat>,
                              available: nat)
  {
    forall y {:trigger FirstIn(c0, y)} ::
      0 <= y < |slots| && slots[y] > available && FirstIn(c0, y) && Later(tasks, y) ==>
      Deprived(c0, c, y, bars)
  }

  ghost predicate Later(tasks: set<nat>, y: nat)
  {
    forall t :: t in tasks ==> y < t
  }

  /** Only the tasks gain wait barriers. */
  ghost predicate OthersIdle(w0: IndexSets, w: IndexSets, tasks: set<nat>)
  {
    |w0| == |w| && forall x :: 0 <= x < |w0| && x !in tasks && w0[x] == {} ==> w[x] == {}
  }

  lemma DeprivedStep(slots: seq<nat>, c0: IndexSets, p: IndexSets, c: IndexSets, p': IndexSets, c': IndexSets, b: nat,
                     tasks: set<nat>, batches: seq<set<nat>>, available: nat, bars: set<nat>)
    requires AllDeprived(slots, c0, c, tasks, bars, available) && Joined(p, c, p', c', b, tasks, true, batches)
    requires b < |c| && LegalBatching(slots, batches, c[b] + tasks, available)
    ensures AllDeprived(slots, c0, c', tasks, bars + {b}, available)
  {
    forall y {:trigger FirstIn(c0, y)} | 0 <= y < |slots| && slots[y] > available && FirstIn(c0, y) && Later(tasks, y)
      ensures Deprived(c0, c', y, bars + {b})
    {
      assert Deprived(c0, c, y, bars);
      FirstLosesBarrier(slots, p, c, p', c', b, tasks, batches, available, y);
    }
  }

  lemma OthersStayIdle(w: IndexSets, p: IndexSets, c: IndexSets, w': IndexSets, p': IndexSets, c': IndexSets, b: nat,
                       tasks: set<nat>, batches: seq<set<nat>>)
    requires Inverse(w, c) && Inverse(w', c') && |w| == |w'| && Joined(p, c, p', c', b, tasks, true, batches)
    requires RunsOf(batches, c[b] + tasks)
    ensures OthersIdle(w, w', tasks)
  {
    forall x, d | 0 <= x < |w| && x !in tasks && d in w'[x]
      ensures w[x] != {}
    {
      assert x in c'[d];
      if d >= |c| {
        var parts := Parts(p[b], c[b], batches, true);
        var i := LinkBarrier(parts, |parts|, d - |c|);
        assert parts[i + 1] == batches[i] <= c[b] + tasks;
        assert b in w[x];
      } else {
        assert d in w[x];
      }
    }
  }

  //
  // All barriers of one task
  //

  /** The group joined the barriers of `done` and has those of `rest` still before it; `m0` are the maps before the
      whole pass, `m1` those before this group. */
  ghost predicate Joining(bi: BarrierInfo, m0: Maps, m1: Maps, m: Maps, g: Group, done: set<nat>, rest: set<nat>,
                          available: nat, fine: bool, before: bool, split: bool, base: IndexSets, full: IndexSets)
  {
    && Kept(bi, m0, m, fine, split, available) && AllUntouched(m1, m, rest)
    && RowsJoined(bi.slots, m1, m, g, done, available, before, split, base, full)
    && (g.waiting ==> WaitsJoined(bi.slots, m1, m, g.tasks, done, available))
  }

  /** As long as nothing is too large the tasks have just gained the barriers; something is exactly if it is in `full`.
      */
  ghost predicate RowsJoined(slots: seq<nat>, m1: Maps, m: Maps, g: Group, done: set<nat>, available: nat, before: bool,
                             split: bool, base: IndexSets, full: IndexSets)
  {
    && (before ==> split)
    && (!split ==> SidesGained(m1, m, g, done) && Within(slots, base, Rows(m, g.waiting), full, available))
    && (split && !before ==> Overfull(slots, base, full, available))
  }

  ghost predicate WaitsJoined(slots: seq<nat>, m1: Maps, m: Maps, tasks: set<nat>, done: set<nat>, available: nat)
  {
    OthersIdle(m1.waits, m.waits, tasks) && AllDeprived(slots, m1.consumers, m.consumers, tasks, done, available)
  }

  ghost predicate AllUntouched(m: Maps, m': Maps, bars: set<nat>)
  {
    forall b :: b in bars ==> Untouched(m, m', b)
  }

  ghost predicate Untouched(m: Maps, m': Maps, b: nat)
  {
    && b < |m.producers| && b < |m.consumers| && b < |m'.producers| && b < |m'.consumers|
    && m'.producers[b] == m.producers[b] && m'.consumers[b] == m.consumers[b]
  }

  /** What the group needs of each barrier it joins. */
  ghost predicate MayJoin(bi: BarrierInfo, m: Maps, g: Group, bars: set<nat>, available: nat, fine: bool, before: bool,
                          base: IndexSets, full: IndexSets)
  {
    && (forall b :: b in bars ==>
         b < |m.producers| && b < |m.consumers| && Joins(bi, m.producers[b], m.consumers[b], g))
    && (fine && g.waiting ==> forall b :: b in bars && b < |m.consumers| ==>
         FirstFits(bi.slots, m.consumers[b], available))
    && (!before ==> Gaining(base, full, g.tasks, bars))
  }

  lemma JoinKept(bi: BarrierInfo, m0: Maps, m: Maps, m': Maps, b: nat, g: Group, available: nat, fine: bool,
                 split: bool, batches: seq<set<nat>>)
    requires Kept(bi, m0, m, fine, split, available) && Consistent(bi, m') && b < |m.producers|
    requires Joins(bi, m.producers[b], m.consumers[b], g)
    requires Joined(m.producers, m.consumers, m'.producers, m'.consumers, b, g.tasks, g.waiting, batches)
    requires LegalBatching(bi.slots, batches, Side(m.producers[b], m.consumers[b], g.tasks, g.waiting), available)
    requires fine && g.waiting ==> FirstFits(bi.slots, m.consumers[b], available)
    ensures Kept(bi, m0, m', fine, split || |batches| > 1, available)
  {
    var p, c, p', c' := m.producers, m.consumers, m'.producers, m'.consumers;
    AccountedStep(m0.producers, m0.consumers, p, c, p', c', b, g.tasks, g.waiting, batches, split);
    JoinedBefore(bi, p, c, b, g);
    JoinedForward(p, c, p', c', b, g.tasks, g.waiting, batches);
    if fine {
      if g.waiting { FirstStays(bi.slots, c[b], g.tasks, available, g.anchor); }
      JoinedKeepsOrder(bi.slots, p, c, p', c', b, g.tasks, g.waiting, batches, available);
      KeepsOrderTrans(BarrierEdges(m0.producers, m0.consumers), BarrierEdges(p, c), BarrierEdges(p', c'));
      GuardStays(bi, p, c, p', c', b, g.tasks, g.waiting, batches, available);
    }
  }

  /** The rows after a join that needs one batch only, and the target that a join with more batches exceeds. */
  lemma JoinRows(slots: seq<nat>, rows: IndexSets, cols: IndexSets, rows': IndexSets, b: nat, tasks: set<nat>,
                 bars: set<nat>, available: nat, base: IndexSets, full: IndexSets)
    requires Inverse(rows, cols) && b < |cols| && tasks != {} && Within(slots, base, rows, full, available)
    requires Gaining(base, full, tasks, bars) && b in bars
    ensures SlotSum(slots, cols[b] + tasks, |slots|) > available ==> Overfull(slots, base, full, available)
    ensures SlotSum(slots, cols[b] + tasks, |slots|) <= available && Gained(rows, rows', tasks, {b}) ==>
              Within(slots, base, rows', full, available)
  {
    UsersAre(rows, cols, b);
    if SlotSum(slots, cols[b] + tasks, |slots|) > available {
      IsOverfull(slots, base, rows, full, tasks, b, available);
    } else if Gained(rows, rows', tasks, {b}) {
      StillFits(slots, base, rows, rows', tasks, b, available);
    }
  }

  lemma JoinGained(bi: BarrierInfo, m: Maps, m': Maps, b: nat, g: Group, batches: seq<set<nat>>)
    requires Consistent(bi, m) && Consistent(bi, m') && |batches| == 1
    requires Joined(m.producers, m.consumers, m'.producers, m'.consumers, b, g.tasks, g.waiting, batches)
    requires Joins(bi, m.producers[b], m.consumers[b], g)
    ensures SidesGained(m, m', g, {b})
  {
    if g.waiting {
      assert m'.producers == m.producers;
      InverseUnique(m.updates, m'.updates, m.producers);
      GainedRows(m.waits, m.consumers, m'.waits, m'.consumers, b, g.tasks);
    } else {
      assert m'.consumers == m.consumers;
      InverseUnique(m.waits, m'.waits, m.consumers);
      GainedRows(m.updates, m.producers, m'.updates, m'.producers, b, g.tasks);
    }
  }

  lemma RowsStep(bi: BarrierInfo, m1: Maps, m: Maps, m': Maps, g: Group, done: set<nat>, rest: set<nat>, b: nat,
                 available: nat, before: bool, split: bool, base: IndexSets, full: IndexSets, batches: seq<set<nat>>)
    requires Consistent(bi, m) && Consistent(bi, m') && b in rest && b < |m.producers|
    requires RowsJoined(bi.slots, m1, m, g, done, available, before, split, base, full)
    requires Joins(bi, m.producers[b], m.consumers[b], g) && (!before ==> Gaining(base, full, g.tasks, rest))
    requires Joined(m.producers, m.consumers, m'.producers, m'.consumers, b, g.tasks, g.waiting, batches)
    requires batches != []
    requires |batches| == 1 <==>
               SlotSum(bi.slots, Side(m.producers[b], m.consumers[b], g.tasks, g.waiting), |bi.slots|) <= available
    ensures RowsJoined(bi.slots, m1, m', g, done + {b}, available, before, split || |batches| > 1, base, full)
  {
    if !split {
      if |batches| == 1 {
        JoinGained(bi, m, m', b, g, batches);
        GainedMore(m1, m, m', g, done, b);
      }
      JoinRows(bi.slots, Rows(m, g.waiting), if g.waiting then m.consumers else m.producers, Rows(m', g.waiting), b,
               g.tasks, rest, available, base, full);
    }
  }

  lemma WaitsStep(bi: BarrierInfo, m1: Maps, m: Maps, m': Maps, tasks: set<nat>, done: set<nat>, b: nat, available: nat,
                  batches: seq<set<nat>>)
    requires Consistent(bi, m) && Consistent(bi, m') && b < |m.consumers|
    requires WaitsJoined(bi.slots, m1, m, tasks, done, available)
    requires Joined(m.producers, m.consumers, m'.producers, m'.consumers, b, tasks, true, batches)
    requires LegalBatching(bi.slots, batches, m.consumers[b] + tasks, available)
    ensures WaitsJoined(bi.slots, m1, m', tasks, done + {b}, available)
  {
    OthersStayIdle(m.waits, m.producers, m.consumers, m'.waits, m'.producers, m'.consumers, b, tasks, batches);
    DeprivedStep(bi.slots, m1.consumers, m.producers, m.consumers, m'.producers, m'.consumers, b, tasks, batches,
                 available, done);
  }

  lemma UntouchedStep(m1: Maps, m: Maps, m': Maps, g: Group, rest: set<nat>, b: nat, batches: seq<set<nat>>)
    requires AllUntouched(m1, m, rest) && b in rest
    requires Joined(m.producers, m.consumers, m'.producers, m'.consumers, b, g.tasks, g.waiting, batches)
    ensures AllUntouched(m1, m', rest - {b})
  {
    forall d | d in rest - {b}
      ensures Untouched(m1, m', d)
    {
      assert Untouched(m1, m, d);
    }
  }

  /** One more barrier joined. */
  lemma JoinStep(bi: BarrierInfo, m0: Maps, m1: Maps, m: Maps, m': Maps, g: Group, bars: set<nat>, done: set<nat>,
                 rest: set<nat>, b: nat, available: nat, fine: bool, before: bool, split: bool, base: IndexSets,
                 full: IndexSets, batches: seq<set<nat>>)
    requires Joining(bi, m0, m1, m, g, done, rest, available, fine, before, split, base, full) && b in rest
    requires MayJoin(bi, m1, g, bars, available, fine, before, base, full) && done == bars - rest && rest <= bars
    requires Consistent(bi, m) && Consistent(bi, m')
    requires Joined(m.producers, m.consumers, m'.producers, m'.consumers, b, g.tasks, g.waiting, batches)
    requires LegalBatching(bi.slots, batches, Side(m.producers[b], m.consumers[b], g.tasks, g.waiting), available)
    ensures Joining(bi, m0, m1, m', g, done + {b}, rest - {b}, available, fine, before, split || |batches| > 1, base,
                    full)
    ensures done + {b} == bars - (rest - {b}) && rest - {b} <= bars
  {
    assert Untouched(m1, m, b);
    JoinKept(bi, m0, m, m', b, g, available, fine, split, batches);
    UntouchedStep(m1, m, m', g, rest, b, batches);
    RowsStep(bi, m1, m, m', g, done, rest, b, available, before, split, base, full, batches);
    if g.waiting { WaitsStep(bi, m1, m, m', g.tasks, done, b, available, batches); }
  }

  lemma GainedMore(m1: Maps, m: Maps, m': Maps, g: Group, done: set<nat>, b: nat)
    requires SidesGained(m1, m, g, done) && SidesGained(m, m', g, {b})
    ensures SidesGained(m1, m', g, done + {b})
  {
    var rows, rows', rows1 := Rows(m, g.waiting), Rows(m', g.waiting), Rows(m1, g.waiting);
    forall u | 0 <= u < |rows1|
      ensures rows'[u] == if u in g.tasks then rows1[u] + (done + {b}) else rows1[u]
    {
      assert rows[u] == if u in g.tasks then rows1[u] + done else rows1[u];
    }
  }

  lemma JoinNone(bi: BarrierInfo, m0: Maps, m: Maps, g: Group, bars: set<nat>, available: nat, fine: bool, before: bool,
                 base: IndexSets, full: IndexSets)
    requires Kept(bi, m0, m, fine, before, available) && MayJoin(bi, m, g, bars, available, fine, before, base, full)
    requires !before ==> Within(bi.slots, base, Rows(m, g.waiting), full, available)
    ensures Joining(bi, m0, m, m, g, {}, bars, available, fine, before, before, base, full)
  {
  }

  //
  // The run, join by join
  //

  /** The tasks join barrier `b`. */
  ghost predicate JoinedOne(bi: BarrierInfo, m: Maps, m': Maps, b: nat, tasks: set<nat>, waiting: bool, available: nat)
  {
    && Consistent(bi, m') && b < |m.producers| == |m.consumers|
    && exists batches ::
         LegalBatching(bi.slots, batches, Side(m.producers[b], m.consumers[b], tasks, waiting), available) &&
         Joined(m.producers, m.consumers, m'.producers, m'.consumers, b, tasks, waiting, batches)
  }

  /** The tasks join the barriers of the list one by one. */
  ghost predicate JoinedList(bi: BarrierInfo, m: Maps, m': Maps, list: seq<nat>, tasks: set<nat>, waiting: bool,
                             available: nat)
    decreases |list|
  {
    if list == [] then m' == m
    else exists n :: JoinedList(bi, m, n, Front(list), tasks, waiting, available) &&
                     JoinedOne(bi, n, m', list[|list| - 1], tasks, waiting, available)
  }

  ghost function Front(list: seq<nat>): seq<nat>
    requires list != []
  {
    list[..|list| - 1]
  }

  ghost predicate FromTo(states: seq<Maps>, m: Maps, m': Maps)
  {
    states != [] && states[0] == m && states[|states| - 1] == m'
  }

  ghost predicate ListOf(list: seq<nat>, s: set<nat>)
  {
    |list| == |s| && forall b: nat :: b in list <==> b in s
  }

  /** The tasks join all barriers of the set, in the order in which it is iterated. */
  ghost predicate JoinedAll(bi: BarrierInfo, m: Maps, m': Maps, bars: set<nat>, tasks: set<nat>, waiting: bool,
                            available: nat)
  {
    exists list :: JoinedList(bi, m, m', list, tasks, waiting, available) && ListOf(list, bars)
  }

  /** Task `x` is visited: if it is on queue `q` it starts to wait for a neighbour, or the waiting tasks join its
      barriers. */
  ghost predicate Visited(bi: BarrierInfo, q: nat, m: Maps, idle: set<nat>, m': Maps, idle': set<nat>, x: nat,
                          waiting: bool, available: nat)
    requires bi.ValidConfig()
  {
    && x < bi.numTasks == |Rows(m, waiting)|
    && var bars := Rows(m, waiting)[x];
       if bi.queue[x] != q then m' == m && idle' == idle
       else if bars == {} then m' == m && idle' == idle + {x}
       else idle' == {} && if idle == {} then m' == m else JoinedAll(bi, m, m', bars, idle, waiting, available)
  }

  /** A scan of the tasks, upwards for update barriers and downwards for wait barriers. */
  ghost predicate Scan(bi: BarrierInfo, q: nat, states: seq<Maps>, idles: seq<set<nat>>, waiting: bool, available: nat)
    requires bi.ValidConfig()
  {
    && |idles| == |states| <= bi.numTasks + 1
    && forall i :: 0 <= i && i + 1 < |states| ==>
         Visited(bi, q, states[i], idles[i], states[i + 1], idles[i + 1], if waiting then bi.numTasks - 1 - i else i,
                 waiting, available)
  }

  ghost predicate ScannedBy(bi: BarrierInfo, q: nat, m: Maps, m': Maps, waiting: bool, available: nat)
    requires bi.ValidConfig()
  {
    exists states, idles: seq<set<nat>> ::
      FromTo(states, m, m') && |states| == bi.numTasks + 1 && Scan(bi, q, states, idles, waiting, available) &&
      idles[0] == {}
  }

  /** One queue: first its update barriers, then its wait barriers. */
  ghost predicate QueueDone(bi: BarrierInfo, q: nat, m: Maps, m': Maps, available: nat)
    requires bi.ValidConfig()
  {
    exists n :: ScannedBy(bi, q, m, n, false, available) && ScannedBy(bi, q, n, m', true, available)
  }

  ghost predicate QueuesDone(bi: BarrierInfo, states: seq<Maps>, available: nat)
    requires bi.ValidConfig()
  {
    && |states| <= |bi.trackedQueues| + 1
    && forall i :: 0 <= i && i + 1 < |states| ==>
         QueueDone(bi, bi.trackedQueues[i], states[i], states[i + 1], available)
  }

  /** One queue after the other. */
  ghost predicate AllDone(bi: BarrierInfo, m: Maps, m': Maps, available: nat)
    requires bi.ValidConfig()
  {
    exists states :: FromTo(states, m, m') && |states| == |bi.trackedQueues| + 1 && QueuesDone(bi, states, available)
  }

  lemma JoinNext(bi: BarrierInfo, m0: Maps, m: Maps, m': Maps, list: seq<nat>, done: set<nat>, b: nat,
                 tasks: set<nat>, waiting: bool, available: nat, batches: seq<set<nat>>)
    requires JoinedList(bi, m0, m, list, tasks, waiting, available) && ListOf(list, done) && b !in done
    requires Consistent(bi, m') && b < |m.producers| == |m.consumers|
    requires LegalBatching(bi.slots, batches, Side(m.producers[b], m.consumers[b], tasks, waiting), available)
    requires Joined(m.producers, m.consumers, m'.producers, m'.consumers, b, tasks, waiting, batches)
    ensures JoinedList(bi, m0, m', list + [b], tasks, waiting, available) && ListOf(list + [b], done + {b})
  {
    assert JoinedOne(bi, m, m', b, tasks, waiting, available);
    assert Front(list + [b]) == list;
  }

  lemma VisitNext(bi: BarrierInfo, q: nat, states: seq<Maps>, idles: seq<set<nat>>, m0: Maps, m: Maps, m': Maps,
                  idle': set<nat>, x: nat, waiting: bool, available: nat)
    requires bi.ValidConfig() && FromTo(states, m0, m) && Scan(bi, q, states, idles, waiting, available)
    requires x == if waiting then bi.numTasks - |states| else |states| - 1
    requires Visited(bi, q, m, idles[|idles| - 1], m', idle', x, waiting, available)
    ensures FromTo(states + [m'], m0, m') && Scan(bi, q, states + [m'], idles + [idle'], waiting, available)
  {
  }

  lemma QueueNext(bi: BarrierInfo, states: seq<Maps>, m0: Maps, m: Maps, m': Maps, available: nat)
    requires bi.ValidConfig() && FromTo(states, m0, m) && QueuesDone(bi, states, available)
    requires |states| <= |bi.trackedQueues| && QueueDone(bi, bi.trackedQueues[|states| - 1], m, m', available)
    ensures FromTo(states + [m'], m0, m') && QueuesDone(bi, states + [m'], available)
  {
  }

  /** The barriers of the list have been joined, those in `rest` are still to be. */
  ghost predicate Linking(bi: BarrierInfo, m0: Maps, m1: Maps, m: Maps, g: Group, bars: set<nat>, list: seq<nat>,
                          rest: set<nat>, available: nat, fine: bool, before: bool, split: bool, base: IndexSets,
                          full: IndexSets)
  {
    && rest <= bars && ListOf(list, bars - rest)
    && JoinedList(bi, m1, m, list, g.tasks, g.waiting, available)
    && Joining(bi, m0, m1, m, g, bars - rest, rest, available, fine, before, split, base, full)
  }

  lemma LinkingStarts(bi: BarrierInfo, m0: Maps, m: Maps, g: Group, bars: set<nat>, available: nat, fine: bool,
                      before: bool, base: IndexSets, full: IndexSets)
    requires Kept(bi, m0, m, fine, before, available) && MayJoin(bi, m, g, bars, available, fine, before, base, full)
    requires !before ==> Within(bi.slots, base, Rows(m, g.waiting), full, available)
    ensures Linking(bi, m0, m, m, g, bars, [], bars, available, fine, before, before, base, full)
  {
    assert bars - bars == {};
    JoinNone(bi, m0, m, g, bars, available, fine, before, base, full);
  }

  lemma LinkingEnds(bi: BarrierInfo, m0: Maps, m1: Maps, m: Maps, g: Group, bars: set<nat>, list: seq<nat>,
                    available: nat, fine: bool, before: bool, split: bool, base: IndexSets, full: IndexSets)
    requires Linking(bi, m0, m1, m, g, bars, list, {}, available, fine, before, split, base, full)
    ensures Joining(bi, m0, m1, m, g, bars, {}, available, fine, before, split, base, full)
    ensures JoinedAll(bi, m1, m, bars, g.tasks, g.waiting, available)
  {
    assert bars - {} == bars;
  }

  /** One barrier of `linkTasksToBarriers` */
  method JoinNextBarrier(bi: BarrierInfo, b: nat, tasks: set<nat>, waiting: bool, available: nat, ghost bars: set<nat>,
                         ghost g: Group, ghost m0: Maps, ghost m1: Maps, ghost list: seq<nat>, ghost rest: set<nat>,
                         ghost fine: bool, ghost before: bool, ghost split: bool, ghost base: IndexSets,
                         ghost full: IndexSets) returns (ghost split': bool)
    requires bi.Valid() && bi.fifoDeps == [] && tasks != {} && b in rest && g.tasks == tasks && g.waiting == waiting
    requires MayJoin(bi, m1, g, bars, available, fine, before, base, full)
    requires Linking(bi, m0, m1, MapsOf(bi), g, bars, list, rest, available, fine, before, split, base, full)
    modifies bi`producers, bi`consumers, bi`updates, bi`waits, bi`opCount
    ensures bi.Valid()
    ensures Linking(bi, m0, m1, MapsOf(bi), g, bars, list + [b], rest - {b}, available, fine, before, split', base,
                    full)
  {
    ghost var m, done := MapsOf(bi), bars - rest;
    ghost var batches := JoinBarrier(bi, b, tasks, waiting, available);
    JoinStep(bi, m0, m1, m, MapsOf(bi), g, bars, done, rest, b, available, fine, before, split, base, full, batches);
    JoinNext(bi, m1, m, MapsOf(bi), list, done, b, tasks, waiting, available, batches);
    split' := split || |batches| > 1;
  }

  /** `linkTasksToBarriers` */
  method JoinBarriers(bi: BarrierInfo, bars: set<nat>, tasks: set<nat>, ghost anchor: nat, waiting: bool,
                      available: nat, ghost m0: Maps, ghost fine: bool, ghost before: bool, ghost base: IndexSets,
                      ghost full: IndexSets)
    returns (ghost split: bool)
    requires bi.Valid() && bi.fifoDeps == [] && Kept(bi, m0, MapsOf(bi), fine, before, available) && tasks != {}
    requires MayJoin(bi, MapsOf(bi), Group(tasks, anchor, waiting), bars, available, fine, before, base, full)
    requires !before ==> Within(bi.slots, base, Rows(MapsOf(bi), waiting), full, available)
    modifies bi`producers, bi`consumers, bi`updates, bi`waits, bi`opCount
    ensures bi.Valid()
    ensures Joining(bi, m0, old(MapsOf(bi)), MapsOf(bi), Group(tasks, anchor, waiting), bars, {}, available, fine,
                    before, split, base, full)
    ensures JoinedAll(bi, old(MapsOf(bi)), MapsOf(bi), bars, tasks, waiting, available)
  {
    ghost var m1, g, list: seq<nat> := MapsOf(bi), Group(tasks, anchor, waiting), [];
    split := before;
    var rest := bars;
    LinkingStarts(bi, m0, m1, g, bars, available, fine, before, base, full);
    while rest != {}
      invariant bi.Valid() && bi.fifoDeps == []
      invariant Linking(bi, m0, m1, MapsOf(bi), g, bars, list, rest, available, fine, before, split, base, full)
      decreases rest
    {
      var b :| b in rest;
      split := JoinNextBarrier(bi, b, tasks, waiting, available, bars, g, m0, m1, list, rest, fine, before, split, base,
                               full);
      rest, list := rest - {b}, list + [b];
    }
    LinkingEnds(bi, m0, m1, MapsOf(bi), g, bars, list, available, fine, before, split, base, full);
  }

  //
  // All tasks of one queue
  //

  /** The waiting tasks: on queue `q`, passed, without barriers, and closest to the front of the scan. */
  ghost predicate IdleAt(rows: IndexSets, queue: seq<nat>, q: nat, t: nat, idle: set<nat>, waiting: bool)
  {
    && |rows| == |queue| && (forall u :: u in idle ==>
         u < |rows| && queue[u] == q && Passed(u, t, waiting) && rows[u] == {})
    && (forall u, v :: u in idle && 0 <= v < |rows| && queue[v] == q && Passed(v, t, waiting) && v !in idle ==>
          if waiting then u < v else v < u)
  }

  /** The scan of queue `q` has reached `t`; `m1` are the maps at its start. */
  ghost predicate Stage(bi: BarrierInfo, m0: Maps, m1: Maps, m: Maps, q: nat, t: nat, idle: set<nat>, waiting: bool,
                        available: nat, fine: bool, before: bool, split: bool, base: IndexSets, full: IndexSets)
  {
    && Kept(bi, m0, m, fine, split, available) && IdleAt(Rows(m, waiting), bi.queue, q, t, idle, waiting)
    && RowsScanned(bi, m1, m, q, t, idle, waiting, available, before, split, base, full)
  }

  ghost predicate RowsScanned(bi: BarrierInfo, m1: Maps, m: Maps, q: nat, t: nat, idle: set<nat>, waiting: bool,
                              available: nat, before: bool, split: bool, base: IndexSets, full: IndexSets)
  {
    && (before ==> split)
    && (!split ==> Rows(m, !waiting) == Rows(m1, !waiting) && !Overfull(bi.slots, base, Rows(m, waiting), available) &&
                   Scanned(Rows(m1, waiting), Rows(m, waiting), bi.queue, q, t, idle, waiting))
    && (split && !before ==> Overfull(bi.slots, base, full, available))
  }

  /** The rows to be reached include what queue `q` is about to share, and its tasks start with the rows of `base`. */
  ghost predicate StageGoal(bi: BarrierInfo, rows: IndexSets, q: nat, waiting: bool, available: nat, base: IndexSets,
                            full: IndexSets)
  {
    && |base| == |full| == |rows| == |bi.queue| && !Overfull(bi.slots, base, rows, available)
    && (forall u :: 0 <= u < |rows| && bi.queue[u] == q ==> rows[u] == base[u])
    && (forall u :: 0 <= u < |rows| ==> Filled(rows, bi.queue, {q}, waiting)[u] <= full[u])
  }

  lemma StageStart(bi: BarrierInfo, m0: Maps, m: Maps, q: nat, t: nat, waiting: bool, available: nat, fine: bool,
                   before: bool, base: IndexSets, full: IndexSets)
    requires Consistent(bi, m) && Kept(bi, m0, m, fine, before, available) && t == if waiting then |bi.queue| else 0
    requires !before ==> StageGoal(bi, Rows(m, waiting), q, waiting, available, base, full)
    ensures Stage(bi, m0, m, m, q, t, {}, waiting, available, fine, before, before, base, full)
  {
  }

  lemma StagePass(bi: BarrierInfo, m0: Maps, m1: Maps, m: Maps, q: nat, t: nat, idle: set<nat>, waiting: bool,
                  available: nat, fine: bool, before: bool, split: bool, base: IndexSets, full: IndexSets)
    requires Stage(bi, m0, m1, m, q, t, idle, waiting, available, fine, before, split, base, full)
    requires 0 <= At(t, waiting) < |bi.queue|
    requires bi.queue[At(t, waiting)] == q ==> Rows(m, waiting)[At(t, waiting)] != {} && idle == {}
    ensures Stage(bi, m0, m1, m, q, After(t, waiting), idle, waiting, available, fine, before, split, base, full)
  {
    if !split { ScanPass(Rows(m1, waiting), Rows(m, waiting), bi.queue, q, t, idle, waiting); }
  }

  lemma StageIdle(bi: BarrierInfo, m0: Maps, m1: Maps, m: Maps, q: nat, t: nat, idle: set<nat>, waiting: bool,
                  available: nat, fine: bool, before: bool, split: bool, base: IndexSets, full: IndexSets)
    requires Stage(bi, m0, m1, m, q, t, idle, waiting, available, fine, before, split, base, full)
    requires 0 <= At(t, waiting) < |bi.queue|
    requires bi.queue[At(t, waiting)] == q && Rows(m, waiting)[At(t, waiting)] == {}
    ensures Stage(bi, m0, m1, m, q, After(t, waiting), idle + {At(t, waiting)}, waiting, available, fine, before, split,
                  base, full)
  {
    if !split { ScanIdle(Rows(m1, waiting), Rows(m, waiting), bi.queue, q, t, idle, waiting); }
  }

  /** The guard makes every barrier that is about to gain consumers safe. */
  lemma AnchorFits(bi: BarrierInfo, m: Maps, q: nat, t: nat, idle: set<nat>, available: nat)
    requires Consistent(bi, m) && Guarded(bi, m.producers, m.consumers, available) && q in bi.Tracked()
    requires 0 < t <= |bi.queue| && bi.queue[t - 1] == q && idle != {} && IdleAt(m.waits, bi.queue, q, t, idle, true)
    ensures FirstsFit(bi.slots, m.consumers, t - 1, available)
  {
    var u := MinOf(idle);
    assert Neighbours(bi, t - 1, u);
    assert forall b :: 0 <= b < |m.consumers| && u in m.consumers[b] ==> b in m.waits[u];
  }

  lemma StageMayJoin(bi: BarrierInfo, m0: Maps, m1: Maps, m: Maps, q: nat, t: nat, idle: set<nat>, waiting: bool,
                     available: nat, fine: bool, before: bool, split: bool, base: IndexSets, full: IndexSets)
    requires Stage(bi, m0, m1, m, q, t, idle, waiting, available, fine, before, split, base, full) && q in bi.Tracked()
    requires Consistent(bi, m) && 0 <= At(t, waiting) < |bi.queue| && bi.queue[At(t, waiting)] == q && idle != {}
    requires !before ==> StageGoal(bi, Rows(m1, waiting), q, waiting, available, base, full)
    ensures MayJoin(bi, m, Group(idle, At(t, waiting), waiting), Rows(m, waiting)[At(t, waiting)], available, fine,
                    split, base, full)
    ensures !split ==> Within(bi.slots, base, Rows(m, waiting), full, available)
  {
    var x, rows := At(t, waiting), Rows(m, waiting);
    forall b | b in rows[x]
      ensures b < |m.producers| && b < |m.consumers|
      ensures Joins(bi, m.producers[b], m.consumers[b], Group(idle, x, waiting))
    {
    }
    if fine && waiting { AnchorFits(bi, m, q, t, idle, available); }
    if !split {
      ScanBelow(Rows(m1, waiting), rows, bi.queue, q, t, idle, waiting);
      StageGaining(bi, Rows(m1, waiting), rows, q, t, idle, waiting, available, base, full);
    }
  }

  lemma StageGaining(bi: BarrierInfo, rows1: IndexSets, rows: IndexSets, q: nat, t: nat, idle: set<nat>, waiting: bool,
                     available: nat, base: IndexSets, full: IndexSets)
    requires Scanned(rows1, rows, bi.queue, q, t, idle, waiting) && 0 <= At(t, waiting) < |bi.queue|
    requires bi.queue[At(t, waiting)] == q && StageGoal(bi, rows1, q, waiting, available, base, full)
    ensures Gaining(base, full, idle, rows[At(t, waiting)])
  {
    forall u | u in idle
      ensures u < |base| && base[u] == {} && rows[At(t, waiting)] <= full[u]
    {
      assert rows1[u] == {} && Filled(rows1, bi.queue, {q}, waiting)[u] <= full[u];
    }
  }

  lemma StageJoined(bi: BarrierInfo, m0: Maps, m1: Maps, m: Maps, m': Maps, q: nat, t: nat, idle: set<nat>,
                    waiting: bool, available: nat, fine: bool, before: bool, split: bool, split': bool, base: IndexSets,
                    full: IndexSets)
    requires Stage(bi, m0, m1, m, q, t, idle, waiting, available, fine, before, split, base, full)
    requires 0 <= At(t, waiting) < |bi.queue| && bi.queue[At(t, waiting)] == q && Rows(m, waiting)[At(t, waiting)] != {}
    requires |Rows(m, waiting)| == |Rows(m', waiting)| == |bi.queue|
    requires Joining(bi, m0, m, m', Group(idle, At(t, waiting), waiting), Rows(m, waiting)[At(t, waiting)], {},
                     available, fine, split, split', base, full)
    ensures Stage(bi, m0, m1, m', q, After(t, waiting), {}, waiting, available, fine, before, split', base, full)
  {
    if !split' {
      ScanJoin(Rows(m1, waiting), Rows(m, waiting), Rows(m', waiting), bi.queue, q, t, idle, waiting);
    }
  }

  /** Queue `q` is done. */
  ghost predicate StageDone(bi: BarrierInfo, m0: Maps, m1: Maps, m: Maps, q: nat, waiting: bool, available: nat,
                            fine: bool, before: bool, split: bool, base: IndexSets, full: IndexSets)
  {
    && Kept(bi, m0, m, fine, split, available) && (before ==> split)
    && (!split ==> Rows(m, !waiting) == Rows(m1, !waiting) && !Overfull(bi.slots, base, Rows(m, waiting), available) &&
                   |Rows(m1, waiting)| == |bi.queue| &&
                   Rows(m, waiting) == Filled(Rows(m1, waiting), bi.queue, {q}, waiting))
    && (split && !before ==> Overfull(bi.slots, base, full, available))
  }

  lemma StageEnd(bi: BarrierInfo, m0: Maps, m1: Maps, m: Maps, q: nat, t: nat, idle: set<nat>, waiting: bool,
                 available: nat, fine: bool, before: bool, split: bool, base: IndexSets, full: IndexSets)
    requires Stage(bi, m0, m1, m, q, t, idle, waiting, available, fine, before, split, base, full)
    requires t == if waiting then 0 else |bi.queue|
    ensures StageDone(bi, m0, m1, m, q, waiting, available, fine, before, split, base, full)
  {
    if !split { ScanDone(Rows(m1, waiting), Rows(m, waiting), bi.queue, q, t, idle, waiting); }
  }

  //
  // A task that loses all its wait barriers
  //

  /** The first task `y` of queue `q` does not fit, comes first among the consumers of each of its barriers, and the
      next task of the queue waits for nothing. */
  ghost predicate Stranded(bi: BarrierInfo, m: Maps, q: nat, y: nat, available: nat)
  {
    && Consistent(bi, m) && y < bi.numTasks && bi.queue[y] == q && bi.slots[y] > available && FirstIn(m.consumers, y)
    && (forall x :: 0 <= x < y ==> bi.queue[x] != q)
    && exists u: nat :: Neighbours(bi, y, u) && m.waits[u] == {}
  }

  /** The stranded tasks wait for nothing. */
  ghost predicate AllFreed(bi: BarrierInfo, m0: Maps, q: nat, available: nat, waits: IndexSets)
    requires |waits| == bi.numTasks
  {
    forall y :: 0 <= y < bi.numTasks && Stranded(bi, m0, q, y, available) ==> waits[y] == {}
  }

  ghost predicate StrandedAt(bi: BarrierInfo, m1: Maps, m: Maps, y: nat, t: nat, idle: set<nat>)
    requires |m1.waits| == |m.waits| == |bi.queue| && y < |bi.queue|
  {
    && (t > y ==> Deprived(m1.consumers, m.consumers, y, {})) && (t <= y ==> m.waits[y] == {})
    && forall u: nat :: Neighbours(bi, y, u) && m1.waits[u] == {} ==>
         (t > u ==> m.waits[u] == {}) && (y < t <= u ==> u in idle)
  }

  ghost predicate AllStranded(bi: BarrierInfo, m1: Maps, m: Maps, q: nat, t: nat, idle: set<nat>, available: nat)
  {
    |m1.waits| == |m.waits| == |bi.queue| == bi.numTasks &&
    forall y {:trigger Stranded(bi, m1, q, y, available)} ::
      0 <= y < bi.numTasks && Stranded(bi, m1, q, y, available) ==>
      StrandedAt(bi, m1, m, y, t, idle)
  }

  lemma StrandedPass(bi: BarrierInfo, m1: Maps, m: Maps, q: nat, t: nat, idle: set<nat>, available: nat)
    requires AllStranded(bi, m1, m, q, t, idle, available) && 0 < t <= |bi.queue|
    requires bi.queue[t - 1] == q ==> m.waits[t - 1] != {} && idle == {}
    ensures AllStranded(bi, m1, m, q, t - 1, idle, available)
  {
    forall y {:trigger Stranded(bi, m1, q, y, available)} | 0 <= y < bi.numTasks && Stranded(bi, m1, q, y, available)
      ensures StrandedAt(bi, m1, m, y, t - 1, idle)
    {
      assert StrandedAt(bi, m1, m, y, t, idle);
    }
  }

  lemma StrandedIdle(bi: BarrierInfo, m1: Maps, m: Maps, q: nat, t: nat, idle: set<nat>, available: nat)
    requires AllStranded(bi, m1, m, q, t, idle, available) && 0 < t <= |bi.queue|
    requires bi.queue[t - 1] == q && m.waits[t - 1] == {}
    ensures AllStranded(bi, m1, m, q, t - 1, idle + {t - 1}, available)
  {
    forall y {:trigger Stranded(bi, m1, q, y, available)} | 0 <= y < bi.numTasks && Stranded(bi, m1, q, y, available)
      ensures StrandedAt(bi, m1, m, y, t - 1, idle + {t - 1})
    {
      assert StrandedAt(bi, m1, m, y, t, idle);
    }
  }

  lemma StrandedJoin(bi: BarrierInfo, m1: Maps, m: Maps, m': Maps, q: nat, t: nat, idle: set<nat>, available: nat)
    requires AllStranded(bi, m1, m, q, t, idle, available) && 0 < t <= |bi.queue| && Consistent(bi, m)
    requires Consistent(bi, m')
    requires bi.queue[t - 1] == q && m.waits[t - 1] != {} && IdleAt(m.waits, bi.queue, q, t, idle, true)
    requires WaitsJoined(bi.slots, m, m', idle, m.waits[t - 1], available)
    ensures AllStranded(bi, m1, m', q, t - 1, {}, available)
  {
    forall y {:trigger Stranded(bi, m1, q, y, available)} | 0 <= y < bi.numTasks && Stranded(bi, m1, q, y, available)
      ensures StrandedAt(bi, m1, m', y, t - 1, {})
    {
      assert StrandedAt(bi, m1, m, y, t, idle);
      StrandedOne(bi, m1, m, m', q, t, idle, available, y);
    }
  }

  lemma StrandedOne(bi: BarrierInfo, m1: Maps, m: Maps, m': Maps, q: nat, t: nat, idle: set<nat>, available: nat,
                    y: nat)
    requires Stranded(bi, m1, q, y, available) && 0 < t <= |bi.queue| && Consistent(bi, m) && Consistent(bi, m')
    requires StrandedAt(bi, m1, m, y, t, idle)
    requires bi.queue[t - 1] == q && m.waits[t - 1] != {} && IdleAt(m.waits, bi.queue, q, t, idle, true)
    requires WaitsJoined(bi.slots, m, m', idle, m.waits[t - 1], available)
    ensures StrandedAt(bi, m1, m', y, t - 1, {})
  {
    assert t > y;
    assert FirstIn(m.consumers, y) && Later(idle, y);
    assert Deprived(m.consumers, m'.consumers, y, m.waits[t - 1]);
    if t - 1 == y {
      NoBarrierLeft(m', y, m.waits[y]);
    }
  }

  lemma NoBarrierLeft(m: Maps, y: nat, bars: set<nat>)
    requires Inverse(m.waits, m.consumers) && y < |m.waits|
    requires forall d :: 0 <= d < |m.consumers| && y in m.consumers[d] ==> d in bars && d !in bars
    ensures m.waits[y] == {}
  {
    assert forall d :: d in m.waits[y] ==> d !in bars;
  }

  lemma StrandedStart(bi: BarrierInfo, m: Maps, q: nat, available: nat)
    requires Consistent(bi, m)
    ensures AllStranded(bi, m, m, q, |bi.queue|, {}, available)
  {
  }

  //
  // The two scans of a queue
  //

  /** The waiting tasks join the barriers of the task that the scan has reached. */
  method ShareAt(bi: BarrierInfo, q: nat, t: nat, idle: set<nat>, waiting: bool, available: nat, ghost m0: Maps,
                 ghost m1: Maps, ghost fine: bool, ghost before: bool, ghost split: bool, ghost base: IndexSets,
                 ghost full: IndexSets) returns (ghost split': bool)
    requires bi.Valid() && bi.fifoDeps == [] && q in bi.Tracked() && 0 <= At(t, waiting) < bi.numTasks && idle != {}
    requires bi.queue[At(t, waiting)] == q && (if waiting then bi.waits else bi.updates)[At(t, waiting)] != {}
    requires Stage(bi, m0, m1, MapsOf(bi), q, t, idle, waiting, available, fine, before, split, base, full)
    requires !before ==> StageGoal(bi, Rows(m1, waiting), q, waiting, available, base, full)
    modifies bi`producers, bi`consumers, bi`updates, bi`waits, bi`opCount
    ensures bi.Valid()
    ensures Stage(bi, m0, m1, MapsOf(bi), q, After(t, waiting), {}, waiting, available, fine, before, split', base,
                  full)
    ensures waiting ==>
              WaitsJoined(bi.slots, old(MapsOf(bi)), MapsOf(bi), idle, old(bi.waits[At(t, waiting)]), available)
    ensures Visited(bi, q, old(MapsOf(bi)), idle, MapsOf(bi), {}, At(t, waiting), waiting, available)
  {
    ghost var m := MapsOf(bi);
    var x := At(t, waiting);
    StageMayJoin(bi, m0, m1, m, q, t, idle, waiting, available, fine, before, split, base, full);
    split' := JoinBarriers(bi, if waiting then bi.waits[x] else bi.updates[x], idle, x, waiting, available, m0, fine,
                           split, base, full);
    StageJoined(bi, m0, m1, m, MapsOf(bi), q, t, idle, waiting, available, fine, before, split, split', base, full);
  }

  /** One task of the scan: it is passed, or it waits for a neighbour with barriers, or the waiting tasks join its own.
      */
  method ShareOne(bi: BarrierInfo, q: nat, t: nat, idle: set<nat>, waiting: bool, available: nat, ghost m0: Maps,
                  ghost m1: Maps, ghost fine: bool, ghost before: bool, ghost split: bool, ghost base: IndexSets,
                  ghost full: IndexSets) returns (t': nat, idle': set<nat>, ghost split': bool)
    requires bi.Valid() && bi.fifoDeps == [] && q in bi.Tracked() && 0 <= At(t, waiting) < bi.numTasks
    requires Stage(bi, m0, m1, MapsOf(bi), q, t, idle, waiting, available, fine, before, split, base, full)
    requires !before ==> StageGoal(bi, Rows(m1, waiting), q, waiting, available, base, full)
    modifies bi`producers, bi`consumers, bi`updates, bi`waits, bi`opCount
    ensures bi.Valid()
    ensures t' == After(t, waiting)
    ensures Stage(bi, m0, m1, MapsOf(bi), q, t', idle', waiting, available, fine, before, split', base, full)
    ensures waiting && AllStranded(bi, m1, old(MapsOf(bi)), q, t, idle, available) ==>
              AllStranded(bi, m1, MapsOf(bi), q, t', idle', available)
    ensures Visited(bi, q, old(MapsOf(bi)), idle, MapsOf(bi), idle', At(t, waiting), waiting, available)
  {
    ghost var m := MapsOf(bi);
    ghost var stranded := waiting && AllStranded(bi, m1, m, q, t, idle, available);
    var x := At(t, waiting);
    var bars := if waiting then bi.waits[x] else bi.updates[x];
    t', idle', split' := After(t, waiting), idle, split;
    if bi.queue[x] == q && bars == {} {
      StageIdle(bi, m0, m1, m, q, t, idle, waiting, available, fine, before, split, base, full);
      if stranded { StrandedIdle(bi, m1, m, q, t, idle, available); }
      idle' := idle + {x};
    } else if bi.queue[x] == q && idle != {} {
      split' := ShareAt(bi, q, t, idle, waiting, available, m0, m1, fine, before, split, base, full);
      if stranded { StrandedJoin(bi, m1, m, MapsOf(bi), q, t, idle, available); }
      idle' := {};
    } else {
      StagePass(bi, m0, m1, m, q, t, idle, waiting, available, fine, before, split, base, full);
      if stranded { StrandedPass(bi, m1, m, q, t, idle, available); }
    }
  }

  /** Tasks of queue `q` without update barrier join the barriers of the next task that has some. */
  method ShareUpdates(bi: BarrierInfo, q: nat, available: nat, ghost m0: Maps, ghost fine: bool, ghost before: bool,
                      ghost base: IndexSets, ghost full: IndexSets) returns (ghost split: bool)
    requires bi.Valid() && bi.fifoDeps == [] && q in bi.Tracked() && Kept(bi, m0, MapsOf(bi), fine, before, available)
    requires !before ==> StageGoal(bi, bi.updates, q, false, available, base, full)
    modifies bi`producers, bi`consumers, bi`updates, bi`waits, bi`opCount
    ensures bi.Valid()
    ensures StageDone(bi, m0, old(MapsOf(bi)), MapsOf(bi), q, false, available, fine, before, split, base, full)
    ensures ScannedBy(bi, q, old(MapsOf(bi)), MapsOf(bi), false, available)
  {
    ghost var m1 := MapsOf(bi);
    ghost var states, idles: seq<set<nat>> := [m1], [{}];
    split := before;
    var idle: set<nat> := {};
    var t := 0;
    StageStart(bi, m0, m1, q, t, false, available, fine, before, base, full);
    while t < bi.numTasks
      invariant t <= bi.numTasks && bi.Valid() && bi.fifoDeps == []
      invariant Stage(bi, m0, m1, MapsOf(bi), q, t, idle, false, available, fine, before, split, base, full)
      invariant FromTo(states, m1, MapsOf(bi)) && |states| == t + 1
      invariant Scan(bi, q, states, idles, false, available) && idles[0] == {} && idles[t] == idle
    {
      ghost var m := MapsOf(bi);
      t, idle, split := ShareOne(bi, q, t, idle, false, available, m0, m1, fine, before, split, base, full);
      VisitNext(bi, q, states, idles, m1, m, MapsOf(bi), idle, t - 1, false, available);
      states, idles := states + [MapsOf(bi)], idles + [idle];
    }
    StageEnd(bi, m0, m1, MapsOf(bi), q, t, idle, false, available, fine, before, split, base, full);
  }

  /** Tasks of queue `q` without wait barrier join the barriers of the last earlier task that has some. A first task of
      the queue that is too large loses all its wait barriers. */
  method ShareWaits(bi: BarrierInfo, q: nat, available: nat, ghost m0: Maps, ghost fine: bool, ghost before: bool,
                    ghost base: IndexSets, ghost full: IndexSets) returns (ghost split: bool)
    requires bi.Valid() && bi.fifoDeps == [] && q in bi.Tracked() && Kept(bi, m0, MapsOf(bi), fine, before, available)
    requires !before ==> StageGoal(bi, bi.waits, q, true, available, base, full)
    modifies bi`producers, bi`consumers, bi`updates, bi`waits, bi`opCount
    ensures bi.Valid()
    ensures StageDone(bi, m0, old(MapsOf(bi)), MapsOf(bi), q, true, available, fine, before, split, base, full)
    ensures AllFreed(bi, old(MapsOf(bi)), q, available, bi.waits)
    ensures ScannedBy(bi, q, old(MapsOf(bi)), MapsOf(bi), true, available)
  {
    ghost var m1 := MapsOf(bi);
    ghost var states, idles: seq<set<nat>> := [m1], [{}];
    split := before;
    var idle: set<nat> := {};
    var t := bi.numTasks;
    StageStart(bi, m0, m1, q, t, true, available, fine, before, base, full);
    StrandedStart(bi, m1, q, available);
    while t > 0
      invariant 0 <= t <= bi.numTasks && bi.Valid() && bi.fifoDeps == []
      invariant Stage(bi, m0, m1, MapsOf(bi), q, t, idle, true, available, fine, before, split, base, full)
      invariant AllStranded(bi, m1, MapsOf(bi), q, t, idle, available)
      invariant FromTo(states, m1, MapsOf(bi)) && |states| == bi.numTasks - t + 1
      invariant Scan(bi, q, states, idles, true, available) && idles[0] == {} && idles[|idles| - 1] == idle
    {
      ghost var m := MapsOf(bi);
      t, idle, split := ShareOne(bi, q, t, idle, true, available, m0, m1, fine, before, split, base, full);
      VisitNext(bi, q, states, idles, m1, m, MapsOf(bi), idle, t, true, available);
      states, idles := states + [MapsOf(bi)], idles + [idle];
    }
    StageEnd(bi, m0, m1, MapsOf(bi), q, t, idle, true, available, fine, before, split, base, full);
    forall y | 0 <= y < bi.numTasks && Stranded(bi, m1, q, y, available)
      ensures bi.waits[y] == {}
    {
      assert StrandedAt(bi, m1, MapsOf(bi), y, t, idle);
    }
  }

  //
  // All queues
  //

  ghost function QueuesBelow(queues: seq<nat>, n: nat): (s: set<nat>)
    requires n <= |queues|
    ensures forall i :: 0 <= i < n ==> queues[i] in s
  {
    set i | 0 <= i < n :: queues[i]
  }

  /** What complete sharing makes of the update and wait barriers of all tasks. */
  ghost function AllShared(bi: BarrierInfo, rows: IndexSets, waiting: bool): IndexSets
    requires |rows| == |bi.queue|
  {
    Filled(rows, bi.queue, bi.Tracked(), waiting)
  }

  /** Complete sharing would give some barrier that gains users more of them than one barrier has slots for. */
  ghost predicate TooLarge(bi: BarrierInfo, m: Maps, available: nat, waiting: bool)
    requires Consistent(bi, m)
  {
    Overfull(bi.slots, Rows(m, waiting), AllShared(bi, Rows(m, waiting), waiting), available)
  }

  /** The first `n` queues have shared their barriers, or something is too large. */
  ghost predicate SharedSoFar(bi: BarrierInfo, m0: Maps, m: Maps, n: nat, available: nat, split: bool)
    requires Consistent(bi, m0)
  {
    && n <= |bi.trackedQueues|
    && if split then TooLarge(bi, m0, available, false) || TooLarge(bi, m0, available, true)
       else RowsShared(bi, m0, m, n, available, false) && RowsShared(bi, m0, m, n, available, true)
  }

  /** On one side the first `n` queues are done. */
  ghost predicate RowsShared(bi: BarrierInfo, m0: Maps, m: Maps, n: nat, available: nat, waiting: bool)
    requires Consistent(bi, m0) && n <= |bi.trackedQueues|
  {
    && Rows(m, waiting) == Filled(Rows(m0, waiting), bi.queue, QueuesBelow(bi.trackedQueues, n), waiting)
    && !Overfull(bi.slots, Rows(m0, waiting), Rows(m, waiting), available)
  }

  lemma GoalOfQueue(bi: BarrierInfo, m0: Maps, m: Maps, n: nat, available: nat, waiting: bool)
    requires Consistent(bi, m0) && n < |bi.trackedQueues| && RowsShared(bi, m0, m, n, available, waiting)
    ensures StageGoal(bi, Rows(m, waiting), bi.trackedQueues[n], waiting, available, Rows(m0, waiting),
                      AllShared(bi, Rows(m0, waiting), waiting))
  {
    var q, done, rows0 := bi.trackedQueues[n], QueuesBelow(bi.trackedQueues, n), Rows(m0, waiting);
    assert q !in done;
    FilledOneMore(rows0, bi.queue, done, q, waiting);
    FilledGrows(rows0, bi.queue, done + {q}, bi.Tracked(), waiting);
  }

  lemma QueueShared(bi: BarrierInfo, m0: Maps, m: Maps, m': Maps, n: nat, available: nat, waiting: bool)
    requires Consistent(bi, m0) && n < |bi.trackedQueues| && RowsShared(bi, m0, m, n, available, waiting)
    requires Rows(m', waiting) == Filled(Rows(m, waiting), bi.queue, {bi.trackedQueues[n]}, waiting)
    requires !Overfull(bi.slots, Rows(m0, waiting), Rows(m', waiting), available)
    ensures RowsShared(bi, m0, m', n + 1, available, waiting)
  {
    var q, done := bi.trackedQueues[n], QueuesBelow(bi.trackedQueues, n);
    assert QueuesBelow(bi.trackedQueues, n + 1) == done + {q};
    FilledOneMore(Rows(m0, waiting), bi.queue, done, q, waiting);
  }

  lemma SameConsumers(bi: BarrierInfo, m0: Maps, m: Maps, q: nat, available: nat)
    requires Consistent(bi, m0) && Consistent(bi, m) && m.waits == m0.waits && |m.consumers| == |m0.consumers|
    ensures forall y :: Stranded(bi, m0, q, y, available) ==> Stranded(bi, m, q, y, available)
  {
    InverseUnique(m0.consumers, m.consumers, m0.waits);
  }

  /** One queue: first its update barriers, then its wait barriers. */
  method ShareQueue(bi: BarrierInfo, i: nat, available: nat, ghost m0: Maps, ghost fine: bool, ghost before: bool)
    returns (ghost split: bool)
    requires bi.Valid() && bi.fifoDeps == [] && Consistent(bi, m0) && i < |bi.trackedQueues|
    requires Kept(bi, m0, MapsOf(bi), fine, before, available) && SharedSoFar(bi, m0, MapsOf(bi), i, available, before)
    modifies bi`producers, bi`consumers, bi`updates, bi`waits, bi`opCount
    ensures bi.Valid()
    ensures Kept(bi, m0, MapsOf(bi), fine, split, available) && SharedSoFar(bi, m0, MapsOf(bi), i + 1, available, split)
    ensures m0 == old(MapsOf(bi)) && !before && !TooLarge(bi, m0, available, false) ==>
              AllFreed(bi, m0, bi.trackedQueues[i], available, bi.waits)
    ensures QueueDone(bi, bi.trackedQueues[i], old(MapsOf(bi)), MapsOf(bi), available)
  {
    ghost var m := MapsOf(bi);
    var q := bi.trackedQueues[i];
    ghost var u, w := AllShared(bi, m0.updates, false), AllShared(bi, m0.waits, true);
    if !before {
      GoalOfQueue(bi, m0, m, i, available, false);
      GoalOfQueue(bi, m0, m, i, available, true);
    }
    split := ShareUpdates(bi, q, available, m0, fine, before, m0.updates, u);
    ghost var m1 := MapsOf(bi);
    if !split {
      QueueShared(bi, m0, m, m1, i, available, false);
      SameConsumers(bi, m, m1, q, available);
    }
    split := ShareWaits(bi, q, available, m0, fine, split, m0.waits, w);
    if !split {
      QueueShared(bi, m0, m1, MapsOf(bi), i, available, true);
    }
  }

  /** `shareWaitAndUpdateBarriers`. Some barrier gives way to a chain exactly if complete sharing would make one too
      large; otherwise each task ends up with the barriers of its neighbours on the queue, and the runs are exactly
      the same. No order is lost if every task whose neighbour is not driven by a barrier fits and so does the first
      consumer of each of its barriers. */
  method Share(bi: BarrierInfo, available: nat)
    requires bi.Valid() && bi.fifoDeps == [] && Forward(bi.Graph()) && bi.trackedQueues != []
    modifies bi`producers, bi`consumers, bi`updates, bi`waits, bi`opCount
    ensures bi.Valid() && Forward(bi.Graph())
    ensures Guarded(bi, old(bi.producers), old(bi.consumers), available) ==> KeepsOrder(old(bi.Order()), bi.Order())
    ensures TooLarge(bi, old(MapsOf(bi)), available, false) || TooLarge(bi, old(MapsOf(bi)), available, true) <==>
              EmptiedSome(old(bi.producers), old(bi.consumers), bi.producers, bi.consumers)
    ensures !TooLarge(bi, old(MapsOf(bi)), available, false) && !TooLarge(bi, old(MapsOf(bi)), available, true) ==>
              && bi.updates == AllShared(bi, old(bi.updates), false) && bi.waits == AllShared(bi, old(bi.waits), true)
              && SameRuns(old(bi.Order()), bi.Order(), bi.numTasks)
    ensures |bi.trackedQueues| == 1 && !TooLarge(bi, old(MapsOf(bi)), available, false) ==>
              AllFreed(bi, old(MapsOf(bi)), bi.trackedQueues[0], available, bi.waits)
    ensures AllDone(bi, old(MapsOf(bi)), MapsOf(bi), available)
  {
    ghost var m0, states := MapsOf(bi), [MapsOf(bi)];
    ghost var fine, split := Guarded(bi, bi.producers, bi.consumers, available), false;
    NothingShared(bi, m0, available);
    var i := 0;
    while i < |bi.trackedQueues|
      invariant i <= |bi.trackedQueues| && bi.Valid() && bi.fifoDeps == []
      invariant Kept(bi, m0, MapsOf(bi), fine, split, available) && SharedSoFar(bi, m0, MapsOf(bi), i, available, split)
      invariant i == 0 ==> MapsOf(bi) == m0 && !split
      invariant i == 1 && !TooLarge(bi, m0, available, false) ==>
                  AllFreed(bi, m0, bi.trackedQueues[0], available, bi.waits)
      invariant FromTo(states, m0, MapsOf(bi)) && |states| == i + 1 && QueuesDone(bi, states, available)
    {
      ghost var m := MapsOf(bi);
      split := ShareQueue(bi, i, available, m0, fine, split);
      QueueNext(bi, states, m0, m, MapsOf(bi), available);
      states := states + [MapsOf(bi)];
      i := i + 1;
    }
    SharingDone(bi, m0, MapsOf(bi), fine, split, available);
  }

  lemma NothingShared(bi: BarrierInfo, m: Maps, available: nat)
    requires Consistent(bi, m) && Forward(BarrierEdges(m.producers, m.consumers))
    ensures Kept(bi, m, m, Guarded(bi, m.producers, m.consumers, available), false, available)
    ensures SharedSoFar(bi, m, m, 0, available, false)
  {
    forall rows: IndexSets | |rows| == |bi.queue|
      ensures !Overfull(bi.slots, rows, rows, available)
    {
    }
  }

  lemma SharingDone(bi: BarrierInfo, m0: Maps, m: Maps, fine: bool, split: bool, available: nat)
    requires Consistent(bi, m0) && Consistent(bi, m) && Kept(bi, m0, m, fine, split, available)
    requires SharedSoFar(bi, m0, m, |bi.trackedQueues|, available, split)
    ensures TooLarge(bi, m0, available, false) || TooLarge(bi, m0, available, true) <==> split
    ensures split <==> EmptiedSome(m0.producers, m0.consumers, m.producers, m.consumers)
    ensures !split ==> m.updates == AllShared(bi, m0.updates, false) && m.waits == AllShared(bi, m0.waits, true)
    ensures var q := QueueEdges(bi.queue, bi.Tracked());
            var e, f := BarrierEdges(m0.producers, m0.consumers) + q, BarrierEdges(m.producers, m.consumers) + q;
            (fine ==> KeepsOrder(e, f)) && (!split ==> SameRuns(e, f, bi.numTasks))
  {
    var q := QueueEdges(bi.queue, bi.Tracked());
    var e, f := BarrierEdges(m0.producers, m0.consumers) + q, BarrierEdges(m.producers, m.consumers) + q;
    assert QueuesBelow(bi.trackedQueues, |bi.trackedQueues|) == bi.Tracked();
    if fine {
      SubsetKeepsOrder(BarrierEdges(m.producers, m.consumers), f);
      KeepsOrderTrans(BarrierEdges(m0.producers, m0.consumers), BarrierEdges(m.producers, m.consumers), f);
      KeepsOrderUnion(BarrierEdges(m0.producers, m0.consumers), BarrierEdges(m.producers, m.consumers), q);
    }
    if !split {
      FilledOrder(bi, m0.updates, m0.waits, m0.producers, m0.consumers, m.updates, m.waits, m.producers, m.consumers);
      SameOrderSameRuns(e, f, bi.numTasks);
    }
  }
}
