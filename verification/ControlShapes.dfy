/** The task control map as a function of the graph, and exactly which paths it records. */
module ControlShapes {
  import opened TaskGraph
  import opened Barriers

  //
  // Rows of direct successors, then absorbing the rows of successors in a fixed order
  //

  ghost function DirectRow(e: Edges, t: nat, lo: nat, hi: nat): set<nat>
  {
    set p | p in e && p.0 == t && lo <= t <= hi && lo <= p.1 <= hi :: p.1
  }

  ghost function DirectRows(e: Edges, n: nat, lo: nat, hi: nat): IndexSets
  {
    seq(n, t requires 0 <= t < n => DirectRow(e, t, lo, hi))
  }

  /** Row `t` together with the rows of its successors in `[lo, hi]`. */
  ghost function AbsorbedRow(e: Edges, rows: IndexSets, t: nat, lo: nat, hi: nat): set<nat>
    requires t < |rows|
  {
    rows[t] + set p, x | p in e && p.0 == t && lo <= p.1 <= hi && p.1 < |rows| && x in rows[p.1] :: x
  }

  /** Absorbs for the tasks of `order`, first to last. */
  ghost function Sweep(e: Edges, rows: IndexSets, order: seq<nat>, lo: nat, hi: nat): (r: IndexSets)
    requires forall i :: 0 <= i < |order| ==> order[i] < |rows|
    ensures |r| == |rows|
  {
    if order == [] then rows
    else
      var t, r := order[|order| - 1], Sweep(e, rows, order[..|order| - 1], lo, hi);
      r[t := AbsorbedRow(e, r, t, lo, hi)]
  }

  /** `end - 1, end - 2, ..., lo` */
  ghost function Down(lo: nat, end: nat): (r: seq<nat>)
    ensures forall i :: 0 <= i < |r| ==> lo <= r[i] < end
    decreases if lo < end then end - lo else 0
  {
    if lo >= end then [] else Down(lo + 1, end) + [lo]
  }

  /** Tasks of `[lo, end)` with a successor in the range that comes before them. */
  ghost function BackwardTasks(e: Edges, lo: nat, end: nat): set<nat>
  {
    set t | lo <= t < end && LinksBack(e, t, lo)
  }

  ghost predicate LinksBack(e: Edges, t: nat, lo: nat)
  {
    exists c :: (t, c) in e && lo <= c < t
  }

  /** The largest element of `s` below `k`, if any. */
  ghost function Top(s: set<nat>, k: nat): (r: nat)
    ensures (exists x :: x in s && x < k) ==> r in s && r < k && forall x :: x in s && x < k ==> x <= r
  {
    if k == 0 then 0 else if k - 1 in s then k - 1 else Top(s, k - 1)
  }

  /** One past the last task whose successors are absorbed: the sync point that closes a range is left out. */
  function RangeEnd(hi: nat, skip: bool): nat { if skip then hi else hi + 1 }

  /** One downward sweep; if some edge goes backward, the tasks with such edges absorb again, ascending, and a second
      downward sweep runs below the last of them. `skip` says that `hi` is the sync point that closes the range. */
  ghost function ControlRows(e: Edges, n: nat, lo: nat, hi: nat, skip: bool): IndexSets
    requires hi < n
  {
    var end := RangeEnd(hi, skip);
    var once, back := Sweep(e, DirectRows(e, n, lo, hi), Down(lo, end), lo, hi), BackwardTasks(e, lo, end);
    if back == {} then once
    else Sweep(e, Sweep(e, once, Ascending(back, end), lo, hi), Down(lo, Top(back, end)), lo, hi)
  }

  lemma SweepDownStep(e: Edges, rows: IndexSets, t: nat, end: nat, lo: nat, hi: nat)
    requires t < end <= |rows|
    ensures var r := Sweep(e, rows, Down(t + 1, end), lo, hi);
            Sweep(e, rows, Down(t, end), lo, hi) == r[t := AbsorbedRow(e, r, t, lo, hi)]
  {
  }

  lemma SweepNothing(e: Edges, rows: IndexSets, t: nat, end: nat, lo: nat, hi: nat)
    requires end <= t && end <= |rows|
    ensures Sweep(e, rows, Down(t, end), lo, hi) == rows
  {
  }

  lemma SweepUpStep(e: Edges, rows: IndexSets, back: set<nat>, t: nat, lo: nat, hi: nat)
    requires t < |rows|
    ensures var r := Sweep(e, rows, Ascending(back, t), lo, hi);
            Sweep(e, rows, Ascending(back, t + 1), lo, hi)
            == if t in back then r[t := AbsorbedRow(e, r, t, lo, hi)] else r
  {
  }

  //
  // The recorded paths. `w` holds the edges inside the range that ends with `hi`; every step but the last one of a path
  // starts at a task before `end`.
  //

  /** Steps up, then possibly one step down, then one last step in any direction. */
  ghost predicate Rises(w: Edges, end: nat, hi: nat, t: nat, x: nat)
    decreases if t <= hi then hi - t else 0
  {
    || (t, x) in w
    || (t < end && exists c :: (t, c) in w && ((t < c <= hi && Rises(w, end, hi, c, x)) || (c < t && (c, x) in w)))
  }

  /** Steps down before that. */
  ghost predicate Falls(w: Edges, end: nat, hi: nat, t: nat, x: nat)
    decreases t
  {
    Rises(w, end, hi, t, x) || (t < end && exists c :: (t, c) in w && c < t && Falls(w, end, hi, c, x))
  }

  /** Steps up before that. */
  ghost predicate Zigzags(w: Edges, end: nat, hi: nat, t: nat, x: nat)
    decreases if t <= hi then hi - t else 0
  {
    || Falls(w, end, hi, t, x)
    || (t < end && exists c :: (t, c) in w && t < c <= hi && Zigzags(w, end, hi, c, x))
  }

  /** The rows of the first downward sweep, as far as it got. */
  ghost predicate RiseRows(rows: IndexSets, w: Edges, end: nat, hi: nat, start: nat)
  {
    forall t, x {:trigger x in rows[t]} :: 0 <= t < |rows| && x >= 0 ==>
      (x in rows[t] <==> if t < start then (t, x) in w else Rises(w, end, hi, t, x))
  }

  ghost predicate FallRows(rows: IndexSets, w: Edges, end: nat, hi: nat, stop: nat)
  {
    forall t, x {:trigger x in rows[t]} :: 0 <= t < |rows| && x >= 0 ==>
      (x in rows[t] <==> if t < stop then Falls(w, end, hi, t, x) else Rises(w, end, hi, t, x))
  }

  ghost predicate ZigzagRows(rows: IndexSets, w: Edges, end: nat, hi: nat, start: nat)
  {
    forall t, x {:trigger x in rows[t]} :: 0 <= t < |rows| && x >= 0 ==>
      (x in rows[t] <==> if t < start then Falls(w, end, hi, t, x) else Zigzags(w, end, hi, t, x))
  }

  /** Absorbing in terms of the edges inside the range. */
  lemma Absorbs(e: Edges, rows: IndexSets, t: nat, lo: nat, hi: nat, x: nat)
    requires lo <= t <= hi < |rows|
    ensures x in AbsorbedRow(e, rows, t, lo, hi) <==>
            x in rows[t] || exists c: nat :: (t, c) in Within(e, lo, hi) && c < |rows| && x in rows[c]
  {
    if x in AbsorbedRow(e, rows, t, lo, hi) && x !in rows[t] {
      var p :| p in e && p.0 == t && lo <= p.1 <= hi && p.1 < |rows| && x in rows[p.1];
      assert (t, p.1) in Within(e, lo, hi);
    }
  }

  lemma RiseStep(e: Edges, r: IndexSets, lo: nat, hi: nat, end: nat, t: nat)
    requires lo <= t < end && hi <= end <= hi + 1 && hi < |r| && t <= hi
    requires RiseRows(r, Within(e, lo, hi), end, hi, t + 1)
    ensures RiseRows(r[t := AbsorbedRow(e, r, t, lo, hi)], Within(e, lo, hi), end, hi, t)
  {
    var w := Within(e, lo, hi);
    forall x: nat
      ensures x in AbsorbedRow(e, r, t, lo, hi) <==> Rises(w, end, hi, t, x)
    {
      Absorbs(e, r, t, lo, hi, x);
      assert x in r[t] <==> (t, x) in w;
      if c: nat :| (t, c) in w && c < |r| && x in r[c] {
        assert if c <= t then (c, x) in w else Rises(w, end, hi, c, x);
      }
      if (t, x) !in w && Rises(w, end, hi, t, x) {
        var c :| (t, c) in w && ((t < c <= hi && Rises(w, end, hi, c, x)) || (c < t && (c, x) in w));
        assert x in r[c];
      }
    }
  }

  lemma {:induction false} FirstSweep(e: Edges, n: nat, lo: nat, hi: nat, end: nat, start: nat)
    requires lo <= start <= end && hi <= end <= hi + 1 && hi < n
    ensures RiseRows(Sweep(e, DirectRows(e, n, lo, hi), Down(start, end), lo, hi), Within(e, lo, hi), end, hi, start)
    decreases end - start
  {
    var rows := DirectRows(e, n, lo, hi);
    if start == end {
      SweepNothing(e, rows, start, end, lo, hi);
    } else {
      FirstSweep(e, n, lo, hi, end, start + 1);
      SweepDownStep(e, rows, start, end, lo, hi);
      RiseStep(e, Sweep(e, rows, Down(start + 1, end), lo, hi), lo, hi, end, start);
    }
  }

  lemma FallStep(e: Edges, r: IndexSets, lo: nat, hi: nat, end: nat, t: nat)
    requires lo <= t < end && hi <= end <= hi + 1 && hi < |r| && t <= hi && FallRows(r, Within(e, lo, hi), end, hi, t)
    ensures FallRows(r[t := AbsorbedRow(e, r, t, lo, hi)], Within(e, lo, hi), end, hi, t + 1)
  {
    var w := Within(e, lo, hi);
    forall x: nat
      ensures x in AbsorbedRow(e, r, t, lo, hi) <==> Falls(w, end, hi, t, x)
    {
      Absorbs(e, r, t, lo, hi, x);
      assert x in r[t] <==> Rises(w, end, hi, t, x);
      if c: nat :| (t, c) in w && c < |r| && x in r[c] {
        assert if c < t then Falls(w, end, hi, c, x) else Rises(w, end, hi, c, x);
        assert Falls(w, end, hi, t, x);
      }
      if !Rises(w, end, hi, t, x) && Falls(w, end, hi, t, x) {
        var c :| (t, c) in w && c < t && Falls(w, end, hi, c, x);
        assert x in r[c];
      }
    }
  }

  /** Without an edge backward there is nothing to fall along. */
  lemma FallsFlat(e: Edges, lo: nat, hi: nat, end: nat, t: nat, x: nat)
    requires t >= end || !LinksBack(e, t, lo)
    ensures Falls(Within(e, lo, hi), end, hi, t, x) <==> Rises(Within(e, lo, hi), end, hi, t, x)
  {
  }

  lemma {:induction false} SecondSweep(e: Edges, once: IndexSets, lo: nat, hi: nat, end: nat, stop: nat)
    requires stop <= end && lo <= hi < |once| && hi <= end <= hi + 1 && RiseRows(once, Within(e, lo, hi), end, hi, lo)
    ensures FallRows(Sweep(e, once, Ascending(BackwardTasks(e, lo, end), stop), lo, hi), Within(e, lo, hi), end, hi,
                     stop)
    decreases stop
  {
    var back, w := BackwardTasks(e, lo, end), Within(e, lo, hi);
    if stop == 0 {
      assert Ascending(back, 0) == [];
      forall t, x | 0 <= t < |once| && t < lo && x >= 0
        ensures (t, x) in w <==> Rises(w, end, hi, t, x)
      {
      }
    } else {
      var t := stop - 1;
      SecondSweep(e, once, lo, hi, end, t);
      SweepUpStep(e, once, back, t, lo, hi);
      var r := Sweep(e, once, Ascending(back, t), lo, hi);
      if t in back {
        FallStep(e, r, lo, hi, end, t);
      } else {
        forall x: nat
          ensures Falls(w, end, hi, t, x) <==> Rises(w, end, hi, t, x)
        {
          if t >= lo { FallsFlat(e, lo, hi, end, t, x); }
        }
      }
    }
  }

  lemma ZigzagStep(e: Edges, r: IndexSets, lo: nat, hi: nat, end: nat, t: nat)
    requires lo <= t < end && hi <= end <= hi + 1 && hi < |r| && t <= hi
    requires ZigzagRows(r, Within(e, lo, hi), end, hi, t + 1)
    ensures ZigzagRows(r[t := AbsorbedRow(e, r, t, lo, hi)], Within(e, lo, hi), end, hi, t)
  {
    var w := Within(e, lo, hi);
    forall x: nat
      ensures x in AbsorbedRow(e, r, t, lo, hi) <==> Zigzags(w, end, hi, t, x)
    {
      Absorbs(e, r, t, lo, hi, x);
      assert x in r[t] <==> Falls(w, end, hi, t, x);
      if c: nat :| (t, c) in w && c < |r| && x in r[c] {
        assert if c <= t then Falls(w, end, hi, c, x) else Zigzags(w, end, hi, c, x);
        assert Zigzags(w, end, hi, t, x);
      }
      if !Falls(w, end, hi, t, x) && Zigzags(w, end, hi, t, x) {
        var c :| (t, c) in w && t < c <= hi && Zigzags(w, end, hi, c, x);
        assert x in r[c];
      }
    }
  }

  /** From the last task with a backward edge on, there is nothing to rise along before falling. */
  lemma {:induction false} ZigzagsFlat(e: Edges, lo: nat, hi: nat, end: nat, t: nat, x: nat)
    requires hi <= end <= hi + 1 && forall c :: t < c < end ==> !LinksBack(e, c, lo)
    ensures Zigzags(Within(e, lo, hi), end, hi, t, x) <==> Falls(Within(e, lo, hi), end, hi, t, x)
    decreases if t <= hi then hi - t else 0
  {
    var w := Within(e, lo, hi);
    if !Falls(w, end, hi, t, x) && Zigzags(w, end, hi, t, x) {
      var c :| (t, c) in w && t < c <= hi && Zigzags(w, end, hi, c, x);
      ZigzagsFlat(e, lo, hi, end, c, x);
      FallsFlat(e, lo, hi, end, c, x);
    }
  }

  lemma {:induction false} ThirdSweep(e: Edges, twice: IndexSets, lo: nat, hi: nat, end: nat, start: nat, top: nat)
    requires lo <= start <= top < end && hi <= end <= hi + 1 && hi < |twice|
    requires FallRows(twice, Within(e, lo, hi), end, hi, end) && forall c :: top < c < end ==> !LinksBack(e, c, lo)
    ensures ZigzagRows(Sweep(e, twice, Down(start, top), lo, hi), Within(e, lo, hi), end, hi, start)
    decreases top - start
  {
    var w := Within(e, lo, hi);
    if start == top {
      SweepNothing(e, twice, start, top, lo, hi);
      forall t, x | 0 <= t < |twice| && x >= 0
        ensures x in twice[t] <==> if t < start then Falls(w, end, hi, t, x) else Zigzags(w, end, hi, t, x)
      {
        if t >= start { ZigzagsFlat(e, lo, hi, end, t, x); }
        if t >= end { FallsFlat(e, lo, hi, end, t, x); }
      }
    } else {
      ThirdSweep(e, twice, lo, hi, end, start + 1, top);
      SweepDownStep(e, twice, start, top, lo, hi);
      ZigzagStep(e, Sweep(e, twice, Down(start + 1, top), lo, hi), lo, hi, end, start);
    }
  }

  /** The map holds exactly the pairs joined by such a path, whatever the direction of the edges. */
  ghost predicate ExactRows(rows: IndexSets, w: Edges, end: nat, hi: nat)
  {
    forall t, x {:trigger x in rows[t]} {:trigger Zigzags(w, end, hi, t, x)} :: 0 <= t < |rows| && x >= 0 ==>
      (x in rows[t] <==> Zigzags(w, end, hi, t, x))
  }

  lemma ControlRowsExact(e: Edges, n: nat, lo: nat, hi: nat, skip: bool)
    requires lo <= hi < n
    ensures ExactRows(ControlRows(e, n, lo, hi, skip), Within(e, lo, hi), RangeEnd(hi, skip), hi)
  {
    var end, w := RangeEnd(hi, skip), Within(e, lo, hi);
    var once, back := Sweep(e, DirectRows(e, n, lo, hi), Down(lo, end), lo, hi), BackwardTasks(e, lo, end);
    FirstSweep(e, n, lo, hi, end, lo);
    if back == {} {
      forall t, x | 0 <= t < n && x >= 0
        ensures x in once[t] <==> Zigzags(w, end, hi, t, x)
      {
        ZigzagsFlatBelow(e, lo, hi, end, t, x);
      }
    } else {
      SecondSweep(e, once, lo, hi, end, end);
      var top := Top(back, end);
      LastBackward(e, lo, end);
      ThirdSweep(e, Sweep(e, once, Ascending(back, end), lo, hi), lo, hi, end, lo, top);
      BelowRange(e, lo, hi, end);
    }
  }

  lemma LastBackward(e: Edges, lo: nat, end: nat)
    requires BackwardTasks(e, lo, end) != {}
    ensures var top := Top(BackwardTasks(e, lo, end), end);
            lo <= top < end && forall c :: top < c < end ==> !LinksBack(e, c, lo)
  {
    var back := BackwardTasks(e, lo, end);
    var b :| b in back;
    assert b < end;
    forall c | Top(back, end) < c < end
      ensures !LinksBack(e, c, lo)
    {
      assert LinksBack(e, c, lo) ==> c in back;
    }
  }

  /** Tasks before the range have no successors in it. */
  lemma BelowRange(e: Edges, lo: nat, hi: nat, end: nat)
    ensures forall t: nat, x: nat :: t < lo ==>
              (Zigzags(Within(e, lo, hi), end, hi, t, x) <==> Falls(Within(e, lo, hi), end, hi, t, x))
  {
  }

  lemma ZigzagsFlatBelow(e: Edges, lo: nat, hi: nat, end: nat, t: nat, x: nat)
    requires hi <= end <= hi + 1 && BackwardTasks(e, lo, end) == {}
    ensures var w := Within(e, lo, hi);
            Zigzags(w, end, hi, t, x) <==> if t < lo then (t, x) in w else Rises(w, end, hi, t, x)
  {
    if t >= lo {
      forall c | lo <= c < end
        ensures !LinksBack(e, c, lo)
      {
        assert LinksBack(e, c, lo) ==> c in BackwardTasks(e, lo, end);
      }
      ZigzagsFlat(e, lo, hi, end, t, x);
      FallsFlat(e, lo, hi, end, t, x);
    }
  }

  //
  // Consequences
  //

  lemma {:induction false} RisesReach(w: Edges, end: nat, hi: nat, t: nat, x: nat)
    requires Rises(w, end, hi, t, x)
    ensures Reach(w, t, x)
    decreases if t <= hi then hi - t else 0
  {
    if (t, x) in w {
      EdgeReach(w, t, x);
    } else {
      var c :| (t, c) in w && ((t < c <= hi && Rises(w, end, hi, c, x)) || (c < t && (c, x) in w));
      EdgeReach(w, t, c);
      if t < c { RisesReach(w, end, hi, c, x); } else { EdgeReach(w, c, x); }
      ReachTrans(w, t, c, x);
    }
  }

  lemma {:induction false} FallsReach(w: Edges, end: nat, hi: nat, t: nat, x: nat)
    requires Falls(w, end, hi, t, x)
    ensures Reach(w, t, x)
    decreases t
  {
    if Rises(w, end, hi, t, x) {
      RisesReach(w, end, hi, t, x);
    } else {
      var c :| (t, c) in w && c < t && Falls(w, end, hi, c, x);
      EdgeReach(w, t, c);
      FallsReach(w, end, hi, c, x);
      ReachTrans(w, t, c, x);
    }
  }

  /** For any graph the map holds real paths inside the range only. */
  lemma {:induction false} ZigzagsReach(w: Edges, end: nat, hi: nat, t: nat, x: nat)
    requires Zigzags(w, end, hi, t, x)
    ensures Reach(w, t, x)
    decreases if t <= hi then hi - t else 0
  {
    if Falls(w, end, hi, t, x) {
      FallsReach(w, end, hi, t, x);
    } else {
      var c :| (t, c) in w && t < c <= hi && Zigzags(w, end, hi, c, x);
      EdgeReach(w, t, c);
      ZigzagsReach(w, end, hi, c, x);
      ReachTrans(w, t, c, x);
    }
  }

  /** Steps of a path that do not lead to a later task. */
  ghost function StepsBack(p: seq<nat>): nat
  {
    if |p| < 2 then 0 else StepsBack(p[1..]) + if p[0] < p[1] then 0 else 1
  }

  /** All steps but the last one start before `end`. */
  ghost predicate StartsBelow(p: seq<nat>, end: nat)
  {
    forall i :: 0 <= i < |p| - 2 ==> p[i] < end
  }

  ghost predicate EndsAt(w: Edges, hi: nat)
  {
    forall a, b :: (a, b) in w ==> a <= hi && b <= hi
  }

  lemma {:induction false} ForwardRises(w: Edges, end: nat, hi: nat, p: seq<nat>)
    requires IsPath(w, p) && StepsBack(p) == 0 && StartsBelow(p, end) && EndsAt(w, hi)
    ensures Rises(w, end, hi, p[0], p[|p| - 1])
    decreases |p|
  {
    assert (p[0], p[0 + 1]) in w;
    if |p| > 2 {
      PathTail(w, p);
      var q := p[1..];
      ForwardRises(w, end, hi, q);
      assert p[0] < end;
    }
  }

  /** The map is complete for every pair that some path with at most one step back joins. */
  lemma {:induction false} OneStepBack(w: Edges, end: nat, hi: nat, p: seq<nat>)
    requires IsPath(w, p) && StepsBack(p) <= 1 && StartsBelow(p, end) && EndsAt(w, hi)
    ensures Zigzags(w, end, hi, p[0], p[|p| - 1])
    decreases |p|
  {
    assert (p[0], p[0 + 1]) in w;
    if |p| > 2 {
      PathTail(w, p);
      var q := p[1..];
      assert p[0] < end;
      if p[0] < p[1] {
        OneStepBack(w, end, hi, q);
      } else {
        ForwardRises(w, end, hi, q);
        assert Falls(w, end, hi, p[1], p[|p| - 1]);
      }
    }
  }

  lemma {:induction false} ForwardNoStepsBack(w: Edges, p: seq<nat>)
    requires Forward(w) && IsPath(w, p)
    ensures StepsBack(p) == 0
    decreases |p|
  {
    assert (p[0], p[0 + 1]) in w;
    if |p| > 2 {
      PathTail(w, p);
      ForwardNoStepsBack(w, p[1..]);
    }
  }

  /** On a forward graph that is the whole happens-before order of the range. */
  lemma ForwardZigzags(e: Edges, lo: nat, hi: nat, end: nat, t: nat, x: nat)
    requires Forward(e) && lo <= t && x <= hi <= end && Reach(e, t, x)
    ensures Zigzags(Within(e, lo, hi), end, hi, t, x)
  {
    var w := Within(e, lo, hi);
    ReachWithin(e, lo, hi, t, x);
    var p :| IsPath(w, p) && p[0] == t && p[|p| - 1] == x;
    ForwardNoStepsBack(w, p);
    forall i | 0 <= i < |p| - 2
      ensures p[i] < end
    {
      assert (p[i], p[i + 1]) in w;
    }
    OneStepBack(w, end, hi, p);
  }

  /** The edges of the path 2 -> 1 -> 3 -> 0 -> 4 -> 5, two of which go back. */
  ghost function TwoBackwardEdges(): Edges {
    {(2, 1), (1, 3), (3, 0), (0, 4), (4, 5)}
  }

  /** The repair for backward edges is not a full closure: task 5 runs after task 2, but the path there goes down, up,
      down and then takes two more steps. */
  lemma BackwardMapIncomplete(n: nat)
    requires 5 < n
    ensures Reach(TwoBackwardEdges(), 2, 5)
    ensures 5 !in ControlRows(TwoBackwardEdges(), n, 0, 5, false)[2]
  {
    var e := TwoBackwardEdges();
    assert IsPath(e, [2, 1, 3, 0, 4, 5]);
    ControlRowsExact(e, n, 0, 5, false);
    OnlyEdges();
    assert Within(e, 0, 5) == e;
    assert !Rises(e, 6, 5, 3, 5);
    assert !Rises(e, 6, 5, 1, 5) && !Rises(e, 6, 5, 2, 5);
    assert !Falls(e, 6, 5, 1, 5) && !Falls(e, 6, 5, 2, 5);
    assert !Zigzags(e, 6, 5, 2, 5);
  }

  lemma OnlyEdges()
    ensures forall t, c :: (t, c) in TwoBackwardEdges() ==>
              c == if t == 2 then 1 else if t == 1 then 3 else if t == 3 then 0 else if t == 0 then 4 else 5
  {
  }
}
