/** Task graphs: ordered pairs of task indices, the happens-before order they generate, and the runs
    (execution sequences) they allow. */
module TaskGraph {

  /** `(a, b) in e` says that task `a` has to finish before task `b` may start. */
  type Edges = set<(nat, nat)>

  ghost predicate IsPath(e: Edges, p: seq<nat>)
  {
    && |p| >= 2
    && forall i :: 0 <= i < |p| - 1 ==> (p[i], p[i + 1]) in e
  }

  /** Happens-before: `b` is reachable from `a` along one or more edges. */
  ghost predicate Reach(e: Edges, a: nat, b: nat)
  {
    exists p :: IsPath(e, p) && p[0] == a && p[|p| - 1] == b
  }

  /** Every pair ordered by `e` is ordered by `f` too. */
  ghost predicate KeepsOrder(e: Edges, f: Edges)
  {
    forall a, b :: Reach(e, a, b) ==> Reach(f, a, b)
  }

  ghost predicate SameOrder(e: Edges, f: Edges)
  {
    KeepsOrder(e, f) && KeepsOrder(f, e)
  }

  /** The standing assumption of the barrier passes: dependencies follow the program order. */
  ghost predicate Forward(e: Edges)
  {
    forall a, b :: (a, b) in e ==> a < b
  }

  lemma EdgeReach(e: Edges, a: nat, b: nat)
    requires (a, b) in e
    ensures Reach(e, a, b)
  {
    assert IsPath(e, [a, b]);
  }

  lemma ReachTrans(e: Edges, a: nat, b: nat, c: nat)
    requires Reach(e, a, b) && Reach(e, b, c)
    ensures Reach(e, a, c)
  {
    var p :| IsPath(e, p) && p[0] == a && p[|p| - 1] == b;
    var q :| IsPath(e, q) && q[0] == b && q[|q| - 1] == c;
    var r := p + q[1..];
    forall i | 0 <= i < |r| - 1
      ensures (r[i], r[i + 1]) in e
    {
      if i >= |p| - 1 {
        assert r[i] == q[i - (|p| - 1)] && r[i + 1] == q[i - (|p| - 1) + 1];
      }
    }
    assert IsPath(e, r);
  }

  lemma PathTail(e: Edges, p: seq<nat>)
    requires IsPath(e, p) && |p| > 2
    ensures IsPath(e, p[1..])
  {
  }

  /** The first step of a path. */
  lemma ReachFirst(e: Edges, a: nat, b: nat) returns (m: nat)
    requires Reach(e, a, b)
    ensures (a, m) in e && (m == b || Reach(e, m, b))
  {
    var p :| IsPath(e, p) && p[0] == a && p[|p| - 1] == b;
    m := p[1];
    assert (p[0], p[0 + 1]) in e;
    if m != b {
      PathTail(e, p);
    }
  }

  /** The last step of a path. */
  lemma ReachLast(e: Edges, a: nat, b: nat) returns (m: nat)
    requires Reach(e, a, b)
    ensures (m, b) in e && (m == a || Reach(e, a, m))
  {
    var p :| IsPath(e, p) && p[0] == a && p[|p| - 1] == b;
    m := p[|p| - 2];
    assert (p[|p| - 2], p[|p| - 2 + 1]) in e;
    if m != a {
      assert IsPath(e, p[..|p| - 1]);
    }
  }

  /** Replacing every edge by a path loses no order. */
  lemma EdgesKeepOrder(e: Edges, f: Edges)
    requires forall a, b :: (a, b) in e ==> Reach(f, a, b)
    ensures KeepsOrder(e, f)
  {
    forall a, b | Reach(e, a, b)
      ensures Reach(f, a, b)
    {
      var p :| IsPath(e, p) && p[0] == a && p[|p| - 1] == b;
      PathKeepsOrder(e, f, p);
    }
  }

  lemma {:induction false} PathKeepsOrder(e: Edges, f: Edges, p: seq<nat>)
    requires forall a, b :: (a, b) in e ==> Reach(f, a, b)
    requires IsPath(e, p)
    ensures Reach(f, p[0], p[|p| - 1])
    decreases |p|
  {
    assert (p[0], p[0 + 1]) in e;
    if |p| > 2 {
      PathTail(e, p);
      var q := p[1..];
      PathKeepsOrder(e, f, q);
      ReachTrans(f, p[0], p[1], p[|p| - 1]);
    }
  }

  lemma SubsetKeepsOrder(e: Edges, f: Edges)
    requires e <= f
    ensures KeepsOrder(e, f)
  {
  }

  lemma KeepsOrderTrans(e: Edges, f: Edges, g: Edges)
    requires KeepsOrder(e, f) && KeepsOrder(f, g)
    ensures KeepsOrder(e, g)
  {
  }

  /** Adding the same edges on both sides keeps an order relation between two graphs. */
  lemma KeepsOrderUnion(e: Edges, f: Edges, q: Edges)
    requires KeepsOrder(e, f + q)
    ensures KeepsOrder(e + q, f + q)
  {
    forall a, b | (a, b) in e + q
      ensures Reach(f + q, a, b)
    {
      if (a, b) in e {
        EdgeReach(e, a, b);
      } else {
        EdgeReach(f + q, a, b);
      }
    }
    EdgesKeepOrder(e + q, f + q);
  }

  lemma ForwardReach(e: Edges, a: nat, b: nat)
    requires Forward(e) && Reach(e, a, b)
    ensures a < b
  {
    var p :| IsPath(e, p) && p[0] == a && p[|p| - 1] == b;
    ForwardPath(e, p);
  }

  lemma {:induction false} ForwardPath(e: Edges, p: seq<nat>)
    requires Forward(e) && IsPath(e, p)
    ensures p[0] < p[|p| - 1]
    decreases |p|
  {
    assert (p[0], p[0 + 1]) in e;
    if |p| > 2 {
      PathTail(e, p);
      var q := p[1..];
      ForwardPath(e, q);
    }
  }

  /** An edge that is not needed: some task lies strictly between its end points. */
  ghost predicate Bypassed(e: Edges, a: nat, b: nat)
  {
    exists m :: Reach(e, a, m) && Reach(e, m, b)
  }

  /** Transitive reduction is safe even when all edges are judged against the graph as it was
      before any removal: by induction on the span of the removed edge, the bypass only uses
      shorter edges. */
  lemma PruneKeepsOrder(e: Edges, f: Edges)
    requires Forward(e)
    requires forall a, b :: (a, b) in e && (a, b) !in f ==> Bypassed(e, a, b)
    ensures KeepsOrder(e, f)
  {
    forall a, b | Reach(e, a, b)
      ensures Reach(f, a, b)
    {
      PruneReach(e, f, a, b);
    }
  }

  lemma {:induction false} PruneReach(e: Edges, f: Edges, a: nat, b: nat)
    requires Forward(e)
    requires forall a, b :: (a, b) in e && (a, b) !in f ==> Bypassed(e, a, b)
    requires Reach(e, a, b)
    ensures Reach(f, a, b)
    decreases if a < b then b - a else 0
  {
    ForwardReach(e, a, b);
    var m := ReachFirst(e, a, b);
    if m != b {
      EdgeReach(e, a, m);
      ForwardReach(e, m, b);
      PruneReach(e, f, a, m);
      PruneReach(e, f, m, b);
      ReachTrans(f, a, m, b);
    } else if (a, b) in f {
      EdgeReach(f, a, b);
    } else {
      var k :| Reach(e, a, k) && Reach(e, k, b);
      ForwardReach(e, a, k);
      ForwardReach(e, k, b);
      PruneReach(e, f, a, k);
      PruneReach(e, f, k, b);
      ReachTrans(f, a, k, b);
    }
  }

  /** The graph without the edges that touch a task outside `[lo, hi]`. */
  ghost function Within(e: Edges, lo: nat, hi: nat): Edges
  {
    set x | x in e && lo <= x.0 <= hi && lo <= x.1 <= hi
  }

  /** Paths of a forward graph between two tasks of a range never leave the range. */
  lemma {:induction false} ReachWithin(e: Edges, lo: nat, hi: nat, a: nat, b: nat)
    requires Forward(e) && Reach(e, a, b) && lo <= a && b <= hi
    ensures Reach(Within(e, lo, hi), a, b)
    decreases if a < b then b - a else 0
  {
    ForwardReach(e, a, b);
    var m := ReachFirst(e, a, b);
    if m == b {
      EdgeReach(Within(e, lo, hi), a, b);
    } else {
      ForwardReach(e, m, b);
      EdgeReach(Within(e, lo, hi), a, m);
      ReachWithin(e, lo, hi, m, b);
      ReachTrans(Within(e, lo, hi), a, m, b);
    }
  }

  //
  // Runs
  //

  /** A (possibly partial) run of tasks `0..n-1`: no task starts twice, and a task starts only
      after all its direct predecessors. */
  ghost predicate IsRun(e: Edges, n: nat, r: seq<nat>)
  {
    && (forall i :: 0 <= i < |r| ==> r[i] < n)
    && (forall i, j :: 0 <= i < j < |r| ==> r[i] != r[j])
    && (forall i, a :: 0 <= i < |r| && (a, r[i]) in e ==> a in r[..i])
  }

  ghost predicate SameRuns(e: Edges, f: Edges, n: nat)
  {
    forall r :: IsRun(e, n, r) <==> IsRun(f, n, r)
  }

  lemma {:induction false} RunRespectsOrder(e: Edges, n: nat, r: seq<nat>, i: nat, a: nat)
    requires IsRun(e, n, r) && i < |r| && Reach(e, a, r[i])
    ensures a in r[..i]
    decreases i
  {
    var m := ReachLast(e, a, r[i]);
    assert m in r[..i];
    var j :| 0 <= j < i && r[j] == m;
    if m != a {
      RunRespectsOrder(e, n, r, j, a);
    }
  }

  /** Losing no order means allowing no new run. */
  lemma KeepsOrderRuns(e: Edges, f: Edges, n: nat, r: seq<nat>)
    requires KeepsOrder(e, f) && IsRun(f, n, r)
    ensures IsRun(e, n, r)
  {
    forall i, a | 0 <= i < |r| && (a, r[i]) in e
      ensures a in r[..i]
    {
      EdgeReach(e, a, r[i]);
      RunRespectsOrder(f, n, r, i, a);
    }
  }

  /** Graphs with the same happens-before order have the same runs. */
  lemma SameOrderSameRuns(e: Edges, f: Edges, n: nat)
    requires SameOrder(e, f)
    ensures SameRuns(e, f, n)
  {
    forall r
      ensures IsRun(e, n, r) <==> IsRun(f, n, r)
    {
      if IsRun(e, n, r) { KeepsOrderRuns(f, e, n, r); }
      if IsRun(f, n, r) { KeepsOrderRuns(e, f, n, r); }
    }
  }

  /** The tasks of `s` below `k`, ascending. */
  ghost function Ascending(s: set<nat>, k: nat): (r: seq<nat>)
    ensures forall i :: 0 <= i < |r| ==> r[i] < k
  {
    if k == 0 then []
    else if k - 1 in s then Ascending(s, k - 1) + [k - 1]
    else Ascending(s, k - 1)
  }

  lemma {:induction false} AscendingTasks(s: set<nat>, k: nat)
    ensures var r := Ascending(s, k);
            && (forall i :: 0 <= i < |r| ==> r[i] in s)
            && (forall i, j :: 0 <= i < j < |r| ==> r[i] < r[j])
            && (forall x :: x in s && x < k ==> x in r)
  {
    if k > 0 { AscendingTasks(s, k - 1); }
  }

  /** Any predecessor-closed set of tasks of a forward graph can be executed on its own. */
  lemma ClosedSetRuns(e: Edges, n: nat, s: set<nat>)
    requires Forward(e)
    requires forall x :: x in s ==> x < n
    requires forall a, b :: (a, b) in e && b in s ==> a in s
    ensures IsRun(e, n, Ascending(s, n))
  {
    var r := Ascending(s, n);
    AscendingTasks(s, n);
    forall i, a | 0 <= i < |r| && (a, r[i]) in e
      ensures a in r[..i]
    {
      var j :| 0 <= j < |r| && r[j] == a;
      assert j < i;
    }
  }

  /** The converse: the runs of a forward graph determine its happens-before order, so comparing
      orders is not stronger than comparing runs. */
  lemma RunsDetermineOrder(e: Edges, f: Edges, n: nat)
    requires Forward(f)
    requires forall a, b :: (a, b) in e ==> a < n && b < n
    requires forall r :: IsRun(f, n, r) ==> IsRun(e, n, r)
    ensures KeepsOrder(e, f)
  {
    forall a, b | (a, b) in e
      ensures Reach(f, a, b)
    {
      var s := set x | 0 <= x < n && (x == b || Reach(f, x, b));
      forall x, y | (x, y) in f && y in s
        ensures x in s
      {
        EdgeReach(f, x, y);
        if y != b { ReachTrans(f, x, y, b); ForwardReach(f, y, b); }
      }
      ClosedSetRuns(f, n, s);
      var r := Ascending(s, n);
      AscendingTasks(s, n);
      assert b in s && b in r;
      var i :| 0 <= i < |r| && r[i] == b;
      assert a in r[..i];
      var j :| 0 <= j < i && r[j] == a;
      assert a in s && a != b;
    }
    EdgesKeepOrder(e, f);
  }

  /** A forward graph never deadlocks: every unfinished run can start some task. */
  lemma NoDeadlock(e: Edges, n: nat, r: seq<nat>) returns (t: nat)
    requires Forward(e) && IsRun(e, n, r)
    requires exists x :: 0 <= x < n && x !in r
    ensures IsRun(e, n, r + [t]) && t < n && t !in r
  {
    t := 0;
    while t in r
      invariant forall x :: 0 <= x < t ==> x in r
      decreases n - t
    {
      t := t + 1;
    }
    var q := r + [t];
    assert q[..|r|] == r;
    forall i, a | 0 <= i < |q| && (a, q[i]) in e
      ensures a in q[..i]
    {
      if i < |r| { assert q[..i] == r[..i]; }
    }
  }
}
