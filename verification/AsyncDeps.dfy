/** Dependencies between asynchronous operations: cycle detection, transitive reduction and the consumer map. */
module AsyncDeps {
  import opened TaskGraph
  import opened Barriers

  /** `(x, d)`: operation `d` depends on operation `x`. */
  ghost function DepEdges(deps: IndexSets): Edges
  {
    set d, x | 0 <= d < |deps| && x in deps[d] :: (x, d)
  }

  ghost predicate Acyclic(e: Edges)
  {
    forall x :: !Reach(e, x, x)
  }

  ghost predicate InBounds(deps: IndexSets)
  {
    forall d, x {:trigger x in deps[d]} :: 0 <= d < |deps| && x in deps[d] ==> x < |deps|
  }

  //
  // Reduction of acyclic graphs
  //

  /** The operations below `n` that precede `x`. */
  ghost function Ancestors(e: Edges, n: nat, x: nat): set<nat>
  {
    set y | 0 <= y < n && Reach(e, y, x)
  }

  lemma {:induction false} SmallerSet(a: set<nat>, b: set<nat>)
    requires a < b
    ensures |a| < |b|
  {
    var x :| x in b && x !in a;
    if a != {} {
      var y :| y in a;
      SmallerSet(a - {y}, b - {y});
    }
  }

  /** The number of ancestors ranks an acyclic graph. */
  lemma AncestorsGrow(e: Edges, n: nat, a: nat, b: nat)
    requires Acyclic(e) && Reach(e, a, b) && a < n
    ensures |Ancestors(e, n, a)| < |Ancestors(e, n, b)|
  {
    forall y | y in Ancestors(e, n, a)
      ensures y in Ancestors(e, n, b)
    {
      ReachTrans(e, y, a, b);
    }
    assert a in Ancestors(e, n, b) && a !in Ancestors(e, n, a);
    SmallerSet(Ancestors(e, n, a), Ancestors(e, n, b));
  }

  ghost function Span(e: Edges, n: nat, a: nat, b: nat): nat
  {
    var ra, rb := |Ancestors(e, n, a)|, |Ancestors(e, n, b)|;
    if ra < rb then rb - ra else 0
  }

  lemma ReachBounds(e: Edges, n: nat, a: nat, b: nat)
    requires Reach(e, a, b) && forall x, y :: (x, y) in e ==> x < n && y < n
    ensures a < n && b < n
  {
    var m := ReachFirst(e, a, b);
    var k := ReachLast(e, a, b);
  }

  /** Dropping bypassed edges keeps the order of every acyclic graph, by induction on the distance in rank. */
  lemma {:induction false} AcyclicPrune(e: Edges, f: Edges, n: nat, a: nat, b: nat)
    requires Acyclic(e) && forall x, y :: (x, y) in e ==> x < n && y < n
    requires forall x, y :: (x, y) in e && (x, y) !in f ==> Bypassed(e, x, y)
    requires Reach(e, a, b)
    ensures Reach(f, a, b)
    decreases Span(e, n, a, b)
  {
    ReachBounds(e, n, a, b);
    AncestorsGrow(e, n, a, b);
    var m := ReachFirst(e, a, b);
    if m == b && (a, b) in f {
      EdgeReach(f, a, b);
    } else {
      var k: nat;
      if m == b { k :| Reach(e, a, k) && Reach(e, k, b); } else { k := m; EdgeReach(e, a, m); }
      ReachBounds(e, n, a, k);
      AncestorsGrow(e, n, a, k);
      AncestorsGrow(e, n, k, b);
      AcyclicPrune(e, f, n, a, k);
      AcyclicPrune(e, f, n, k, b);
      ReachTrans(f, a, k, b);
    }
  }

  lemma AcyclicPruneKeeps(e: Edges, f: Edges, n: nat)
    requires Acyclic(e) && forall x, y :: (x, y) in e ==> x < n && y < n
    requires forall x, y :: (x, y) in e && (x, y) !in f ==> Bypassed(e, x, y)
    ensures KeepsOrder(e, f)
  {
    forall a, b | Reach(e, a, b)
      ensures Reach(f, a, b)
    {
      AcyclicPrune(e, f, n, a, b);
    }
  }

  /** An edge without bypass is the only path between its end points. */
  lemma EssentialEdge(e: Edges, f: Edges, a: nat, b: nat)
    requires Acyclic(e) && f <= e && (a, b) in f && !Bypassed(e, a, b)
    ensures !Reach(f - {(a, b)}, a, b)
  {
    var g := f - {(a, b)};
    if Reach(g, a, b) {
      var m := ReachFirst(g, a, b);
      assert m != b;
      SubsetKeepsOrder(g, e);
      EdgeReach(e, a, m);
      assert Bypassed(e, a, b);
    }
  }

  lemma ForwardAcyclic(e: Edges)
    requires Forward(e)
    ensures Acyclic(e)
  {
    forall x
      ensures !Reach(e, x, x)
    {
      if Reach(e, x, x) { ForwardReach(e, x, x); }
    }
  }

  //
  // Closures
  //

  /** Row `d` names only operations that precede `d`. */
  ghost predicate SoundClosure(rows: IndexSets, e: Edges)
  {
    forall d, x {:trigger x in rows[d]} :: 0 <= d < |rows| && x in rows[d] ==> Reach(e, x, d)
  }

  ghost predicate CompleteBelow(rows: IndexSets, e: Edges, n: int)
  {
    forall d: nat, x: nat {:trigger Reach(e, x, d)} :: d < n && d < |rows| && Reach(e, x, d) ==> x in rows[d]
  }

  /** Every row holds the direct dependencies. */
  ghost predicate Includes(rows: IndexSets, deps: IndexSets)
    requires |rows| == |deps|
  {
    forall d :: 0 <= d < |deps| ==> deps[d] <= rows[d]
  }

  ghost predicate SecondOrder(deps: IndexSets, d: nat, x: nat)
    requires d < |deps|
  {
    exists c :: c in deps[d] && c < |deps| && x in deps[c]
  }

  lemma DirectSound(deps: IndexSets)
    ensures SoundClosure(deps, DepEdges(deps))
  {
    forall d, x | 0 <= d < |deps| && x in deps[d]
      ensures Reach(DepEdges(deps), x, d)
    {
      EdgeReach(DepEdges(deps), x, d);
    }
  }

  /** One row absorbs the rows of its dependencies. */
  method AbsorbRows(deps: IndexSets, rows: IndexSets, i: nat) returns (row: set<nat>)
    requires |rows| == |deps| && i < |deps| && InBounds(deps)
    ensures forall x :: x in row <==> x in deps[i] || exists c :: c in deps[i] && x in rows[c]
  {
    row := deps[i];
    var done, rest := {}, deps[i];
    while rest != {}
      invariant done + rest == deps[i]
      invariant forall x :: x in row <==> x in deps[i] || exists c :: c in done && x in rows[c]
      decreases rest
    {
      var c :| c in rest;
      row := row + rows[c];
      done, rest := done + {c}, rest - {c};
    }
    assert done == deps[i];
  }

  lemma AbsorbedSound(deps: IndexSets, rows: IndexSets, i: nat, row: set<nat>)
    requires |rows| == |deps| && i < |deps| && InBounds(deps) && SoundClosure(rows, DepEdges(deps))
    requires forall x :: x in row <==> x in deps[i] || exists c :: c in deps[i] && x in rows[c]
    ensures SoundClosure(rows[i := row], DepEdges(deps))
  {
    var e := DepEdges(deps);
    forall x | x in row
      ensures Reach(e, x, i)
    {
      if x in deps[i] {
        EdgeReach(e, x, i);
      } else {
        var c :| c in deps[i] && x in rows[c];
        EdgeReach(e, c, i);
        ReachTrans(e, x, c, i);
      }
    }
  }

  lemma AbsorbedComplete(deps: IndexSets, rows: IndexSets, i: nat, row: set<nat>)
    requires |rows| == |deps| && i < |deps| && Forward(DepEdges(deps)) && CompleteBelow(rows, DepEdges(deps), i)
    requires InBounds(deps)
    requires forall x :: x in row <==> x in deps[i] || exists c :: c in deps[i] && x in rows[c]
    ensures CompleteBelow(rows[i := row], DepEdges(deps), i + 1)
  {
    var e := DepEdges(deps);
    forall x: nat | Reach(e, x, i)
      ensures x in row
    {
      var c := ReachLast(e, x, i);
      assert c in deps[i] && c < i;
    }
  }

  /** Full closure: rows absorb rows that already absorbed theirs. The last row is left as it is. */
  method FullClosure(deps: IndexSets) returns (rows: IndexSets)
    requires InBounds(deps)
    ensures |rows| == |deps| && SoundClosure(rows, DepEdges(deps)) && Includes(rows, deps)
    ensures Forward(DepEdges(deps)) ==> CompleteBelow(rows, DepEdges(deps), |deps| - 1)
  {
    rows := deps;
    DirectSound(deps);
    var i := 0;
    while i + 1 < |rows|
      invariant |rows| == |deps| && (i < |rows| || i == 0) && SoundClosure(rows, DepEdges(deps)) && Includes(rows, deps)
      invariant forall j :: i <= j < |rows| ==> rows[j] == deps[j]
      invariant Forward(DepEdges(deps)) ==> CompleteBelow(rows, DepEdges(deps), i)
    {
      var row := AbsorbRows(deps, rows, i);
      AbsorbedSound(deps, rows, i, row);
      if Forward(DepEdges(deps)) { AbsorbedComplete(deps, rows, i, row); }
      rows := rows[i := row];
      i := i + 1;
    }
  }

  /** Partial closure: rows absorb direct dependencies only. */
  method PartialClosure(deps: IndexSets) returns (rows: IndexSets)
    requires InBounds(deps)
    ensures |rows| == |deps| && SoundClosure(rows, DepEdges(deps)) && Includes(rows, deps)
    ensures forall i, x :: 0 <= i < |deps| - 1 ==> (x in rows[i] <==> x in deps[i] || SecondOrder(deps, i, x))
    ensures |deps| > 0 ==> rows[|deps| - 1] == deps[|deps| - 1]
  {
    rows := deps;
    DirectSound(deps);
    var i := 0;
    while i + 1 < |rows|
      invariant i <= |rows| == |deps| && (i < |rows| || i == 0) && SoundClosure(rows, DepEdges(deps))
      invariant Includes(rows, deps)
      invariant forall j, x :: 0 <= j < i ==> (x in rows[j] <==> x in deps[j] || SecondOrder(deps, j, x))
      invariant forall j :: i <= j < |rows| ==> rows[j] == deps[j]
    {
      var row := AbsorbRows(deps, deps, i);
      AbsorbedSound(deps, deps, i, row);
      assert deps[i := row][i] == row;
      rows := rows[i := row];
      i := i + 1;
    }
  }

  //
  // Reduction
  //

  /** Drops the dependencies that some dependency of the row already covers. */
  method ReduceRow(row: set<nat>, closure: IndexSets) returns (reduced: set<nat>)
    requires forall x :: x in row ==> x < |closure|
    ensures forall x :: x in reduced <==> x in row && forall c :: c in row ==> x !in closure[c]
  {
    reduced := row;
    var done, rest := {}, row;
    while rest != {}
      invariant done + rest == row
      invariant forall x :: x in reduced <==> x in row && forall c :: c in done ==> x !in closure[c]
      decreases rest
    {
      var c :| c in rest;
      reduced := DropCovered(reduced, closure[c]);
      done, rest := done + {c}, rest - {c};
    }
    assert done == row;
  }

  method DropCovered(row: set<nat>, covered: set<nat>) returns (left: set<nat>)
    ensures left == row - covered
  {
    left := row;
    var done, rest := {}, row;
    while rest != {}
      invariant done + rest == row && left == row - (done * covered)
      decreases rest
    {
      var x :| x in rest;
      if x in covered { left := left - {x}; }
      done, rest := done + {x}, rest - {x};
    }
    assert done == row;
  }

  /** Row `d` after reduction. */
  ghost predicate RowReduced(row: set<nat>, closure: IndexSets, reduced: set<nat>)
  {
    if |row| <= 1 then reduced == row
    else forall x :: x in reduced <==> x in row && forall c :: c in row && c < |closure| ==> x !in closure[c]
  }

  lemma Singleton(s: set<nat>, x: nat, y: nat)
    requires |s| <= 1 && x in s && y in s
    ensures x == y
  {
    assert x in s;
    var r := s - {x};
    assert |r| == 0;
  }

  /** Reduction drops bypassed edges only. */
  lemma ReducedBypassed(deps: IndexSets, closure: IndexSets, kept: IndexSets, x: nat, d: nat)
    requires |deps| == |closure| == |kept| && InBounds(deps) && SoundClosure(closure, DepEdges(deps))
    requires d < |deps| && RowReduced(deps[d], closure, kept[d]) && x in deps[d] && x !in kept[d]
    ensures Bypassed(DepEdges(deps), x, d)
  {
    var c :| c in deps[d] && c < |closure| && x in closure[c];
    EdgeReach(DepEdges(deps), c, d);
  }

  /** With a complete closure it drops all of them. */
  lemma ReducedEssential(deps: IndexSets, closure: IndexSets, kept: IndexSets, x: nat, d: nat)
    requires |deps| == |closure| == |kept| && InBounds(deps) && Forward(DepEdges(deps))
    requires CompleteBelow(closure, DepEdges(deps), |deps| - 1)
    requires d < |deps| && RowReduced(deps[d], closure, kept[d]) && x in kept[d]
    ensures !Bypassed(DepEdges(deps), x, d)
  {
    var e := DepEdges(deps);
    if m :| Reach(e, x, m) && Reach(e, m, d) {
      var c := ReachLast(e, m, d);
      if c != m { ReachTrans(e, x, m, c); }
      assert Reach(e, x, c) && c in deps[d] && c < d;
      if |deps[d]| <= 1 {
        Singleton(deps[d], x, c);
        ForwardReach(e, x, c);
      }
    }
  }

  lemma NewEdges(deps: IndexSets, kept: IndexSets)
    requires |deps| == |kept| && forall d :: 0 <= d < |deps| ==> kept[d] <= deps[d]
    ensures DepEdges(kept) <= DepEdges(deps)
  {
  }

  lemma ReductionKeeps(deps: IndexSets, closure: IndexSets, kept: IndexSets)
    requires |deps| == |closure| == |kept| && InBounds(deps) && SoundClosure(closure, DepEdges(deps))
    requires forall d :: 0 <= d < |deps| ==> RowReduced(deps[d], closure, kept[d])
    ensures DepEdges(kept) <= DepEdges(deps)
    ensures Acyclic(DepEdges(deps)) ==> SameOrder(DepEdges(deps), DepEdges(kept))
  {
    var e, f := DepEdges(deps), DepEdges(kept);
    assert forall d :: 0 <= d < |deps| ==> kept[d] <= deps[d];
    NewEdges(deps, kept);
    SubsetKeepsOrder(f, e);
    if Acyclic(e) {
      forall x, d | (x, d) in e && (x, d) !in f
        ensures Bypassed(e, x, d)
      {
        ReducedBypassed(deps, closure, kept, x, d);
      }
      AcyclicPruneKeeps(e, f, |deps|);
    }
  }

  /** In either mode no kept dependency is bypassed by two original ones. */
  ghost predicate NoShortBypass(e: Edges, f: Edges)
  {
    forall x, c, d :: (x, d) in f && (c, d) in e ==> (x, c) !in e
  }

  lemma ReductionDropsShort(deps: IndexSets, closure: IndexSets, kept: IndexSets)
    requires |deps| == |closure| == |kept| && InBounds(deps) && Includes(closure, deps) && Acyclic(DepEdges(deps))
    requires forall d :: 0 <= d < |deps| ==> RowReduced(deps[d], closure, kept[d])
    ensures NoShortBypass(DepEdges(deps), DepEdges(kept))
  {
    var e, f := DepEdges(deps), DepEdges(kept);
    forall x, c, d | (x, d) in f && (c, d) in e
      ensures (x, c) !in e
    {
      assert RowReduced(deps[d], closure, kept[d]) && x in kept[d] && c in deps[d];
      if (x, c) in e {
        assert x in closure[c];
        if |deps[d]| <= 1 {
          Singleton(deps[d], x, c);
          EdgeReach(e, x, c);
        }
      }
    }
  }

  /** Some dependency of the row depends on `x`, directly or in two steps; for the last operation only direct
      dependencies count. */
  ghost predicate ShortCovered(deps: IndexSets, d: nat, x: nat)
    requires d < |deps|
  {
    exists c :: c in deps[d] && c < |deps| && (x in deps[c] || (c + 1 < |deps| && SecondOrder(deps, c, x)))
  }

  /** Of every row with several dependencies exactly the ones covered in at most three steps are gone. */
  ghost predicate PartiallyReduced(deps: IndexSets, kept: IndexSets)
  {
    && |kept| == |deps|
    && forall d, x :: 0 <= d < |deps| && x >= 0 ==>
         (x in kept[d] <==> x in deps[d] && (|deps[d]| <= 1 || !ShortCovered(deps, d, x)))
  }

  lemma PartialReduction(deps: IndexSets, closure: IndexSets, kept: IndexSets)
    requires |deps| == |closure| == |kept| && InBounds(deps) && (|deps| > 0 ==> closure[|deps| - 1] == deps[|deps| - 1])
    requires forall i, x :: 0 <= i < |deps| - 1 ==> (x in closure[i] <==> x in deps[i] || SecondOrder(deps, i, x))
    requires forall d :: 0 <= d < |deps| ==> RowReduced(deps[d], closure, kept[d])
    ensures PartiallyReduced(deps, kept)
  {
    forall d, x | 0 <= d < |deps| && x >= 0
      ensures x in kept[d] <==> x in deps[d] && (|deps[d]| <= 1 || !ShortCovered(deps, d, x))
    {
      assert RowReduced(deps[d], closure, kept[d]);
    }
  }

  /** No remaining dependency can be left out. */
  ghost predicate Minimal(f: Edges)
  {
    forall x, d :: (x, d) in f ==> !Reach(f - {(x, d)}, x, d)
  }

  lemma ReductionMinimal(deps: IndexSets, closure: IndexSets, kept: IndexSets)
    requires |deps| == |closure| == |kept| && InBounds(deps) && Forward(DepEdges(deps))
    requires DepEdges(kept) <= DepEdges(deps)
    requires CompleteBelow(closure, DepEdges(deps), |deps| - 1)
    requires forall d :: 0 <= d < |deps| ==> RowReduced(deps[d], closure, kept[d])
    ensures Minimal(DepEdges(kept))
  {
    var e, f := DepEdges(deps), DepEdges(kept);
    ForwardAcyclic(e);
    forall x, d | (x, d) in f
      ensures !Reach(f - {(x, d)}, x, d)
    {
      ReducedEssential(deps, closure, kept, x, d);
      EssentialEdge(e, f, x, d);
    }
  }

  //
  // The dependency maps
  //

  datatype Color = White | Gray | Black

  class AsyncDepsInfo {
    var deps: IndexSets
    /** Empty until it is built. */
    var consumers: IndexSets

    ghost predicate Valid()
      reads this
    {
      InBounds(deps) && (consumers == [] || (|consumers| == |deps| && Inverse(deps, consumers)))
    }

    ghost function Graph(): Edges
      reads this
    {
      DepEdges(deps)
    }

    constructor (deps: IndexSets)
      requires InBounds(deps)
      ensures Valid() && this.deps == deps && consumers == []
    {
      this.deps, consumers := deps, [];
    }

    method AddDependency(before: nat, after: nat)
      requires Valid() && before < |deps| && after < |deps|
      modifies this
      ensures Valid() && |deps| == old(|deps|) && (consumers == [] <==> old(consumers) == [])
      ensures deps == old(deps)[after := old(deps)[after] + {before}]
      ensures Graph() == old(Graph()) + {(before, after)}
    {
      ghost var deps0 := deps;
      deps := deps[after := deps[after] + {before}];
      if consumers != [] {
        consumers := consumers[before := consumers[before] + {after}];
      }
      forall p | p in DepEdges(deps)
        ensures p in DepEdges(deps0) + {(before, after)}
      {
        var d, x :| 0 <= d < |deps| && x in deps[d] && p == (x, d);
        assert x in deps0[d] || p == (before, after);
      }
      forall p | p in DepEdges(deps0) + {(before, after)}
        ensures p in DepEdges(deps)
      {
        assert p.0 in deps[p.1];
      }
    }

    /** From an empty or a built map alike, the result is the inverse of the dependencies. */
    method BuildConsMap()
      requires Valid()
      modifies `consumers
      ensures Valid() && |consumers| == |deps| && Inverse(deps, consumers)
    {
      if consumers == [] {
        consumers := seq(|deps|, _ => {});
      }
      ghost var c0 := consumers;
      var d := 0;
      while d < |deps|
        invariant d <= |deps| == |consumers|
        invariant forall i, x {:trigger x in deps[i]} :: 0 <= i < d && x in deps[i] ==> i in consumers[x]
        invariant forall i, x {:trigger i in consumers[x]} :: 0 <= x < |consumers| && i in consumers[x] ==>
                    i < |deps| && x in deps[i]
      {
        var done, rest := {}, deps[d];
        while rest != {}
          invariant done + rest == deps[d] && |consumers| == |deps|
          invariant forall i, x {:trigger x in deps[i]} :: 0 <= i < d && x in deps[i] ==> i in consumers[x]
          invariant forall i, x {:trigger i in consumers[x]} :: 0 <= x < |consumers| && i in consumers[x] ==>
                      i < |deps| && x in deps[i]
          invariant forall x :: x in done ==> d in consumers[x]
          decreases rest
        {
          var x :| x in rest;
          consumers := consumers[x := consumers[x] + {d}];
          done, rest := done + {x}, rest - {x};
        }
        assert done == deps[d];
        d := d + 1;
      }
    }

    /** More operations than this, and only the partial closure is computed. */
    const simplifiedThreshold := 10000

    /** The order of every acyclic graph is kept, and what two original dependencies bypass is gone; if moreover every
        dependency precedes its user and the closure is full,
        no remaining dependency is redundant. */
    method OptimizeDepsMap()
      requires Valid()
      modifies this
      ensures Valid() && |deps| == old(|deps|) && Graph() <= old(Graph())
      ensures |deps| > 0 ==> (consumers == [] <==> old(consumers) == [])
      ensures Acyclic(old(Graph())) ==> SameOrder(old(Graph()), Graph()) && SameRuns(old(Graph()), Graph(), |deps|)
      ensures Acyclic(old(Graph())) ==> NoShortBypass(old(Graph()), Graph())
      ensures Forward(old(Graph())) && |deps| <= 10000 ==> Minimal(Graph())
      ensures |deps| > 10000 ==> PartiallyReduced(old(deps), deps)
    {
      ghost var deps0 := deps;
      var closure;
      if |deps| > simplifiedThreshold {
        closure := PartialClosure(deps);
      } else {
        closure := FullClosure(deps);
      }
      ReduceRows(closure);
      ReductionKeeps(deps0, closure, deps);
      if Acyclic(DepEdges(deps0)) {
        SameOrderSameRuns(DepEdges(deps0), Graph(), |deps|);
        ReductionDropsShort(deps0, closure, deps);
      }
      if |deps| > simplifiedThreshold { PartialReduction(deps0, closure, deps); }
      if Forward(DepEdges(deps0)) && |deps| <= simplifiedThreshold {
        ReductionMinimal(deps0, closure, deps);
      }
      if consumers != [] {
        consumers := [];
        BuildConsMap();
      }
    }

    method ReduceRows(closure: IndexSets)
      requires InBounds(deps) && |closure| == |deps|
      modifies `deps
      ensures InBounds(deps) && |deps| == old(|deps|)
      ensures forall d :: 0 <= d < |deps| ==> RowReduced(old(deps)[d], closure, deps[d])
    {
      var d := |deps|;
      while d > 0
        invariant 0 <= d <= |deps| == old(|deps|)
        invariant forall i :: 0 <= i < d ==> deps[i] == old(deps)[i]
        invariant forall i :: d <= i < |deps| ==> RowReduced(old(deps)[i], closure, deps[i])
      {
        d := d - 1;
        if |deps[d]| > 1 {
          var row := ReduceRow(deps[d], closure);
          deps := deps[d := row];
        }
      }
      forall i, x | 0 <= i < |deps| && x in deps[i]
        ensures x < |deps|
      {
        assert RowReduced(old(deps)[i], closure, deps[i]);
        assert x in old(deps)[i];
      }
    }

    //
    // Cycles
    //

    /** Visits the operations that `node` depends on; `order` lists the finished operations, dependencies first. */
    method Visit(node: nat, colors: array<Color>, ghost order: seq<nat>) returns (cyclic: bool, ghost order': seq<nat>)
      requires Valid() && colors.Length == |deps| && node < |deps| && colors[node] == White
      requires forall g :: 0 <= g < |deps| && colors[g] == Gray ==> Reach(Graph(), node, g)
      requires Finished(deps, colors[..], order)
      modifies colors
      ensures cyclic ==> !Acyclic(Graph())
      ensures !cyclic ==>
                Finished(deps, colors[..], order') && Advanced(old(colors[..]), colors[..]) && colors[node] == Black
      decreases |Whites(colors[..])|
    {
      colors[node] := Gray;
      order' := order;
      ghost var cs0 := colors[..];
      FinishedSame(deps, old(colors[..]), cs0, order);
      WhitesShrink(old(colors[..]), node);
      var done, rest := {}, deps[node];
      while rest != {}
        invariant done + rest == deps[node] && Advanced(cs0, colors[..]) && Finished(deps, colors[..], order')
        invariant forall x :: x in done ==> colors[x] == Black
        decreases rest
      {
        var x :| x in rest;
        EdgeReach(Graph(), x, node);
        if colors[x] == Gray {
          if x != node { ReachTrans(Graph(), x, node, x); }
          return true, order';
        }
        if colors[x] == White {
          forall g | 0 <= g < |deps| && colors[g] == Gray
            ensures Reach(Graph(), x, g)
          {
            assert cs0[g] == Gray;
            if g != node { ReachTrans(Graph(), x, node, g); }
          }
          WhitesAdvance(cs0, colors[..]);
          ghost var cs1 := colors[..];
          cyclic, order' := Visit(x, colors, order');
          if cyclic {
            return;
          }
          assert Advanced(cs1, colors[..]);
        }
        done, rest := done + {x}, rest - {x};
      }
      assert done == deps[node];
      FinishedGrows(deps, colors[..], order', node);
      colors[node] := Black;
      order' := order' + [node];
      return false, order';
    }

    /** True exactly if some operation depends on itself; otherwise `order` is a schedule of all operations, each after
        its dependencies. */
    method HasCycle() returns (cyclic: bool, ghost order: seq<nat>)
      requires Valid()
      ensures cyclic <==> !Acyclic(Graph())
      ensures !cyclic ==> IsRun(Graph(), |deps|, order) && forall d :: 0 <= d < |deps| ==> d in order
    {
      var colors := new Color[|deps|](_ => White);
      order := [];
      var i := 0;
      while i < |deps|
        invariant i <= |deps| && Finished(deps, colors[..], order)
        invariant forall d :: 0 <= d < |deps| ==> colors[d] != Gray
        invariant forall d :: 0 <= d < i ==> colors[d] == Black
      {
        if colors[i] == White {
          ghost var cs := colors[..];
          cyclic, order := Visit(i, colors, order);
          if cyclic {
            return;
          }
          assert Advanced(cs, colors[..]);
        }
        i := i + 1;
      }
      FinishedAcyclic(deps, colors[..], order);
      return false, order;
    }
  }

  ghost function Whites(cs: seq<Color>): set<nat>
  {
    set i | 0 <= i < |cs| && cs[i] == White
  }

  /** The black operations are those of `order`, which lists each after its dependencies. */
  ghost predicate Finished(deps: IndexSets, cs: seq<Color>, order: seq<nat>)
  {
    && |cs| == |deps| && Distinct(order)
    && (forall i :: 0 <= i < |cs| ==> (cs[i] == Black <==> i in order))
    && (forall k :: 0 <= k < |order| ==> order[k] < |deps| && deps[order[k]] <= Before(order, k))
  }

  ghost function Before(order: seq<nat>, k: nat): set<nat>
    requires k <= |order|
  {
    set i | i in order[..k]
  }

  ghost predicate Advanced(cs: seq<Color>, cs': seq<Color>)
  {
    && |cs| == |cs'|
    && forall i :: 0 <= i < |cs| ==> (cs[i] == Gray <==> cs'[i] == Gray) && (cs[i] == Black ==> cs'[i] == Black)
  }

  lemma FinishedSame(deps: IndexSets, cs: seq<Color>, cs': seq<Color>, order: seq<nat>)
    requires Finished(deps, cs, order) && |cs'| == |cs|
    requires forall i :: 0 <= i < |cs| ==> (cs[i] == Black <==> cs'[i] == Black)
    ensures Finished(deps, cs', order)
  {
  }

  lemma FinishedGrows(deps: IndexSets, cs: seq<Color>, order: seq<nat>, node: nat)
    requires Finished(deps, cs, order) && node < |cs| && cs[node] != Black && InBounds(deps)
    requires forall x :: x in deps[node] ==> x < |cs| && cs[x] == Black
    ensures Finished(deps, cs[node := Black], order + [node])
  {
    var order' := order + [node];
    assert order'[..|order|] == order;
    forall k | 0 <= k < |order'|
      ensures order'[k] < |deps| && deps[order'[k]] <= Before(order', k)
    {
      if k < |order| {
        assert order'[..k] == order[..k];
        assert deps[order[k]] <= Before(order, k);
      }
    }
  }

  lemma WhitesShrink(cs: seq<Color>, node: nat)
    requires node < |cs| && cs[node] == White
    ensures |Whites(cs[node := Gray])| < |Whites(cs)|
  {
    assert node in Whites(cs) && node !in Whites(cs[node := Gray]);
    SmallerSet(Whites(cs[node := Gray]), Whites(cs));
  }

  lemma WhitesAdvance(cs: seq<Color>, cs': seq<Color>)
    requires Advanced(cs, cs')
    ensures |Whites(cs')| <= |Whites(cs)|
  {
    if Whites(cs') != Whites(cs) { SmallerSet(Whites(cs'), Whites(cs)); }
  }

  /** A finished graph has no cycle: along an edge the position in `order` grows. */
  lemma {:induction false} PositionsGrow(deps: IndexSets, order: seq<nat>, p: seq<nat>, k: nat) returns (j: nat)
    requires forall k :: 0 <= k < |order| ==> order[k] < |deps| && deps[order[k]] <= Before(order, k)
    requires IsPath(DepEdges(deps), p) && k < |order| && p[|p| - 1] == order[k]
    ensures j < k && order[j] == p[0]
    decreases |p|
  {
    var n := |p| - 2;
    assert (p[n], p[n + 1]) in DepEdges(deps);
    assert p[n] in Before(order, k);
    j :| 0 <= j < k && order[j] == p[n];
    if n > 0 {
      assert IsPath(DepEdges(deps), p[..n + 1]);
      j := PositionsGrow(deps, order, p[..n + 1], j);
    }
  }

  lemma FinishedAcyclic(deps: IndexSets, cs: seq<Color>, order: seq<nat>)
    requires Finished(deps, cs, order) && (forall d :: 0 <= d < |deps| ==> cs[d] == Black) && InBounds(deps)
    ensures Acyclic(DepEdges(deps)) && IsRun(DepEdges(deps), |deps|, order)
  {
    var e := DepEdges(deps);
    forall x: nat
      ensures !Reach(e, x, x)
    {
      if Reach(e, x, x) {
        var p :| IsPath(e, p) && p[0] == x && p[|p| - 1] == x;
        ReachBounds(e, |deps|, x, x);
        assert cs[x] == Black && x in order;
        var k :| 0 <= k < |order| && order[k] == x;
        var j := PositionsGrow(deps, order, p, k);
      }
    }
    forall i, a | 0 <= i < |order| && (a, order[i]) in e
      ensures a in order[..i]
    {
      assert a in Before(order, i);
    }
  }
}
