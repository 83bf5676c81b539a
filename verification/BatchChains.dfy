/** Task sets linked one to the next by barriers, and the order such a chain enforces. */
module BatchChains {
  import opened TaskGraph
  import opened Barriers
  import opened BarrierEdits
  import opened VariantBatches

  ghost predicate Before(s: set<nat>, t: set<nat>)
  {
    forall x, y :: x in s && y in t ==> x < y
  }

  /** Edges from each part to its successor, within `parts[from..end]`. */
  ghost function Links(parts: seq<set<nat>>, from: nat, end: nat): Edges
    requires end <= |parts|
  {
    set i, x, y {:trigger x in parts[i], y in parts[i + 1]} |
        from <= i < end - 1 && x in parts[i] && y in parts[i + 1] :: (x, y)
  }

  lemma LinkAt(parts: seq<set<nat>>, from: nat, end: nat, i: nat)
    requires from <= i && i + 1 < end <= |parts|
    ensures Product(parts[i], parts[i + 1]) <= Links(parts, from, end)
  {
    forall e | e in Product(parts[i], parts[i + 1])
      ensures e in Links(parts, from, end)
    {
      assert e.0 in parts[i] && e.1 in parts[i + 1];
    }
  }

  lemma LinksFirst(parts: seq<set<nat>>, from: nat, end: nat)
    requires from + 1 < end <= |parts|
    ensures Links(parts, from, end) == Links(parts, from + 1, end) + Product(parts[from], parts[from + 1])
  {
    LinkAt(parts, from, end, from);
  }

  ghost function Chain(parts: seq<set<nat>>): Edges
  {
    Links(parts, 0, |parts|)
  }

  /** All parts between two given ones hold some task. */
  ghost predicate Unbroken(parts: seq<set<nat>>, i: nat, j: nat)
  {
    forall k {:trigger Occupied(parts[k])} :: i < k < j && k < |parts| ==> Occupied(parts[k])
  }

  /** Without an empty part in between, every task of a part precedes every task of a later one. */
  lemma {:induction false} ChainReach(parts: seq<set<nat>>, i: nat, j: nat, x: nat, y: nat)
    requires i < j < |parts| && x in parts[i] && y in parts[j] && Unbroken(parts, i, j)
    ensures Reach(Chain(parts), x, y)
    decreases j - i
  {
    var e := Chain(parts);
    LinkAt(parts, 0, |parts|, i);
    if i + 1 == j {
      assert (x, y) in Product(parts[i], parts[j]);
      EdgeReach(e, x, y);
    } else {
      assert Occupied(parts[i + 1]);
      var z :| z in parts[i + 1];
      assert (x, z) in Product(parts[i], parts[i + 1]);
      EdgeReach(e, x, z);
      ChainReach(parts, i + 1, j, z, y);
      ReachTrans(e, x, z, y);
    }
  }

  /** Every part lies entirely before all later ones. */
  ghost predicate PartsAscending(parts: seq<set<nat>>)
  {
    forall i, j :: 0 <= i < j < |parts| ==> Before(parts[i], parts[j])
  }

  lemma AscendingForward(parts: seq<set<nat>>)
    requires PartsAscending(parts)
    ensures Forward(Chain(parts))
  {
    forall x, y | (x, y) in Chain(parts)
      ensures x < y
    {
      var i :| 0 <= i < |parts| - 1 && x in parts[i] && y in parts[i + 1];
      assert Before(parts[i], parts[i + 1]);
    }
  }

  lemma OnePart(parts: seq<set<nat>>, i: nat, j: nat, x: nat)
    requires PartsAscending(parts) && i < |parts| && j < |parts| && x in parts[i] && x in parts[j]
    ensures i == j
  {
  }

  /** An empty part cuts the chain: nothing before it precedes anything behind it. */
  lemma {:induction false} EmptyPartCuts(parts: seq<set<nat>>, i: nat, k: nat, j: nat, x: nat, y: nat)
    requires PartsAscending(parts) && i < k < j < |parts| && x in parts[i] && y in parts[j] && parts[k] == {}
    ensures !Reach(Chain(parts), x, y)
    decreases k - i
  {
    if Reach(Chain(parts), x, y) {
      var m := ReachFirst(Chain(parts), x, y);
      var h :| 0 <= h < |parts| - 1 && x in parts[h] && m in parts[h + 1];
      OnePart(parts, i, h, x);
      if m == y {
        OnePart(parts, h + 1, j, y);
      } else if h + 1 != k {
        EmptyPartCuts(parts, h + 1, k, j, m, y);
      }
    }
  }

  /** The exact order of a chain: a part precedes a later one exactly if no part in between is empty. */
  lemma ChainOrder(parts: seq<set<nat>>, i: nat, j: nat, x: nat, y: nat)
    requires PartsAscending(parts) && i < j < |parts| && x in parts[i] && y in parts[j]
    ensures Reach(Chain(parts), x, y) <==> Unbroken(parts, i, j)
  {
    if Unbroken(parts, i, j) {
      ChainReach(parts, i, j, x, y);
    } else {
      var k :| i < k < j && k < |parts| && !Occupied(parts[k]);
      EmptyPartCuts(parts, i, k, j, x, y);
    }
  }

  //
  // The barriers of a chain
  //

  /** Producers of the barriers of `parts[..n]`: one barrier for each part that is not empty, up to the last but one. */
  function LinkProducers(parts: seq<set<nat>>, n: nat): IndexSets
    requires n <= |parts|
  {
    if n < 2 then []
    else LinkProducers(parts, n - 1) + if parts[n - 2] != {} then [parts[n - 2]] else []
  }

  function LinkConsumers(parts: seq<set<nat>>, n: nat): (r: IndexSets)
    requires n <= |parts|
    ensures |r| == |LinkProducers(parts, n)|
  {
    if n < 2 then []
    else LinkConsumers(parts, n - 1) + if parts[n - 2] != {} then [parts[n - 1]] else []
  }

  /** Each barrier of the chain stands between two successive parts. */
  lemma {:induction false} LinkBarrier(parts: seq<set<nat>>, n: nat, k: nat) returns (i: nat)
    requires n <= |parts| && k < |LinkProducers(parts, n)|
    ensures i + 1 < n && parts[i] != {}
    ensures LinkProducers(parts, n)[k] == parts[i] && LinkConsumers(parts, n)[k] == parts[i + 1]
  {
    if k < |LinkProducers(parts, n - 1)| {
      i := LinkBarrier(parts, n - 1, k);
    } else {
      i := n - 2;
    }
  }

  lemma {:induction false} BarrierOfLink(parts: seq<set<nat>>, n: nat, i: nat) returns (k: nat)
    requires i + 1 < n <= |parts| && parts[i] != {}
    ensures k < |LinkProducers(parts, n)|
    ensures LinkProducers(parts, n)[k] == parts[i] && LinkConsumers(parts, n)[k] == parts[i + 1]
  {
    if i + 2 == n {
      k := |LinkProducers(parts, n - 1)|;
    } else {
      k := BarrierOfLink(parts, n - 1, i);
    }
  }

  lemma EdgeOfLink(parts: seq<set<nat>>, k: nat, x: nat, y: nat)
    requires k < |LinkProducers(parts, |parts|)|
    requires x in LinkProducers(parts, |parts|)[k] && y in LinkConsumers(parts, |parts|)[k]
    ensures (x, y) in Chain(parts)
  {
    var i := LinkBarrier(parts, |parts|, k);
    LinkAt(parts, 0, |parts|, i);
    assert (x, y) in Product(parts[i], parts[i + 1]);
  }

  lemma LinkOfEdge(parts: seq<set<nat>>, x: nat, y: nat) returns (k: nat)
    requires (x, y) in Chain(parts)
    ensures k < |LinkProducers(parts, |parts|)|
    ensures x in LinkProducers(parts, |parts|)[k] && y in LinkConsumers(parts, |parts|)[k]
  {
    var i :| 0 <= i < |parts| - 1 && x in parts[i] && y in parts[i + 1];
    k := BarrierOfLink(parts, |parts|, i);
  }

  /** The barriers of a chain enforce its edges and no others. */
  lemma LinkEdges(p: IndexSets, c: IndexSets, parts: seq<set<nat>>)
    requires |p| == |c|
    ensures var n := |parts|;
            BarrierEdges(p + LinkProducers(parts, n), c + LinkConsumers(parts, n)) == BarrierEdges(p, c) + Chain(parts)
  {
    var lp, lc := LinkProducers(parts, |parts|), LinkConsumers(parts, |parts|);
    var chain := Chain(parts);
    forall k, x, y | 0 <= k < |lp| && x in lp[k] && y in lc[k]
      ensures (x, y) in chain
    {
      EdgeOfLink(parts, k, x, y);
    }
    forall e | e in chain
      ensures exists k :: 0 <= k < |lp| && e.0 in lp[k] && e.1 in lc[k]
    {
      var k := LinkOfEdge(parts, e.0, e.1);
    }
    ConcatEdges(p, c, lp, lc, chain);
  }

  lemma ConcatEdges(p: IndexSets, c: IndexSets, lp: IndexSets, lc: IndexSets, chain: Edges)
    requires |p| == |c| && |lp| == |lc|
    requires forall k, x, y :: 0 <= k < |lp| && x in lp[k] && y in lc[k] ==> (x, y) in chain
    requires forall e :: e in chain ==> exists k :: 0 <= k < |lp| && e.0 in lp[k] && e.1 in lc[k]
    ensures BarrierEdges(p + lp, c + lc) == BarrierEdges(p, c) + chain
  {
    var p', c' := p + lp, c + lc;
    forall e | e in BarrierEdges(p, c)
      ensures e in BarrierEdges(p', c')
    {
      var b :| 0 <= b < |p| && e.0 in p[b] && e.1 in c[b];
      assert e.0 in p'[b] && e.1 in c'[b];
    }
    forall e | e in chain
      ensures e in BarrierEdges(p', c')
    {
      var k :| 0 <= k < |lp| && e.0 in lp[k] && e.1 in lc[k];
      assert e.0 in p'[|p| + k] && e.1 in c'[|p| + k];
    }
    forall e | e in BarrierEdges(p', c')
      ensures e in BarrierEdges(p, c) + chain
    {
      var b :| 0 <= b < |p'| && e.0 in p'[b] && e.1 in c'[b];
      if b < |p| {
        assert e.0 in p[b] && e.1 in c[b];
      } else {
        assert e.0 in lp[b - |p|] && e.1 in lc[b - |p|];
      }
    }
  }

  method AddLinks(bi: BarrierInfo, parts: seq<set<nat>>)
    requires bi.Valid() && bi.fifoDeps == [] && forall i, t :: 0 <= i < |parts| && t in parts[i] ==> t < bi.numTasks
    modifies bi`producers, bi`consumers, bi`updates, bi`waits, bi`opCount
    ensures bi.Valid()
    ensures bi.producers == old(bi.producers) + LinkProducers(parts, |parts|)
    ensures bi.consumers == old(bi.consumers) + LinkConsumers(parts, |parts|)
  {
    var prev := {};
    var i := 0;
    while i < |parts|
      invariant i <= |parts| && prev == (if i == 0 then {} else parts[i - 1])
      invariant bi.Valid() && bi.fifoDeps == []
      invariant bi.producers == old(bi.producers) + LinkProducers(parts, i)
      invariant bi.consumers == old(bi.consumers) + LinkConsumers(parts, i)
    {
      if prev != {} {
        AddBarrier(bi, prev, parts[i]);
      }
      prev := parts[i];
      i := i + 1;
    }
  }
}
