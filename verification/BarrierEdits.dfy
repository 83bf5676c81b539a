/** What adding and emptying whole barriers does to the task graph. */
module BarrierEdits {
  import opened TaskGraph
  import opened Barriers

  ghost function Product(x: set<nat>, y: set<nat>): Edges
  {
    set a, b | a in x && b in y :: (a, b)
  }

  lemma AppendEdges(p: IndexSets, c: IndexSets, x: set<nat>, y: set<nat>)
    requires |p| == |c|
    ensures BarrierEdges(p + [x], c + [y]) == BarrierEdges(p, c) + Product(x, y)
  {
    var p', c' := p + [x], c + [y];
    forall e | e in BarrierEdges(p', c')
      ensures e in BarrierEdges(p, c) + Product(x, y)
    {
      var b :| 0 <= b < |p'| && e.0 in p'[b] && e.1 in c'[b];
      if b < |p| { assert e.0 in p[b] && e.1 in c[b]; }
    }
    forall e | e in BarrierEdges(p, c) + Product(x, y)
      ensures e in BarrierEdges(p', c')
    {
      if e in BarrierEdges(p, c) {
        var b :| 0 <= b < |p| && e.0 in p[b] && e.1 in c[b];
        assert e.0 in p'[b] && e.1 in c'[b];
      } else {
        assert e.0 in p'[|p|] && e.1 in c'[|p|];
      }
    }
  }

  /** Changing one barrier exchanges its own edges and nothing else. */
  lemma ReplaceEdges(p: IndexSets, c: IndexSets, b: nat, x: set<nat>, y: set<nat>)
    requires |p| == |c| && b < |p|
    ensures BarrierEdges(p[b := x], c[b := y]) + Product(p[b], c[b]) == BarrierEdges(p, c) + Product(x, y)
  {
    var p', c' := p[b := x], c[b := y];
    forall e | e in BarrierEdges(p', c') + Product(p[b], c[b])
      ensures e in BarrierEdges(p, c) + Product(x, y)
    {
      if e in BarrierEdges(p', c') {
        var k :| 0 <= k < |p'| && e.0 in p'[k] && e.1 in c'[k];
        if k != b { assert e.0 in p[k] && e.1 in c[k]; }
      } else {
        assert e.0 in p[b] && e.1 in c[b];
      }
    }
    forall e | e in BarrierEdges(p, c) + Product(x, y)
      ensures e in BarrierEdges(p', c') + Product(p[b], c[b])
    {
      if e in BarrierEdges(p, c) {
        var k :| 0 <= k < |p| && e.0 in p[k] && e.1 in c[k];
        if k != b { assert e.0 in p'[k] && e.1 in c'[k]; }
      } else {
        assert e.0 in p'[b] && e.1 in c'[b];
      }
    }
  }

  lemma EmptyProduct(y: set<nat>)
    ensures Product({}, y) == {} && Product(y, {}) == {}
  {
  }

  lemma ClearEdges(p: IndexSets, c: IndexSets, b: nat)
    requires |p| == |c| && b < |p|
    ensures BarrierEdges(p, c) == BarrierEdges(p[b := {}], c[b := {}]) + Product(p[b], c[b])
  {
    ReplaceEdges(p, c, b, {}, {});
    EmptyProduct({});
    assert BarrierEdges(p, c) + {} == BarrierEdges(p, c);
  }

  /** One of two inverse maps determines the other. */
  lemma InverseUnique(rows: IndexSets, rows': IndexSets, cols: IndexSets)
    requires Inverse(rows, cols) && Inverse(rows', cols) && |rows| == |rows'|
    ensures rows == rows'
  {
    forall u | 0 <= u < |rows|
      ensures rows[u] == rows'[u]
    {
      forall b
        ensures b in rows[u] <==> b in rows'[u]
      {
        if b in rows[u] { assert u in cols[b]; }
        if b in rows'[u] { assert u in cols[b]; }
      }
    }
  }

  /** Creates a barrier with the given producers and consumers. */
  method AddBarrier(bi: BarrierInfo, producers: set<nat>, consumers: set<nat>)
    requires bi.Valid() && bi.fifoDeps == []
    requires forall t :: t in producers || t in consumers ==> t < bi.numTasks
    modifies bi`producers, bi`consumers, bi`updates, bi`waits, bi`opCount
    ensures bi.Valid()
    ensures bi.producers == old(bi.producers) + [producers] && bi.consumers == old(bi.consumers) + [consumers]
  {
    var b := bi.AddNewBarrier();
    assert {} + producers == producers && {} + consumers == consumers;
    bi.AddProducers(b, producers);
    bi.AddConsumers(b, consumers);
  }
}
