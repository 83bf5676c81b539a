/** The control graph of a schedule: which task waits for and updates which barrier, kept as two
    pairs of mutually inverse maps. */
module Barriers {
  import opened TaskGraph

  type IndexSets = seq<set<nat>>

  /** `cols` is the inverse of `rows`, and neither mentions an index out of range. */
  ghost predicate Inverse(rows: IndexSets, cols: IndexSets)
  {
    && (forall i, j {:trigger j in rows[i]} :: 0 <= i < |rows| && j in rows[i] ==> j < |cols| && i in cols[j])
    && (forall i, j {:trigger i in cols[j]} :: 0 <= j < |cols| && i in cols[j] ==> i < |rows| && j in rows[i])
  }

  /** Task order implied by barriers: each producer precedes each consumer. */
  ghost function BarrierEdges(producers: IndexSets, consumers: IndexSets): Edges
    requires |producers| == |consumers|
  {
    set b, p, c | 0 <= b < |producers| && p in producers[b] && c in consumers[b] :: (p, c)
  }

  /** Task order implied by hardware queues: tasks of one queue of `tracked` run in index order. */
  ghost function QueueEdges(queue: seq<nat>, tracked: set<nat>): Edges
  {
    set i, j | 0 <= i < j < |queue| && queue[i] == queue[j] && queue[i] in tracked :: (i, j)
  }

  /** Sync points are ascending and never the last task. */
  ghost predicate SyncPointsOk(syncTasks: seq<nat>, numTasks: nat)
  {
    && (forall i, j :: 0 <= i < j < |syncTasks| ==> syncTasks[i] < syncTasks[j])
    && (forall i :: 0 <= i < |syncTasks| ==> syncTasks[i] + 1 < numTasks)
  }

  ghost predicate Distinct(s: seq<nat>)
  {
    forall i, j :: 0 <= i < j < |s| ==> s[i] != s[j]
  }

  /** Slots taken by the tasks of `s` below `n`. */
  function SlotSum(slots: seq<nat>, s: set<nat>, n: nat): nat
    requires n <= |slots|
  {
    if n == 0 then 0 else SlotSum(slots, s, n - 1) + if n - 1 in s then slots[n - 1] else 0
  }

  /** A temporary barrier that stands for the queue order between two neighbours of a queue. */
  datatype FifoDep = FifoDep(barrier: nat, parent: nat, child: nat)

  class BarrierInfo {
    const numTasks: nat
    const slots: seq<nat>
    const executor: seq<nat>
    const queue: seq<nat>
    /** The queues of the task queue map, in iteration order. */
    const trackedQueues: seq<nat>
    const syncTasks: seq<nat>

    var waits: IndexSets
    var updates: IndexSets
    var producers: IndexSets
    var consumers: IndexSets
    /** Number of barriers that exist in the program; temporary ones follow them. */
    var opCount: nat
    var fifoDeps: seq<FifoDep>

    ghost predicate ValidConfig()
    {
      && numTasks > 0
      && |slots| == |executor| == |queue| == numTasks
      && SyncPointsOk(syncTasks, numTasks)
      && Distinct(trackedQueues)
    }

    ghost predicate Valid()
      reads this
    {
      && ValidConfig()
      && |waits| == |updates| == numTasks
      && |producers| == |consumers| == opCount + |fifoDeps|
      && Inverse(updates, producers)
      && Inverse(waits, consumers)
    }

    ghost function Graph(): Edges
      requires |producers| == |consumers|
      reads this
    {
      BarrierEdges(producers, consumers)
    }

    ghost function Tracked(): set<nat> {
      set i | 0 <= i < |trackedQueues| :: trackedQueues[i]
    }

    /** Barriers plus queue order: what the hardware actually enforces. */
    ghost function Order(): Edges
      requires |producers| == |consumers|
      reads this
    {
      Graph() + QueueEdges(queue, Tracked())
    }

    function BlockCount(): nat { |syncTasks| + 1 }

    predicate IsSyncPoint(t: nat) { t in syncTasks }

    /** First task of block `k`, including the sync point in front of it. */
    function BlockLo(k: nat): (lo: nat)
      requires k < BlockCount()
    {
      if k == 0 then 0 else syncTasks[k - 1]
    }

    /** Last task of block `k`, including its own sync point. */
    function BlockHi(k: nat): (hi: nat)
      requires ValidConfig() && k < BlockCount()
      ensures BlockLo(k) <= hi < numTasks
    {
      if k == |syncTasks| then numTasks - 1 else syncTasks[k]
    }

    /** First task of block `k` without the sync point in front of it. */
    function BlockFrom(k: nat): nat
      requires k < BlockCount()
    {
      if k == 0 then 0 else syncTasks[k - 1] + 1
    }

    /** Last task of block `k` without its own sync point. */
    function BlockLast(k: nat): (last: int)
      requires k < BlockCount()
    {
      if k == |syncTasks| then numTasks as int - 1 else syncTasks[k] as int - 1
    }

    constructor (numTasks: nat, slots: seq<nat>, executor: seq<nat>, queue: seq<nat>, trackedQueues: seq<nat>,
                 syncTasks: seq<nat>, numBarriers: nat)
      requires numTasks > 0 && |slots| == |executor| == |queue| == numTasks
      requires SyncPointsOk(syncTasks, numTasks) && Distinct(trackedQueues)
      ensures Valid() && Graph() == {} && fifoDeps == [] && opCount == numBarriers
      ensures this.numTasks == numTasks && this.slots == slots && this.executor == executor && this.queue == queue
      ensures this.trackedQueues == trackedQueues && this.syncTasks == syncTasks
      ensures forall t :: 0 <= t < numTasks ==> updates[t] == {} && waits[t] == {}
      ensures forall b :: 0 <= b < numBarriers ==> producers[b] == {} && consumers[b] == {}
    {
      this.numTasks := numTasks;
      this.slots, this.executor, this.queue := slots, executor, queue;
      this.trackedQueues, this.syncTasks := trackedQueues, syncTasks;
      waits := seq(numTasks, _ => {});
      updates := seq(numTasks, _ => {});
      producers := seq(numBarriers, _ => {});
      consumers := seq(numBarriers, _ => {});
      opCount, fifoDeps := numBarriers, [];
    }

    //
    // Mutators
    //

    method AddProducer(b: nat, t: nat)
      requires Valid() && b < |producers| && t < numTasks
      modifies `producers, `updates
      ensures Valid()
      ensures producers == old(producers)[b := old(producers)[b] + {t}]
      ensures updates == old(updates)[t := old(updates)[t] + {b}]
    {
      producers := producers[b := producers[b] + {t}];
      updates := updates[t := updates[t] + {b}];
    }

    method AddConsumer(b: nat, t: nat)
      requires Valid() && b < |consumers| && t < numTasks
      modifies `consumers, `waits
      ensures Valid()
      ensures consumers == old(consumers)[b := old(consumers)[b] + {t}]
      ensures waits == old(waits)[t := old(waits)[t] + {b}]
    {
      consumers := consumers[b := consumers[b] + {t}];
      waits := waits[t := waits[t] + {b}];
    }

    method RemoveProducer(b: nat, t: nat)
      requires Valid() && b < |producers| && t < numTasks
      modifies `producers, `updates
      ensures Valid()
      ensures producers == old(producers)[b := old(producers)[b] - {t}]
      ensures updates == old(updates)[t := old(updates)[t] - {b}]
    {
      producers := producers[b := producers[b] - {t}];
      updates := updates[t := updates[t] - {b}];
    }

    method RemoveConsumer(b: nat, t: nat)
      requires Valid() && b < |consumers| && t < numTasks
      modifies `consumers, `waits
      ensures Valid()
      ensures consumers == old(consumers)[b := old(consumers)[b] - {t}]
      ensures waits == old(waits)[t := old(waits)[t] - {b}]
    {
      consumers := consumers[b := consumers[b] - {t}];
      waits := waits[t := waits[t] - {b}];
    }

    method AddProducers(b: nat, tasks: set<nat>)
      requires Valid() && b < |producers| && forall t :: t in tasks ==> t < numTasks
      modifies `producers, `updates
      ensures Valid()
      ensures producers == old(producers)[b := old(producers)[b] + tasks]
    {
      var done, rest := {}, tasks;
      assert old(producers)[b] + done == producers[b];
      while rest != {}
        invariant done + rest == tasks && Valid()
        invariant producers == old(producers)[b := old(producers)[b] + done]
        decreases rest
      {
        var t :| t in rest;
        AddProducer(b, t);
        assert old(producers)[b] + (done + {t}) == old(producers)[b] + done + {t};
        done, rest := done + {t}, rest - {t};
      }
      assert done == tasks;
    }

    method AddConsumers(b: nat, tasks: set<nat>)
      requires Valid() && b < |consumers| && forall t :: t in tasks ==> t < numTasks
      modifies `consumers, `waits
      ensures Valid()
      ensures consumers == old(consumers)[b := old(consumers)[b] + tasks]
    {
      var done, rest := {}, tasks;
      assert old(consumers)[b] + done == consumers[b];
      while rest != {}
        invariant done + rest == tasks && Valid()
        invariant consumers == old(consumers)[b := old(consumers)[b] + done]
        decreases rest
      {
        var t :| t in rest;
        AddConsumer(b, t);
        assert old(consumers)[b] + (done + {t}) == old(consumers)[b] + done + {t};
        done, rest := done + {t}, rest - {t};
      }
      assert done == tasks;
    }

    method RemoveProducers(b: nat, tasks: set<nat>)
      requires Valid() && b < |producers| && forall t :: t in tasks ==> t < numTasks
      modifies `producers, `updates
      ensures Valid()
      ensures producers == old(producers)[b := old(producers)[b] - tasks]
    {
      var done, rest := {}, tasks;
      assert old(producers)[b] - done == producers[b];
      while rest != {}
        invariant done + rest == tasks && Valid()
        invariant producers == old(producers)[b := old(producers)[b] - done]
        decreases rest
      {
        var t :| t in rest;
        RemoveProducer(b, t);
        assert old(producers)[b] - (done + {t}) == old(producers)[b] - done - {t};
        done, rest := done + {t}, rest - {t};
      }
      assert done == tasks;
    }

    method RemoveConsumers(b: nat, tasks: set<nat>)
      requires Valid() && b < |consumers| && forall t :: t in tasks ==> t < numTasks
      modifies `consumers, `waits
      ensures Valid()
      ensures consumers == old(consumers)[b := old(consumers)[b] - tasks]
    {
      var done, rest := {}, tasks;
      assert old(consumers)[b] - done == consumers[b];
      while rest != {}
        invariant done + rest == tasks && Valid()
        invariant consumers == old(consumers)[b := old(consumers)[b] - done]
        decreases rest
      {
        var t :| t in rest;
        RemoveConsumer(b, t);
        assert old(consumers)[b] - (done + {t}) == old(consumers)[b] - done - {t};
        done, rest := done + {t}, rest - {t};
      }
      assert done == tasks;
    }

    method AddNewBarrier() returns (b: nat)
      requires Valid() && fifoDeps == []
      modifies `producers, `consumers, `opCount
      ensures Valid() && b == old(|producers|)
      ensures producers == old(producers) + [{}] && consumers == old(consumers) + [{}]
    {
      b := opCount;
      opCount := opCount + 1;
      producers, consumers := producers + [{}], consumers + [{}];
    }

    method SetUpdateBarriers(t: nat, barriers: set<nat>)
      requires Valid() && t < numTasks && forall b :: b in barriers ==> b < |producers|
      modifies `producers, `updates
      ensures Valid() && |producers| == old(|producers|)
      ensures updates == old(updates)[t := barriers]
      ensures forall b :: 0 <= b < |producers| ==>
                producers[b] == if b in barriers then old(producers[b]) + {t} else old(producers[b]) - {t}
    {
      var rest := updates[t];
      while rest != {}
        invariant updates == old(updates) && rest <= updates[t] && |producers| == old(|producers|)
        invariant forall b :: 0 <= b < |producers| ==>
                    producers[b] == if b in updates[t] - rest then old(producers[b]) - {t} else old(producers[b])
        decreases rest
      {
        var b :| b in rest;
        producers := producers[b := producers[b] - {t}];
        rest := rest - {b};
      }
      assert forall b :: 0 <= b < |producers| ==> producers[b] == old(producers[b]) - {t};
      rest := barriers;
      while rest != {}
        invariant updates == old(updates) && rest <= barriers && |producers| == old(|producers|)
        invariant forall b :: 0 <= b < |producers| ==>
                    producers[b] == if b in barriers - rest then old(producers[b]) + {t} else old(producers[b]) - {t}
        decreases rest
      {
        var b :| b in rest;
        producers := producers[b := producers[b] + {t}];
        rest := rest - {b};
      }
      updates := updates[t := barriers];
    }

    method SetWaitBarriers(t: nat, barriers: set<nat>)
      requires Valid() && t < numTasks && forall b :: b in barriers ==> b < |consumers|
      modifies `consumers, `waits
      ensures Valid() && |consumers| == old(|consumers|)
      ensures waits == old(waits)[t := barriers]
      ensures forall b :: 0 <= b < |consumers| ==>
                consumers[b] == if b in barriers then old(consumers[b]) + {t} else old(consumers[b]) - {t}
    {
      var rest := waits[t];
      while rest != {}
        invariant waits == old(waits) && rest <= waits[t] && |consumers| == old(|consumers|)
        invariant forall b :: 0 <= b < |consumers| ==>
                    consumers[b] == if b in waits[t] - rest then old(consumers[b]) - {t} else old(consumers[b])
        decreases rest
      {
        var b :| b in rest;
        consumers := consumers[b := consumers[b] - {t}];
        rest := rest - {b};
      }
      assert forall b :: 0 <= b < |consumers| ==> consumers[b] == old(consumers[b]) - {t};
      rest := barriers;
      while rest != {}
        invariant waits == old(waits) && rest <= barriers && |consumers| == old(|consumers|)
        invariant forall b :: 0 <= b < |consumers| ==>
                    consumers[b] == if b in barriers - rest then old(consumers[b]) + {t} else old(consumers[b]) - {t}
        decreases rest
      {
        var b :| b in rest;
        consumers := consumers[b := consumers[b] + {t}];
        rest := rest - {b};
      }
      waits := waits[t := barriers];
    }

    method ResetBarrier(b: nat)
      requires Valid() && b < |producers|
      modifies `producers, `consumers, `updates, `waits
      ensures Valid()
      ensures producers == old(producers)[b := {}] && consumers == old(consumers)[b := {}]
    {
      assert producers[b] - producers[b] == {} && consumers[b] - consumers[b] == {};
      RemoveProducers(b, producers[b]);
      RemoveConsumers(b, consumers[b]);
    }
  }
}
