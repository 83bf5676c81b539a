/** Packing profiling records into on-chip buffers: a planning pass fixes the buffer sizes, a later pass replays the
    packing, places every task in a buffer and copies full buffers to DDR. */
module ProfilingBuffers {

  /** Where one task writes: in per-cluster workloads (`slot`), and as the view that is created for it. */
  datatype Placement = Placement(buffer: nat, slot: nat, viewOffset: int, viewSize: nat)

  /** One copy of a buffer to DDR, in records. */
  datatype Chunk = Chunk(buffer: nat, ddrOffset: nat, count: nat)

  function Sum(s: seq<nat>): nat
  {
    if s == [] then 0 else Sum(s[..|s| - 1]) + s[|s| - 1]
  }

  /** `c` copies of `x`, one per cluster. */
  ghost function Times(c: nat, x: nat): nat
  {
    if x == 0 then 0 else Times(c, x - 1) + c
  }

  lemma {:induction false} TimesIsProduct(c: nat, x: nat)
    ensures Times(c, x) == c * x
  {
    if x > 0 { TimesIsProduct(c, x - 1); }
  }

  lemma {:induction false} TimesAdd(c: nat, x: nat, y: nat)
    ensures Times(c, x + y) == Times(c, x) + Times(c, y)
  {
    if y > 0 { TimesAdd(c, x, y - 1); }
  }

  /** Buffer sizes after planning `tasks`: the last buffer is reused while it has room. */
  ghost function Plan(tasks: seq<nat>, capacity: nat): (r: seq<nat>)
    ensures |r| > 0
  {
    if tasks == [] then [0]
    else
      var p, s := Plan(tasks[..|tasks| - 1], capacity), tasks[|tasks| - 1];
      var k := |p| - 1;
      if p[k] + s > capacity then p + [s] else p[k := p[k] + s]
  }

  lemma PlanStep(tasks: seq<nat>, i: nat, capacity: nat)
    requires i < |tasks|
    ensures var p := Plan(tasks[..i], capacity); var k := |p| - 1;
            Plan(tasks[..i + 1], capacity) ==
            if p[k] + tasks[i] > capacity then p + [tasks[i]] else p[k := p[k] + tasks[i]]
  {
    assert tasks[..i + 1][..i] == tasks[..i];
  }

  lemma SumSnoc(s: seq<nat>, i: nat)
    requires i < |s|
    ensures Sum(s[..i + 1]) == Sum(s[..i]) + s[i]
  {
    assert s[..i + 1][..i] == s[..i];
  }

  lemma SumAppend(s: seq<nat>, x: nat)
    ensures Sum(s + [x]) == Sum(s) + x
  {
  }

  /** Planning loses no record. */
  lemma {:induction false} PlanSum(tasks: seq<nat>, capacity: nat)
    ensures Sum(Plan(tasks, capacity)) == Sum(tasks)
  {
    if tasks != [] {
      var n := |tasks| - 1;
      PlanSum(tasks[..n], capacity);
      var p := Plan(tasks[..n], capacity);
      var k := |p| - 1;
      assert p == p[..k] + [p[k]] && p[k := p[k] + tasks[n]] == p[..k] + [p[k] + tasks[n]];
      SumAppend(p[..k], p[k]);
      SumAppend(p[..k], p[k] + tasks[n]);
      SumAppend(p, tasks[n]);
    }
  }

  /** Buffers never exceed the limit when every task fits on its own. */
  lemma {:induction false} PlanFits(tasks: seq<nat>, capacity: nat)
    requires forall i :: 0 <= i < |tasks| ==> tasks[i] <= capacity
    ensures forall k :: 0 <= k < |Plan(tasks, capacity)| ==> Plan(tasks, capacity)[k] <= capacity
  {
    if tasks != [] {
      PlanFits(tasks[..|tasks| - 1], capacity);
    }
  }

  /** `p` is an earlier state of `q`: closed buffers are final, the open one may still grow. */
  ghost predicate Earlier(p: seq<nat>, q: seq<nat>)
  {
    && 0 < |p| <= |q| && p[..|p| - 1] == q[..|p| - 1] && p[|p| - 1] <= q[|p| - 1]
  }

  lemma {:induction false} PlanEarlier(tasks: seq<nat>, i: nat, j: nat, capacity: nat)
    requires i <= j <= |tasks|
    ensures Earlier(Plan(tasks[..i], capacity), Plan(tasks[..j], capacity))
    decreases j - i
  {
    if i < j {
      PlanEarlier(tasks, i, j - 1, capacity);
      PlanStep(tasks, j - 1, capacity);
      var p, q, r := Plan(tasks[..i], capacity), Plan(tasks[..j - 1], capacity), Plan(tasks[..j], capacity);
      EarlierTrans(p, q, r);
    }
  }

  lemma EarlierTrans(p: seq<nat>, q: seq<nat>, r: seq<nat>)
    requires Earlier(p, q) && Earlier(q, r)
    ensures Earlier(p, r)
  {
  }

  /** Only a plan without any record has an empty buffer, and then it is the only one. */
  lemma {:induction false} PlanNonEmpty(tasks: seq<nat>, capacity: nat)
    requires forall i :: 0 <= i < |tasks| ==> tasks[i] <= capacity
    ensures var p := Plan(tasks, capacity);
            if Sum(tasks) == 0 then p == [0] else p[0] > 0 && forall k :: 0 <= k < |p| ==> p[k] > 0
  {
    if tasks != [] {
      var n := |tasks| - 1;
      PlanNonEmpty(tasks[..n], capacity);
      var p := Plan(tasks[..n], capacity);
      PlanSum(tasks[..n], capacity);
      if Sum(tasks[..n]) == 0 {
        assert p[0] + tasks[n] <= capacity;
      } else if tasks[n] == 0 {
        PlanFits(tasks[..n], capacity);
      }
    }
  }

  /** A buffer that the next task does not fit is not empty, and final. */
  lemma PlanNext(tasks: seq<nat>, i: nat, capacity: nat, slot: nat)
    requires i < |tasks| && forall j :: 0 <= j < |tasks| ==> tasks[j] <= capacity
    requires var p := Plan(tasks[..i], capacity); p[|p| - 1] == slot
    ensures var p, plan, q := Plan(tasks[..i], capacity), Plan(tasks, capacity), Plan(tasks[..i + 1], capacity);
            if slot + tasks[i] > capacity
            then q == p + [tasks[i]] && |p| < |plan| && plan[|p| - 1] == slot > 0
            else q == p[|p| - 1 := slot + tasks[i]]
  {
    var p, plan := Plan(tasks[..i], capacity), Plan(tasks, capacity);
    PlanStep(tasks, i, capacity);
    if slot + tasks[i] > capacity {
      PlanEarlier(tasks, i + 1, |tasks|, capacity);
      assert tasks[..|tasks|] == tasks;
      FinalSize(p, tasks[i], plan);
    }
  }

  lemma FinalSize(p: seq<nat>, s: nat, plan: seq<nat>)
    requires Earlier(p + [s], plan) && |p| > 0
    ensures |p| < |plan| && plan[|p| - 1] == p[|p| - 1]
  {
  }

  //
  // Tilings
  //

  /** Task `i` occupies slots `slot .. slot + tasks[i]` of its buffer. */
  ghost predicate Covers(tasks: seq<nat>, places: seq<Placement>, i: nat, k: nat, x: nat)
    requires |places| <= |tasks|
  {
    i < |places| && places[i].buffer == k && places[i].slot <= x < places[i].slot + tasks[i]
  }

  ghost predicate Covered(tasks: seq<nat>, places: seq<Placement>, k: nat, x: nat)
    requires |places| <= |tasks|
  {
    exists i :: 0 <= i < |places| && Covers(tasks, places, i, k, x)
  }

  /** The placed tasks tile buffers of the given sizes: no gap, no overlap, nothing outside. */
  ghost predicate Tiles(tasks: seq<nat>, places: seq<Placement>, sizes: seq<nat>)
    requires |places| <= |tasks|
  {
    && (forall i :: 0 <= i < |places| ==>
         places[i].buffer < |sizes| && places[i].slot + tasks[i] <= sizes[places[i].buffer])
    && (forall i, j :: 0 <= i < j < |places| && places[i].buffer == places[j].buffer ==>
         places[i].slot + tasks[i] <= places[j].slot)
    && (forall k, x :: 0 <= k < |sizes| && 0 <= x < sizes[k] ==> Covered(tasks, places, k, x))
  }

  /** Adding the next task to the open buffer, or to a new one. */
  lemma TilesStep(tasks: seq<nat>, places: seq<Placement>, sizes: seq<nat>, place: Placement, sizes': seq<nat>)
    requires |places| < |tasks| && Tiles(tasks, places, sizes) && |sizes| > 0
    requires var k, s := |sizes| - 1, tasks[|places|];
             || (place.buffer == k && place.slot == sizes[k] && sizes' == sizes[k := sizes[k] + s])
             || (place.buffer == k + 1 && place.slot == 0 && sizes' == sizes + [s])
    ensures Tiles(tasks, places + [place], sizes')
  {
    var places' := places + [place];
    forall k, x | 0 <= k < |sizes'| && 0 <= x < sizes'[k]
      ensures Covered(tasks, places', k, x)
    {
      if k < |sizes| && x < sizes[k] {
        assert Covered(tasks, places, k, x);
        var i :| 0 <= i < |places| && Covers(tasks, places, i, k, x);
        assert Covers(tasks, places', i, k, x);
      } else {
        assert Covers(tasks, places', |places|, k, x);
      }
    }
  }

  /** Chunk `k` copies all records of buffer `k` behind those of the earlier buffers. */
  ghost predicate ChunksTile(chunks: seq<Chunk>, sizes: seq<nat>, clusters: nat, start: nat, firstId: nat)
    requires |chunks| <= |sizes|
  {
    forall k :: 0 <= k < |chunks| ==>
      chunks[k] == Chunk(firstId + k, start + Times(clusters, Sum(sizes[..k])), Times(clusters, sizes[k]))
  }

  /** `capacity` is the number of records of `workload` bytes that fit into `limit` bytes. */
  ghost predicate IsCapacity(capacity: nat, workload: nat, limit: nat)
  {
    capacity * workload <= limit < (capacity + 1) * workload
  }

  lemma CapacityExists(workload: nat, limit: nat)
    requires workload > 0
    ensures IsCapacity(limit / workload, workload, limit)
  {
  }

  lemma WithinCapacity(x: nat, capacity: nat, workload: nat, limit: nat)
    requires IsCapacity(capacity, workload, limit)
    ensures x * workload > limit <==> x > capacity
  {
  }

  lemma ScaledLimit(a: nat, b: nat, clusters: nat, workload: nat, limit: nat)
    requires clusters > 0
    ensures (clusters * a + b * clusters) * workload > limit * clusters <==> (a + b) * workload > limit
  {
  }

  lemma ScaledOffset(a: nat, clusters: nat, element: nat)
    requires clusters > 0
    ensures clusters * a * element / clusters == a * element
  {
    var v := a * element;
    assert clusters * a * element == clusters * v;
    DivideProduct(v, clusters);
  }

  lemma DivideProduct(v: nat, c: nat)
    requires c > 0
    ensures c * v / c == v
  {
    var q := c * v / c;
    assert c * q <= c * v < c * q + c;
    if q < v {
      Scale(c, q + 1, v);
    } else if v < q {
      Scale(c, v + 1, q);
    }
  }

  lemma Scale(c: nat, a: nat, b: nat)
    requires a <= b
    ensures c * a <= c * b && c * a + c * (b - a) == c * b
  {
  }

  /** One more buffer copied. */
  lemma ChunkStep(chunks: seq<Chunk>, sizes: seq<nat>, clusters: nat, start: nat, firstId: nat, chunk: Chunk)
    requires |chunks| < |sizes| && ChunksTile(chunks, sizes, clusters, start, firstId)
    requires chunk == Chunk(firstId + |chunks|, start + Times(clusters, Sum(sizes[..|chunks|])),
                            Times(clusters, sizes[|chunks|]))
    ensures ChunksTile(chunks + [chunk], sizes, clusters, start, firstId)
    ensures chunk.ddrOffset + chunk.count == start + Times(clusters, Sum(sizes[..|chunks| + 1]))
  {
    SumSnoc(sizes, |chunks|);
    TimesAdd(clusters, Sum(sizes[..|chunks|]), sizes[|chunks|]);
  }

  /** The view of a task with `count` records per cluster. */
  ghost predicate Viewed(place: Placement, count: nat, clusters: nat, element: nat)
  {
    place.viewOffset == Times(element, place.slot) && place.viewSize == Times(element, Times(clusters, count))
  }

  //
  // Replay
  //

  /** What stays fixed during a replay. */
  datatype Scope = Scope(tasks: seq<nat>, plan: seq<nat>, capacity: nat, clusters: nat, element: nat,
                         start: nat, firstId: nat) {
    ghost predicate Ok()
    {
      && plan == Plan(tasks, capacity) && clusters > 0 && Sum(tasks) > 0
      && forall i :: 0 <= i < |tasks| ==> tasks[i] <= capacity
    }
  }

  /** Placements and copies so far, the next DDR record, the record counts waiting in the open buffer, its index and its
      fill per cluster. */
  datatype State = State(places: seq<Placement>, chunks: seq<Chunk>, end: nat,
                         pending: seq<nat>, buffer: nat, slot: nat)

  /** Copies the open buffer and turns to the next one. */
  function Flushed(s: State, firstId: nat): State
  {
    if s.pending == [] then s.(buffer := s.buffer + 1, slot := 0)
    else State(s.places, s.chunks + [Chunk(firstId + s.buffer, s.end, Sum(s.pending))],
               s.end + Sum(s.pending), [], s.buffer + 1, 0)
  }

  function Placed(s: State, place: Placement, count: nat, records: nat): State
  {
    s.(places := s.places + [place], pending := s.pending + [records], slot := s.slot + count)
  }

  /** The first `n` buffers are copied. */
  ghost predicate CopiedTo(c: Scope, chunks: seq<Chunk>, end: nat, n: nat)
  {
    && n == |chunks| <= |c.plan| && ChunksTile(chunks, c.plan, c.clusters, c.start, c.firstId)
    && end == c.start + Times(c.clusters, Sum(c.plan[..n]))
  }

  ghost predicate Counted(c: Scope, pending: seq<nat>, slot: nat)
  {
    Sum(pending) == Times(c.clusters, slot)
  }

  /** The buffers before the open one are copied, and the open one holds the waiting records. */
  ghost predicate Copied(c: Scope, s: State)
  {
    CopiedTo(c, s.chunks, s.end, s.buffer) && Counted(c, s.pending, s.slot)
  }

  lemma CopyNext(c: Scope, chunks: seq<Chunk>, end: nat, n: nat, records: nat)
    requires CopiedTo(c, chunks, end, n) && n < |c.plan| && records == Times(c.clusters, c.plan[n])
    ensures CopiedTo(c, chunks + [Chunk(c.firstId + n, end, records)], end + records, n + 1)
  {
    ChunkStep(chunks, c.plan, c.clusters, c.start, c.firstId, Chunk(c.firstId + n, end, records));
  }

  lemma CountNext(c: Scope, pending: seq<nat>, slot: nat, count: nat)
    requires Counted(c, pending, slot)
    ensures Counted(c, pending + [Times(c.clusters, count)], slot + count)
  {
  }

  ghost predicate AllViewed(c: Scope, s: State)
  {
    |s.places| <= |c.tasks| && forall j :: 0 <= j < |s.places| ==>
      Viewed(s.places[j], c.tasks[j], c.clusters, c.element)
  }

  /** After the first `i` tasks. */
  ghost predicate Replayed(c: Scope, i: nat, s: State)
  {
    && c.Ok() && i == |s.places| <= |c.tasks| && s.buffer < |c.plan| && Copied(c, s) && AllViewed(c, s)
    && (s.pending == [] <==> i == 0)
    && var p := Plan(c.tasks[..i], c.capacity);
       |p| == s.buffer + 1 && p[s.buffer] == s.slot && Tiles(c.tasks, s.places, p)
  }

  lemma InitialState(c: Scope)
    requires c.Ok()
    ensures Replayed(c, 0, State([], [], c.start, [], 0, 0))
  {
  }

  /** The next task does not fit: the open buffer is full according to the plan, and the plan has a next one. */
  lemma FlushState(c: Scope, i: nat, s: State)
    requires Replayed(c, i, s) && i < |c.tasks| && s.slot + c.tasks[i] > c.capacity
    ensures var s' := Flushed(s, c.firstId);
            && Copied(c, s') && s'.buffer == s.buffer + 1 < |c.plan|
            && s'.places == s.places && s'.pending == [] && s'.slot == 0
            && Plan(c.tasks[..i + 1], c.capacity) == Plan(c.tasks[..i], c.capacity) + [c.tasks[i]]
  {
    PlanNext(c.tasks, i, c.capacity, s.slot);
    FlushCopied(c, s);
  }

  lemma FlushCopied(c: Scope, s: State)
    requires Copied(c, s) && s.buffer < |c.plan| && c.plan[s.buffer] == s.slot && s.pending != []
    ensures Copied(c, Flushed(s, c.firstId))
  {
    CopyNext(c, s.chunks, s.end, s.buffer, Sum(s.pending));
    assert Counted(c, [], 0);
  }

  lemma PlaceState(c: Scope, i: nat, s: State, place: Placement, records: nat)
    requires c.Ok() && i < |c.tasks| && i == |s.places| && s.buffer < |c.plan| && Copied(c, s) && AllViewed(c, s)
    requires var p, q := Plan(c.tasks[..i], c.capacity), Plan(c.tasks[..i + 1], c.capacity);
             && Tiles(c.tasks, s.places, p)
             && (|| (s.buffer == |p| - 1 && s.slot == p[s.buffer] && s.slot + c.tasks[i] <= c.capacity)
                 || (s.buffer == |p| && s.slot == 0 && q == p + [c.tasks[i]]))
    requires place.buffer == s.buffer && place.slot == s.slot && Viewed(place, c.tasks[i], c.clusters, c.element)
    requires records == Times(c.clusters, c.tasks[i])
    ensures Replayed(c, i + 1, Placed(s, place, c.tasks[i], records))
  {
    var p, q := Plan(c.tasks[..i], c.capacity), Plan(c.tasks[..i + 1], c.capacity);
    PlanStep(c.tasks, i, c.capacity);
    TilesStep(c.tasks, s.places, p, place, q);
    PlaceViewed(c, s, place, records);
    PlaceCopied(c, s, place, c.tasks[i], records);
  }

  lemma PlaceViewed(c: Scope, s: State, place: Placement, records: nat)
    requires |s.places| < |c.tasks| && AllViewed(c, s) && Viewed(place, c.tasks[|s.places|], c.clusters, c.element)
    ensures AllViewed(c, Placed(s, place, c.tasks[|s.places|], records))
  {
  }

  lemma PlaceCopied(c: Scope, s: State, place: Placement, count: nat, records: nat)
    requires Copied(c, s) && records == Times(c.clusters, count)
    ensures Copied(c, Placed(s, place, count, records))
  {
    var s' := Placed(s, place, count, records);
    assert CopiedTo(c, s'.chunks, s'.end, s'.buffer) by {
      assert s'.chunks == s.chunks && s'.end == s.end && s'.buffer == s.buffer;
    }
    assert Counted(c, s'.pending, s'.slot) by {
      CountNext(c, s.pending, s.slot, count);
      assert s'.pending == s.pending + [records] && s'.slot == s.slot + count;
    }
  }

  /** Every task has a view of the right size, the views tile the planned buffers, and the copies tile the DDR area from
      `start` to `end`. */
  ghost predicate Packed(c: Scope, places: seq<Placement>, chunks: seq<Chunk>, end: nat)
  {
    && |places| == |c.tasks| && |chunks| == |c.plan|
    && (forall i :: 0 <= i < |places| ==> Viewed(places[i], c.tasks[i], c.clusters, c.element))
    && Tiles(c.tasks, places, c.plan) && ChunksTile(chunks, c.plan, c.clusters, c.start, c.firstId)
    && end == c.start + Times(c.clusters, Sum(c.tasks))
  }

  lemma FinalState(c: Scope, s: State)
    requires Replayed(c, |c.tasks|, s)
    ensures var s' := Flushed(s, c.firstId); s.buffer + 1 == |c.plan| && Packed(c, s'.places, s'.chunks, s'.end)
  {
    assert c.tasks[..|c.tasks|] == c.tasks;
    FinalCopy(c, s);
  }

  lemma FinalCopy(c: Scope, s: State)
    requires c.Ok() && Copied(c, s) && s.pending != [] && s.buffer + 1 == |c.plan| && c.plan[s.buffer] == s.slot
    ensures var s' := Flushed(s, c.firstId);
            && |s'.chunks| == |c.plan| && ChunksTile(s'.chunks, c.plan, c.clusters, c.start, c.firstId)
            && s'.end == c.start + Times(c.clusters, Sum(c.tasks))
  {
    PlanSum(c.tasks, c.capacity);
    CopyNext(c, s.chunks, s.end, s.buffer, Sum(s.pending));
    assert c.plan[..|c.plan|] == c.plan;
  }

  class BufferScheduler {
    const clusters: nat
    /** Bytes of one record, its size in words, and the bytes a buffer may take per cluster. */
    const workload: nat
    const element: nat
    const limit: nat
    /** Records that a buffer holds per cluster. */
    ghost const capacity: nat

    var bufferSizes: seq<nat>
    var tasks: seq<nat>

    ghost predicate Valid()
      reads this
    {
      && clusters > 0 && element > 0 && IsCapacity(capacity, workload, limit)
      && (forall i :: 0 <= i < |tasks| ==> tasks[i] <= capacity)
      && bufferSizes == Plan(tasks, capacity)
    }

    constructor (clusters: nat, workload: nat, element: nat, limit: nat)
      requires clusters > 0 && element > 0 && workload > 0
      ensures Valid() && tasks == []
      ensures this.clusters == clusters && this.workload == workload && this.element == element && this.limit == limit
    {
      this.clusters, this.workload, this.element, this.limit := clusters, workload, element, limit;
      capacity, bufferSizes, tasks := limit / workload, [0], [];
      CapacityExists(workload, limit);
    }

    /** A task too large for any buffer is refused and leaves no trace. */
    method ScheduleTask(count: nat) returns (ok: bool)
      requires Valid()
      modifies this
      ensures Valid() && (ok <==> count * workload <= limit)
      ensures tasks == if ok then old(tasks) + [count] else old(tasks)
    {
      WithinCapacity(count, capacity, workload, limit);
      if count * workload > limit {
        return false;
      }
      assert (tasks + [count])[..|tasks|] == tasks;
      tasks := tasks + [count];
      var k := |bufferSizes| - 1;
      WithinCapacity(bufferSizes[k] + count, capacity, workload, limit);
      if (bufferSizes[k] + count) * workload > limit {
        bufferSizes := bufferSizes + [count];
      } else {
        bufferSizes := bufferSizes[k := bufferSizes[k] + count];
      }
      return true;
    }

    /** Words of DDR for all records. */
    function RequiredDdrMemory(): nat
      reads this
    {
      Sum(tasks) * clusters * element
    }

    /** Replays the packing from buffer `firstId` and DDR record `start` on. A buffer of size 0 is not allowed, so a
        program without records is refused unless `skipEmpty` asks for that case. */
    method AddProfilingOps(start: nat, firstId: nat, skipEmpty: bool)
      returns (ok: bool, places: seq<Placement>, chunks: seq<Chunk>, end: nat)
      requires Valid()
      modifies `bufferSizes
      ensures ok <==> Sum(tasks) > 0 || skipEmpty
      ensures Sum(tasks) == 0 ==> places == [] && chunks == [] && end == start
      ensures Sum(tasks) > 0 ==>
                Packed(Scope(tasks, old(bufferSizes), capacity, clusters, element, start, firstId), places, chunks, end)
      ensures Sum(tasks) > 0 ==> bufferSizes == []
      ensures ok ==> (end - start) * element == RequiredDdrMemory()
    {
      ok, places, chunks, end := true, [], [], start;
      PlanNonEmpty(tasks, capacity);
      if skipEmpty && RequiredDdrMemory() == 0 {
        NoRecords(Sum(tasks), clusters, element);
        return;
      }
      if bufferSizes[0] == 0 {
        assert Sum(tasks) == 0 && RequiredDdrMemory() == 0;
        return false, [], [], start;
      }
      places, chunks, end := Replay(start, firstId);
      TimesIsProduct(clusters, Sum(tasks));
      assert clusters * Sum(tasks) == Sum(tasks) * clusters;
    }

    /** Whether a task still fits behind the `samples` records of all clusters. */
    method Overflows(samples: nat, count: nat, ghost slot: nat) returns (r: bool, records: nat)
      requires clusters > 0 && IsCapacity(capacity, workload, limit) && samples == Times(clusters, slot)
      ensures r <==> slot + count > capacity
      ensures records == Times(clusters, count)
    {
      TimesIsProduct(clusters, slot);
      TimesIsProduct(clusters, count);
      WithinCapacity(slot + count, capacity, workload, limit);
      ScaledLimit(slot, count, clusters, workload, limit);
      records := count * clusters;
      r := (samples + records) * workload > limit * clusters;
    }

    method PlaceTask(buffer: nat, slot: nat, samples: nat, count: nat, records: nat) returns (place: Placement)
      requires clusters > 0 && samples == Times(clusters, slot) && records == Times(clusters, count)
      ensures place.buffer == buffer && place.slot == slot && Viewed(place, count, clusters, element)
    {
      TimesIsProduct(clusters, slot);
      TimesIsProduct(clusters, count);
      TimesIsProduct(element, slot);
      TimesIsProduct(element, records);
      ScaledOffset(slot, clusters, element);
      place := Placement(buffer, slot, samples * element / clusters, records * element);
    }

    ghost predicate InScope(c: Scope, firstId: nat)
      reads this
    {
      && IsCapacity(capacity, workload, limit)
      && c.tasks == tasks && c.capacity == capacity && c.clusters == clusters
      && c.element == element && c.firstId == firstId
    }

    method ReplayTask(i: nat, state: State, firstId: nat, ghost c: Scope) returns (state': State)
      requires i < |tasks| && InScope(c, firstId) && Replayed(c, i, state) && bufferSizes == c.plan[state.buffer + 1..]
      modifies `bufferSizes
      ensures Replayed(c, i + 1, state') && bufferSizes == c.plan[state'.buffer + 1..]
    {
      state' := state;
      var samples := Sum(state.pending);
      var full, records := Overflows(samples, tasks[i], state.slot);
      if full {
        FlushState(c, i, state);
        state' := Flushed(state, firstId);
        bufferSizes := bufferSizes[1..];
        samples := 0;
      }
      var place := PlaceTask(state'.buffer, state'.slot, samples, tasks[i], records);
      PlaceState(c, i, state', place, records);
      state' := Placed(state', place, tasks[i], records);
    }

    method Replay(start: nat, firstId: nat) returns (places: seq<Placement>, chunks: seq<Chunk>, end: nat)
      requires Valid() && Sum(tasks) > 0
      modifies `bufferSizes
      ensures Packed(Scope(tasks, old(bufferSizes), capacity, clusters, element, start, firstId), places, chunks, end)
      ensures bufferSizes == []
    {
      ghost var plan := bufferSizes;
      ghost var scope := Scope(tasks, plan, capacity, clusters, element, start, firstId);
      var state := State([], [], start, [], 0, 0);
      bufferSizes := bufferSizes[1..];
      InitialState(scope);
      var i := 0;
      while i < |tasks|
        invariant i <= |tasks| && Replayed(scope, i, state)
        invariant bufferSizes == plan[state.buffer + 1..]
      {
        state := ReplayTask(i, state, firstId, scope);
        i := i + 1;
      }
      FinalState(scope, state);
      state := Flushed(state, firstId);
      places, chunks, end := state.places, state.chunks, state.end;
    }
  }

  lemma NoRecords(sum: nat, clusters: nat, element: nat)
    requires clusters > 0 && element > 0 && sum * clusters * element == 0
    ensures sum == 0
  {
  }
}
