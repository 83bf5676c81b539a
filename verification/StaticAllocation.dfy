/** The loop of the static allocator: buffers are allocated at their first use and freed when no user is left, by end
    cycle or earlier under memory pressure. The placement of buffers is left to an allocator that may refuse. */
module StaticAllocation {
  import opened Barriers

  /** An operation in program order; `skipped` ones run on an executor without buffers in this memory or use none. */
  datatype Op = Op(skipped: bool, begin: nat, end: nat)

  datatype Event = Alloc(buffer: nat) | Use(op: nat) | Free(buffer: nat)

  //
  // Traces
  //

  /** Event `e` is legal after `past`: operations run in their order, a buffer is allocated once, used between
      allocation and release, and released once when all its users ran. */
  ghost predicate Legal(users: IndexSets, buffers: IndexSets, past: seq<Event>, e: Event)
  {
    match e
    case Alloc(v) => e !in past
    case Use(o) =>
      && (forall u: nat :: Use(u) in past ==> u < o)
      && o < |buffers| && forall v :: v in buffers[o] ==> Alloc(v) in past && Free(v) !in past
    case Free(v) => e !in past && Alloc(v) in past && v < |users| && forall o :: o in users[v] ==> Use(o) in past
  }

  ghost predicate LegalTrace(users: IndexSets, buffers: IndexSets, trace: seq<Event>)
  {
    forall k :: 0 <= k < |trace| ==> Legal(users, buffers, trace[..k], trace[k])
  }

  lemma Extend(users: IndexSets, buffers: IndexSets, trace: seq<Event>, e: Event)
    requires LegalTrace(users, buffers, trace) && Legal(users, buffers, trace, e)
    ensures LegalTrace(users, buffers, trace + [e])
  {
    var t := trace + [e];
    forall k | 0 <= k < |t|
      ensures Legal(users, buffers, t[..k], t[k])
    {
      assert t[..k] == trace[..k];
      if k == |trace| { assert trace[..k] == trace; }
    }
  }

  /** No event happens twice in a legal trace. */
  lemma EventsOnce(users: IndexSets, buffers: IndexSets, trace: seq<Event>, i: nat, j: nat)
    requires LegalTrace(users, buffers, trace) && i < j < |trace|
    ensures trace[i] != trace[j]
  {
  }

  /** Every use of a buffer lies between its only allocation and its release, if it is released at all. */
  lemma UseWithinLifetime(users: IndexSets, buffers: IndexSets, trace: seq<Event>, u: nat, v: nat) returns (a: nat)
    requires LegalTrace(users, buffers, trace) && Inverse(users, buffers)
    requires u < |trace| && trace[u].Use? && trace[u].op < |buffers| && v in buffers[trace[u].op]
    ensures a < u && trace[a] == Alloc(v)
    ensures forall f :: 0 <= f < |trace| && trace[f] == Free(v) ==> u < f
  {
    assert Legal(users, buffers, trace[..u], trace[u]);
    a :| 0 <= a < u && trace[..u][a] == Alloc(v);
    assert forall f :: 0 <= f < u ==> trace[..u][f] == trace[f];
  }

  //
  // Users of buffers
  //

  class LiveRanges {
    /** Operations that still use a buffer, and the inverse map. */
    var users: IndexSets
    var buffers: IndexSets

    ghost predicate Valid()
      reads this
    {
      Inverse(users, buffers)
    }

    constructor (users: IndexSets, buffers: IndexSets)
      requires Inverse(users, buffers)
      ensures Valid() && this.users == users && this.buffers == buffers
    {
      this.users, this.buffers := users, buffers;
    }

    /** `left` users remain; fails if `o` is not a user of `v`. */
    method EraseUser(v: nat, o: nat) returns (ok: bool, left: nat)
      requires Valid()
      modifies this
      ensures Valid() && (ok <==> v < |old(users)| && o in old(users)[v])
      ensures ok ==>
                users == old(users)[v := old(users)[v] - {o}] && buffers == old(buffers)[o := old(buffers)[o] - {v}]
      ensures ok ==> left == |users[v]|
      ensures !ok ==> users == old(users) && buffers == old(buffers)
    {
      if v >= |users| || o !in users[v] {
        return false, 0;
      }
      users := users[v := users[v] - {o}];
      buffers := buffers[o := buffers[o] - {v}];
      return true, |users[v]|;
    }
  }

  //
  // The run
  //

  /** The state agrees with the trace: exactly the allocated and unreleased buffers hold memory. */
  ghost predicate Agrees(offsets: set<nat>, held: set<nat>, trace: seq<Event>)
  {
    && (forall v :: v in offsets <==> Alloc(v) in trace)
    && (forall v :: v in held <==> Alloc(v) in trace && Free(v) !in trace)
  }

  ghost predicate Waiting(dying: map<nat, set<nat>>, v: nat)
  {
    exists c :: c in dying && v in dying[c]
  }

  /** Exactly the buffers in memory without users wait to be freed, each under one cycle. */
  ghost predicate DyingOk(dying: map<nat, set<nat>>, held: set<nat>, users: IndexSets)
  {
    && (forall c, v {:trigger v in dying[c]} :: c in dying && v in dying[c] ==>
         v in held && v < |users| && users[v] == {})
    && (forall c, d, v :: c in dying && d in dying && v in dying[c] && v in dying[d] ==> c == d)
    && (forall v :: v in held && v < |users| && users[v] == {} ==> Waiting(dying, v))
  }

  /** The first `i` operations ran: their uses are in the trace and no longer among the users. */
  ghost predicate Ran(users0: IndexSets, ops: seq<Op>, i: nat, users: IndexSets, trace: seq<Event>)
  {
    && |users| == |users0|
    && (forall v, o {:trigger o in users[v]} {:trigger o in users0[v]} :: 0 <= v < |users| && 0 <= o < |ops| ==>
          (o in users[v] <==> o in users0[v] && (o >= i || ops[o].skipped)))
    && (forall o: nat :: Use(o) in trace <==> o < i && o < |ops| && !ops[o].skipped)
  }

  lemma NoUsersLeft(users0: IndexSets, ops: seq<Op>, i: nat, users: IndexSets, trace: seq<Event>, v: nat)
    requires Ran(users0, ops, i, users, trace) && v < |users| && users[v] == {}
    requires forall o :: o in users0[v] ==> o < |ops|
    ensures forall o :: o in users0[v] ==> Use(o) in trace
  {
  }

  /** The traces differ in releases only. */
  ghost predicate SameUses(trace: seq<Event>, trace': seq<Event>)
  {
    forall e: Event :: !e.Free? ==> (e in trace <==> e in trace')
  }

  /** The trace grew by releases of these buffers. */
  ghost predicate FreesOnly(trace: seq<Event>, trace': seq<Event>, dead: set<nat>)
  {
    trace <= trace' && forall k :: |trace| <= k < |trace'| ==> trace'[k].Free? && trace'[k].buffer in dead
  }

  ghost predicate AllocsOnly(trace: seq<Event>, trace': seq<Event>, more: set<nat>)
  {
    trace <= trace' && forall k :: |trace| <= k < |trace'| ==> trace'[k].Alloc? && trace'[k].buffer in more
  }

  lemma FreeStep(users0: IndexSets, buffers0: IndexSets, offsets: set<nat>, held: set<nat>, trace: seq<Event>, v: nat)
    requires LegalTrace(users0, buffers0, trace) && Agrees(offsets, held, trace) && v in held
    requires v < |users0| && forall o :: o in users0[v] ==> Use(o) in trace
    ensures LegalTrace(users0, buffers0, trace + [Free(v)]) && Agrees(offsets, held - {v}, trace + [Free(v)])
    ensures SameUses(trace, trace + [Free(v)])
  {
    Extend(users0, buffers0, trace, Free(v));
  }

  lemma AllocStep(users0: IndexSets, buffers0: IndexSets, offsets: set<nat>, held: set<nat>, trace: seq<Event>, v: nat)
    requires LegalTrace(users0, buffers0, trace) && Agrees(offsets, held, trace) && v !in offsets
    requires Free(v) !in trace
    ensures LegalTrace(users0, buffers0, trace + [Alloc(v)]) && Agrees(offsets + {v}, held + {v}, trace + [Alloc(v)])
  {
    Extend(users0, buffers0, trace, Alloc(v));
  }

  class Scan {
    var alive: set<nat>
    /** Buffers that ever got an address, and those that hold memory now. */
    var offsets: set<nat>
    var held: set<nat>
    /** Buffers without users by the end cycle of their last user. */
    var dying: map<nat, set<nat>>
    var trace: seq<Event>

    constructor ()
      ensures alive == offsets == held == {} && dying == map[] && trace == []
    {
      alive, offsets, held, dying, trace := {}, {}, {}, map[], [];
    }

    /** Used buffers that are not alive yet become alive and are to be allocated. */
    method BuffersToAllocate(used: set<nat>) returns (toAlloc: set<nat>)
      modifies `alive
      ensures alive == old(alive) + used && toAlloc == used - old(alive)
    {
      toAlloc := {};
      var done, rest := {}, used;
      while rest != {}
        invariant done + rest == used && alive == old(alive) + done && toAlloc == done - old(alive)
        decreases rest
      {
        var v :| v in rest;
        if v !in alive {
          alive := alive + {v};
          toAlloc := toAlloc + {v};
        }
        done, rest := done + {v}, rest - {v};
      }
      assert done == used;
    }

    /** Marks the buffers dead and releases everything in memory that is not alive. */
    method Release(dead: set<nat>, ghost users0: IndexSets, ghost buffers0: IndexSets)
      requires LegalTrace(users0, buffers0, trace) && Agrees(offsets, held, trace) && held <= alive && dead <= held
      requires forall v :: v in dead ==> v < |users0| && forall o :: o in users0[v] ==> Use(o) in trace
      modifies `alive, `held, `trace
      ensures LegalTrace(users0, buffers0, trace) && Agrees(offsets, held, trace)
      ensures held == old(held) - dead && alive == old(alive) - dead
      ensures SameUses(old(trace), trace) && FreesOnly(old(trace), trace, dead)
    {
      alive := alive - dead;
      var done, rest := {}, held - alive;
      assert rest == dead;
      while rest != {}
        invariant done + rest == dead && done !! rest && held == old(held) - done && alive == old(alive) - dead
        invariant LegalTrace(users0, buffers0, trace) && Agrees(offsets, held, trace)
        invariant SameUses(old(trace), trace) && FreesOnly(old(trace), trace, dead)
        decreases rest
      {
        var v :| v in rest;
        FreeStep(users0, buffers0, offsets, held, trace, v);
        trace := trace + [Free(v)];
        held := held - {v};
        done, rest := done + {v}, rest - {v};
      }
      assert done == dead;
    }

    method FirstCycle() returns (c: nat)
      requires dying != map[]
      ensures c in dying && forall d :: d in dying ==> c <= d
    {
      c :| c in dying;
      var rest := dying.Keys - {c};
      while rest != {}
        invariant c in dying && rest <= dying.Keys && forall d :: d in dying && d !in rest ==> c <= d
        decreases rest
      {
        var d :| d in rest;
        if d < c { c := d; }
        rest := rest - {d};
      }
    }

    /** Releases the buffers of cycle `c`. */
    method ReleaseCycle(c: nat, live: LiveRanges, ghost users0: IndexSets, ghost buffers0: IndexSets,
                        ghost ops: seq<Op>, ghost i: nat)
      requires Inverse(users0, buffers0) && |buffers0| == |ops| && Ran(users0, ops, i, live.users, trace)
      requires LegalTrace(users0, buffers0, trace) && Agrees(offsets, held, trace) && held <= alive
      requires DyingOk(dying, held, live.users) && c in dying
      modifies `alive, `held, `trace, `dying
      ensures LegalTrace(users0, buffers0, trace) && Agrees(offsets, held, trace)
      ensures Ran(users0, ops, i, live.users, trace)
      ensures DyingOk(dying, held, live.users) && dying == old(dying) - {c}
      ensures held == old(held) - old(dying)[c] && alive == old(alive) - old(dying)[c]
      ensures FreesOnly(old(trace), trace, old(dying)[c])
    {
      forall v | v in dying[c]
        ensures v < |users0| && forall o :: o in users0[v] ==> Use(o) in trace
      {
        NoUsersLeft(users0, ops, i, live.users, trace, v);
      }
      Release(dying[c], users0, buffers0);
      DyingDrop(dying, old(held), live.users, c);
      dying := dying - {c};
    }

    /** Buffers are released in the order of their cycles while the operation starts late enough or needs the room. */
    method MakeRoom(begin: nat, toAlloc: set<nat>, canAlloc: (set<nat>, set<nat>) -> bool, live: LiveRanges,
                    ghost users0: IndexSets, ghost buffers0: IndexSets, ghost ops: seq<Op>, ghost i: nat)
      requires Inverse(users0, buffers0) && |buffers0| == |ops| && Ran(users0, ops, i, live.users, trace)
      requires LegalTrace(users0, buffers0, trace) && Agrees(offsets, held, trace) && held <= alive
      requires DyingOk(dying, held, live.users)
      modifies `alive, `held, `trace, `dying
      ensures LegalTrace(users0, buffers0, trace) && Agrees(offsets, held, trace)
      ensures Ran(users0, ops, i, live.users, trace)
      ensures DyingOk(dying, held, live.users) && held <= old(held) && alive == old(alive) - (old(held) - held)
      ensures MadeRoom(old(dying), old(held), dying, held, begin, toAlloc, canAlloc)
      ensures CycleOrder(old(dying), dying, old(trace), trace)
      ensures dying == map[] || FirstLater(dying, begin, canAlloc(held, toAlloc))
    {
      while dying != map[]
        invariant LegalTrace(users0, buffers0, trace) && Agrees(offsets, held, trace)
        invariant Ran(users0, ops, i, live.users, trace)
        invariant DyingOk(dying, held, live.users) && held <= old(held) && alive == old(alive) - (old(held) - held)
        invariant MadeRoom(old(dying), old(held), dying, held, begin, toAlloc, canAlloc)
        invariant CycleOrder(old(dying), dying, old(trace), trace)
        decreases |dying.Keys|
      {
        var c := FirstCycle();
        if !(begin >= c || !canAlloc(held, toAlloc)) {
          break;
        }
        ghost var dying1, held1, trace1 := dying, held, trace;
        ReleaseCycle(c, live, users0, buffers0, ops, i);
        RoomStep(old(dying), old(held), dying1, held1, begin, toAlloc, canAlloc, c);
        OrderStep(old(dying), dying1, old(trace), trace1, trace, c);
      }
    }

    /** Fails only if the allocator refuses; no buffer gets an address twice. */
    method AllocateAll(toAlloc: set<nat>, fits: (set<nat>, set<nat>) -> bool, ghost users0: IndexSets,
                       ghost buffers0: IndexSets)
      returns (ok: bool)
      requires LegalTrace(users0, buffers0, trace) && Agrees(offsets, held, trace)
      requires toAlloc !! offsets && forall v :: v in toAlloc ==> Free(v) !in trace
      modifies `offsets, `held, `trace
      ensures LegalTrace(users0, buffers0, trace) && Agrees(offsets, held, trace)
      ensures ok <==> toAlloc == {} || fits(old(held), toAlloc)
      ensures ok ==> held == old(held) + toAlloc && offsets == old(offsets) + toAlloc
      ensures !ok ==> held == old(held) && offsets == old(offsets) && trace == old(trace)
      ensures AllocsOnly(old(trace), trace, toAlloc)
      ensures forall e: Event :: !e.Alloc? ==> (e in trace <==> e in old(trace))
    {
      if toAlloc == {} {
        return true;
      }
      if !fits(held, toAlloc) {
        return false;
      }
      ok := true;
      var done, rest := {}, toAlloc;
      while rest != {}
        invariant ok && done + rest == toAlloc && done !! rest && held == old(held) + done
        invariant offsets == old(offsets) + done
        invariant LegalTrace(users0, buffers0, trace) && Agrees(offsets, held, trace)
        invariant forall e: Event :: !e.Alloc? ==> (e in trace <==> e in old(trace))
        invariant AllocsOnly(old(trace), trace, toAlloc)
        decreases rest
      {
        var v :| v in rest;
        ok := ok && v !in offsets;
        AllocStep(users0, buffers0, offsets, held, trace, v);
        trace := trace + [Alloc(v)];
        offsets, held := offsets + {v}, held + {v};
        done, rest := done + {v}, rest - {v};
      }
      assert done == toAlloc;
    }

    ghost predicate Inv(live: LiveRanges, users0: IndexSets, buffers0: IndexSets, ops: seq<Op>, i: nat)
      reads this, live
    {
      && live.Valid() && |live.buffers| == |ops| && Inverse(users0, buffers0) && |buffers0| == |ops|
      && Ran(users0, ops, i, live.users, trace) && LegalTrace(users0, buffers0, trace)
      && Agrees(offsets, held, trace) && alive == held && DyingOk(dying, held, live.users)
      && FiledByEnd(users0, ops, dying)
    }
  }

  //
  // When buffers are released
  //

  ghost predicate IsMax(s: set<nat>, m: nat)
  {
    m in s && forall x :: x in s ==> x <= m
  }

  lemma {:induction false} MaxExists(s: set<nat>)
    requires s != {}
    ensures exists m: nat :: IsMax(s, m)
  {
    var x :| x in s;
    if s == {x} {
      assert IsMax(s, x);
    } else {
      MaxExists(s - {x});
      var m: nat :| IsMax(s - {x}, m);
      assert forall y :: y in s ==> y == x || y in s - {x};
      assert IsMax(s, if x > m then x else m);
    }
  }

  ghost function LastOf(s: set<nat>): (m: nat)
    ensures s != {} ==> IsMax(s, m)
  {
    if s == {} then 0 else
      MaxExists(s);
      var m: nat :| IsMax(s, m);
      m
  }

  /** The cycle in which the last user of a buffer ends. */
  ghost function EndOf(users: IndexSets, ops: seq<Op>, v: nat): nat
  {
    if v < |users| && LastOf(users[v]) < |ops| then ops[LastOf(users[v])].end else 0
  }

  /** The buffers in memory whose users all ran. */
  ghost function Dead(users: IndexSets, trace: seq<Event>): set<nat>
  {
    set v | v in HeldIn(trace) && v < |users| && forall o :: o in users[v] ==> Use(o) in trace
  }

  ghost function EndingBefore(users: IndexSets, ops: seq<Op>, dead: set<nat>, c: nat): set<nat>
  {
    set v | v in dead && EndOf(users, ops, v) < c
  }

  /** After `trace` operation `o` makes room by `frees`. Dead buffers go by the end cycles of their last users: all
      that end before `o` begins, and later ones only if the allocator refuses what `o` still needs beside them; none
      stays if it refuses in the end. */
  ghost predicate Releases(users: IndexSets, buffers: IndexSets, ops: seq<Op>, canAlloc: (set<nat>, set<nat>) -> bool,
                           trace: seq<Event>, frees: seq<Event>, o: nat)
    requires o < |ops| && o < |buffers|
  {
    var dead, needed := Dead(users, trace), Missing(trace, buffers[o]);
    && (forall j :: 0 <= j < |frees| ==> frees[j].Free? && frees[j].buffer in dead)
    && (forall j, k :: 0 <= j < k < |frees| ==>
         EndOf(users, ops, frees[j].buffer) <= EndOf(users, ops, frees[k].buffer))
    && (forall v :: v in dead && EndOf(users, ops, v) <= ops[o].begin ==> Free(v) in frees)
    && (forall v, w :: v in dead && w in dead && Free(v) in frees && EndOf(users, ops, w) <= EndOf(users, ops, v) ==>
          Free(w) in frees)
    && (forall v :: v in dead && Free(v) in frees && EndOf(users, ops, v) > ops[o].begin ==>
          !canAlloc(HeldIn(trace) - EndingBefore(users, ops, dead, EndOf(users, ops, v)), needed))
    && ((exists v :: v in dead && Free(v) !in frees) ==> canAlloc(HeldIn(trace + frees), needed))
  }

  /** Between the previous use and the one at `k` there are first the right releases and then only allocations of what
      is used. */
  ghost predicate GapFrom(users: IndexSets, buffers: IndexSets, ops: seq<Op>, canAlloc: (set<nat>, set<nat>) -> bool,
                          trace: seq<Event>, k: nat, start: nat, end: nat)
  {
    && start <= end <= k < |trace| && trace[k].Use? && trace[k].op < |ops| && trace[k].op < |buffers|
    && (start == 0 || trace[start - 1].Use?)
    && Releases(users, buffers, ops, canAlloc, trace[..start], trace[start..end], trace[k].op)
    && forall j :: end <= j < k ==> trace[j].Alloc? && trace[j].buffer in buffers[trace[k].op]
  }

  /** Every operation was preceded by the right releases. */
  ghost predicate ReleasesRight(users: IndexSets, buffers: IndexSets, ops: seq<Op>,
                                canAlloc: (set<nat>, set<nat>) -> bool, trace: seq<Event>)
  {
    forall k {:trigger UseAt(users, buffers, ops, canAlloc, trace, k)} :: 0 <= k < |trace| && trace[k].Use? ==>
      UseAt(users, buffers, ops, canAlloc, trace, k)
  }

  ghost predicate UseAt(users: IndexSets, buffers: IndexSets, ops: seq<Op>, canAlloc: (set<nat>, set<nat>) -> bool,
                        trace: seq<Event>, k: nat)
  {
    exists start: nat, end: nat :: GapFrom(users, buffers, ops, canAlloc, trace, k, start, end)
  }

  lemma GapStays(users: IndexSets, buffers: IndexSets, ops: seq<Op>, canAlloc: (set<nat>, set<nat>) -> bool,
                 trace: seq<Event>, trace': seq<Event>, k: nat, start: nat, end: nat)
    requires trace <= trace' && GapFrom(users, buffers, ops, canAlloc, trace, k, start, end)
    ensures GapFrom(users, buffers, ops, canAlloc, trace', k, start, end)
  {
    assert trace'[..start] == trace[..start] && trace'[start..end] == trace[start..end];
  }

  /** More events do not change what happened before. */
  lemma ReleasesStay(users: IndexSets, buffers: IndexSets, ops: seq<Op>, canAlloc: (set<nat>, set<nat>) -> bool,
                     trace: seq<Event>, trace': seq<Event>)
    requires trace <= trace' && ReleasesRight(users, buffers, ops, canAlloc, trace)
    ensures forall k {:trigger UseAt(users, buffers, ops, canAlloc, trace', k)} ::
              0 <= k < |trace| && trace[k].Use? ==> UseAt(users, buffers, ops, canAlloc, trace', k)
  {
    forall k {:trigger UseAt(users, buffers, ops, canAlloc, trace', k)} | 0 <= k < |trace| && trace[k].Use?
      ensures UseAt(users, buffers, ops, canAlloc, trace', k)
    {
      assert UseAt(users, buffers, ops, canAlloc, trace, k);
      var start: nat, end: nat :| GapFrom(users, buffers, ops, canAlloc, trace, k, start, end);
      GapStays(users, buffers, ops, canAlloc, trace, trace', k, start, end);
    }
  }

  /** The cycles that made room are the releases of the dead buffers. */
  lemma RightReleases(users0: IndexSets, buffers0: IndexSets, ops: seq<Op>, o: nat, users: IndexSets, offsets: set<nat>,
                      dying0: map<nat, set<nat>>, held0: set<nat>, trace: seq<Event>, dying: map<nat, set<nat>>,
                      held: set<nat>, trace': seq<Event>, canAlloc: (set<nat>, set<nat>) -> bool)
    requires Ran(users0, ops, o, users, trace) && Inverse(users0, buffers0) && |buffers0| == |ops| && o < |ops|
    requires forall v, u :: 0 <= v < |users| && u in users[v] ==> u < |ops|
    requires Agrees(offsets, held0, trace) && Agrees(offsets, held, trace')
    requires DyingOk(dying0, held0, users) && FiledByEnd(users0, ops, dying0)
    requires MadeRoom(dying0, held0, dying, held, ops[o].begin, Missing(trace, buffers0[o]), canAlloc)
    requires CycleOrder(dying0, dying, trace, trace')
    requires dying == map[] || FirstLater(dying, ops[o].begin, canAlloc(held, Missing(trace, buffers0[o])))
    ensures trace <= trace' && Releases(users0, buffers0, ops, canAlloc, trace, trace'[|trace|..], o)
  {
    DeadAreWaiting(users0, buffers0, ops, o, users, trace, offsets, held0, dying0);
    HeldAgrees(offsets, held, trace');
    var frees, dead := trace'[|trace|..], Dead(users0, trace);
    assert trace + frees == trace';
    forall v: nat
      ensures v in dead && EndOf(users0, ops, v) !in dying <==> Free(v) in frees
      ensures v in dead ==> EndOf(users0, ops, v) in dying0 && v in dying0[EndOf(users0, ops, v)]
    {
      FreedIsGone(users0, ops, offsets, dying0, held0, trace, dying, held, trace', v);
    }
    forall j, k | 0 <= j < k < |frees|
      ensures EndOf(users0, ops, frees[j].buffer) <= EndOf(users0, ops, frees[k].buffer)
    {
      assert frees[j] == trace'[|trace| + j] && frees[k] == trace'[|trace| + k];
      assert frees[j] in frees && frees[k] in frees;
      assert FreesIn(dying0, EndOf(users0, ops, frees[j].buffer), trace'[|trace| + j]);
      assert FreesIn(dying0, EndOf(users0, ops, frees[k].buffer), trace'[|trace| + k]);
    }
    forall v | v in dead && Free(v) in frees
      ensures EndingBefore(users0, ops, dead, EndOf(users0, ops, v)) == Below(dying0, EndOf(users0, ops, v))
    {
    }
  }

  /** Freed are exactly the dead buffers of the cycles that went. */
  lemma FreedIsGone(users0: IndexSets, ops: seq<Op>, offsets: set<nat>, dying0: map<nat, set<nat>>, held0: set<nat>,
                    trace: seq<Event>, dying: map<nat, set<nat>>, held: set<nat>, trace': seq<Event>, v: nat)
    requires Agrees(offsets, held0, trace) && Agrees(offsets, held, trace') && FiledByEnd(users0, ops, dying0)
    requires forall u :: u in Dead(users0, trace) <==> Waiting(dying0, u)
    requires HeldIn(trace) == held0 && held == held0 - Gone(dying0, dying) && CycleOrder(dying0, dying, trace, trace')
    ensures v in Dead(users0, trace) ==> EndOf(users0, ops, v) in dying0 && v in dying0[EndOf(users0, ops, v)]
    ensures v in Dead(users0, trace) && EndOf(users0, ops, v) !in dying <==> Free(v) in trace'[|trace|..]
  {
    var frees := trace'[|trace|..];
    if v in Dead(users0, trace) {
      assert Waiting(dying0, v);
      var c :| c in dying0 && v in dying0[c];
      if c !in dying {
        assert v in Gone(dying0, dying) && v in held0 && v !in held;
        assert Alloc(v) in trace' && Free(v) in trace';
        var k :| 0 <= k < |trace'| && trace'[k] == Free(v);
        assert k >= |trace| && frees[k - |trace|] == Free(v);
      }
    }
    if Free(v) in frees {
      var k :| 0 <= k < |frees| && frees[k] == Free(v);
      assert trace'[|trace| + k] == Free(v);
      assert v in Gone(dying0, dying);
      var c :| c in dying0 && c !in dying && v in dying0[c];
      assert Waiting(dying0, v);
    }
  }

  /** Waiting buffers are filed under the end cycle of their last user. */
  ghost predicate FiledByEnd(users0: IndexSets, ops: seq<Op>, dying: map<nat, set<nat>>)
  {
    forall c, v {:trigger v in dying[c]} :: c in dying && v in dying[c] ==> v < |users0| && EndOf(users0, ops, v) == c
  }

  /** The buffers that die with operation `o` end with it. */
  lemma FiledStep(users0: IndexSets, buffers0: IndexSets, ops: seq<Op>, o: nat, users: IndexSets, trace: seq<Event>,
                  users': IndexSets, dying: map<nat, set<nat>>, dead: set<nat>)
    requires Ran(users0, ops, o, users, trace) && Inverse(users0, buffers0) && |buffers0| == |ops|
    requires o < |ops| && !ops[o].skipped && Erased(users, users', buffers0[o], o) && IsDead(dead, buffers0[o], users')
    requires FiledByEnd(users0, ops, dying)
    ensures FiledByEnd(users0, ops, dying[ops[o].end := dead + if ops[o].end in dying then dying[ops[o].end] else {}])
  {
    RanStep(users0, buffers0, ops, o, users, trace, users');
    forall v | v in dead
      ensures v < |users0| && EndOf(users0, ops, v) == ops[o].end
    {
      assert o in users0[v];
      var u := LastOf(users0[v]);
      assert u in users0[v] && u < |ops| && u !in users'[v];
    }
  }

  /** The waiting buffers are the dead ones. */
  lemma DeadAreWaiting(users0: IndexSets, buffers0: IndexSets, ops: seq<Op>, i: nat, users: IndexSets,
                       trace: seq<Event>, offsets: set<nat>, held: set<nat>, dying: map<nat, set<nat>>)
    requires Ran(users0, ops, i, users, trace) && Inverse(users0, buffers0) && |buffers0| == |ops|
    requires Agrees(offsets, held, trace) && DyingOk(dying, held, users)
    requires forall v, o :: 0 <= v < |users| && o in users[v] ==> o < |ops|
    ensures HeldIn(trace) == held
    ensures forall v :: v in Dead(users0, trace) <==> Waiting(dying, v)
  {
    HeldAgrees(offsets, held, trace);
    forall v | v in Dead(users0, trace)
      ensures Waiting(dying, v)
    {
      assert forall o :: o in users0[v] ==> Use(o) in trace;
      assert users[v] == {};
    }
    forall v: nat | Waiting(dying, v)
      ensures v in Dead(users0, trace)
    {
      var c :| c in dying && v in dying[c];
      assert v in held && v < |users| && users[v] == {};
      NoUsersLeft(users0, ops, i, users, trace, v);
    }
  }

  /** The buffers that wait under a cycle before `c`. */
  ghost function Below(dying: map<nat, set<nat>>, c: nat): set<nat>
  {
    set d, v | d in dying && d < c && v in dying[d] :: v
  }

  ghost function Gone(dying0: map<nat, set<nat>>, dying: map<nat, set<nat>>): set<nat>
  {
    set d, v | d in dying0 && d !in dying && v in dying0[d] :: v
  }

  /** The earliest cycles went, each of them because it lies behind or because there was no room with all later buffers
      still in memory. */
  ghost predicate MadeRoom(dying0: map<nat, set<nat>>, held0: set<nat>, dying: map<nat, set<nat>>, held: set<nat>,
                           begin: nat, toAlloc: set<nat>, canAlloc: (set<nat>, set<nat>) -> bool)
  {
    && (forall d :: d in dying ==> d in dying0 && dying[d] == dying0[d])
    && (forall c, d :: c in dying0 && c !in dying && d in dying ==> c < d)
    && held == held0 - Gone(dying0, dying)
    && forall c :: c in dying0 && c !in dying ==> begin >= c || !canAlloc(held0 - Below(dying0, c), toAlloc)
  }

  lemma RoomStep(dying0: map<nat, set<nat>>, held0: set<nat>, dying: map<nat, set<nat>>, held: set<nat>, begin: nat,
                 toAlloc: set<nat>, canAlloc: (set<nat>, set<nat>) -> bool, c: nat)
    requires MadeRoom(dying0, held0, dying, held, begin, toAlloc, canAlloc) && c in dying
    requires (forall d :: d in dying ==> c <= d) && (begin >= c || !canAlloc(held, toAlloc))
    ensures MadeRoom(dying0, held0, dying - {c}, held - dying[c], begin, toAlloc, canAlloc)
  {
    assert Below(dying0, c) == Gone(dying0, dying);
    assert Gone(dying0, dying - {c}) == Gone(dying0, dying) + dying[c];
  }

  /** The new events release buffers of the cycles that went, earlier cycles first. */
  ghost predicate CycleOrder(dying0: map<nat, set<nat>>, dying: map<nat, set<nat>>, trace0: seq<Event>,
                             trace: seq<Event>)
  {
    && FreesOnly(trace0, trace, Gone(dying0, dying))
    && forall j, k, c, d ::
         |trace0| <= j < k < |trace| && FreesIn(dying0, c, trace[j]) && FreesIn(dying0, d, trace[k]) ==>
         c <= d
  }

  ghost predicate FreesIn(dying: map<nat, set<nat>>, c: nat, e: Event)
  {
    c in dying && e.Free? && e.buffer in dying[c]
  }

  lemma OrderStep(dying0: map<nat, set<nat>>, dying: map<nat, set<nat>>, trace0: seq<Event>, trace: seq<Event>,
                  trace': seq<Event>, c: nat)
    requires c in dying && c in dying0 && CycleOrder(dying0, dying, trace0, trace)
    requires FreesOnly(trace, trace', dying0[c])
    requires forall d :: d in dying ==> d in dying0
    requires forall b, d :: b in dying0 && b !in dying && d in dying ==> b < d
    requires forall b, d, v :: b in dying0 && d in dying0 && v in dying0[b] && v in dying0[d] ==> b == d
    ensures CycleOrder(dying0, dying - {c}, trace0, trace')
  {
  }

  /** The first waiting cycle is still ahead and there is room. */
  ghost predicate FirstLater(dying: map<nat, set<nat>>, begin: nat, room: bool)
  {
    room && forall c :: c in dying ==> begin < c
  }

  /** Operation `o` no longer uses its buffers. */
  ghost predicate Erased(users: IndexSets, users': IndexSets, used: set<nat>, o: nat)
  {
    |users| == |users'| && forall v :: 0 <= v < |users| ==> users'[v] == if v in used then users[v] - {o} else users[v]
  }

  ghost predicate IsDead(dead: set<nat>, used: set<nat>, users: IndexSets)
  {
    forall v :: v in dead <==> v in used && v < |users| && users[v] == {}
  }

  lemma ErasedStep(users0: IndexSets, users: IndexSets, done: set<nat>, dead: set<nat>, v: nat, o: nat)
    requires Erased(users0, users, done, o) && IsDead(dead, done, users) && v < |users| && v !in done
    ensures var users' := users[v := users[v] - {o}];
            Erased(users0, users', done + {v}, o) &&
            IsDead(if users'[v] == {} then dead + {v} else dead, done + {v}, users')
  {
  }

  /** Erases operation `o` from its buffers and returns the ones without users; the checks never fail. */
  method EraseUses(live: LiveRanges, o: nat, used: set<nat>) returns (ok: bool, dead: set<nat>)
    requires live.Valid() && o < |live.buffers| && used == live.buffers[o]
    modifies live
    ensures ok && live.Valid() && |live.buffers| == old(|live.buffers|)
    ensures Erased(old(live.users), live.users, used, o)
    ensures IsDead(dead, used, live.users)
  {
    ok, dead := true, {};
    var done, rest := {}, used;
    while rest != {}
      invariant ok && done + rest == used && done !! rest && live.Valid() && |live.buffers| == old(|live.buffers|)
      invariant rest <= live.buffers[o] && Erased(old(live.users), live.users, done, o)
      invariant IsDead(dead, done, live.users)
      decreases rest
    {
      var v :| v in rest;
      assert o in live.users[v];
      ErasedStep(old(live.users), live.users, done, dead, v, o);
      var erased, left := live.EraseUser(v, o);
      ok := ok && erased;
      if left == 0 {
        dead := dead + {v};
      }
      done, rest := done + {v}, rest - {v};
    }
    assert done == used;
  }

  lemma DyingDrop(dying: map<nat, set<nat>>, held: set<nat>, users: IndexSets, c: nat)
    requires DyingOk(dying, held, users) && c in dying
    ensures DyingOk(dying - {c}, held - dying[c], users)
  {
    var d', h' := dying - {c}, held - dying[c];
    forall v | v in h' && v < |users| && users[v] == {}
      ensures Waiting(d', v)
    {
      assert Waiting(dying, v);
      var d :| d in dying && v in dying[d];
      assert d in d' && v in d'[d];
    }
  }

  lemma DyingAdd(dying: map<nat, set<nat>>, held: set<nat>, users: IndexSets, users': IndexSets, used: set<nat>, o: nat,
                 dead: set<nat>, end: nat)
    requires DyingOk(dying, held, users) && Erased(users, users', used, o) && IsDead(dead, used, users')
    requires used <= held && forall v :: v in used ==> v < |users| && o in users[v]
    ensures DyingOk(dying[end := dead + if end in dying then dying[end] else {}], held, users')
  {
    var d' := dying[end := dead + if end in dying then dying[end] else {}];
    forall c, v | c in d' && v in d'[c]
      ensures v in held && v < |users'| && users'[v] == {}
    {
      if v !in dead { assert v in dying[c]; }
    }
    forall c, d, v | c in d' && d in d' && v in d'[c] && v in d'[d]
      ensures c == d
    {
      if v in dead { NotWaiting(dying, held, users, v, o); } else { assert v in dying[c] && v in dying[d]; }
    }
    forall v | v in held && v < |users'| && users'[v] == {}
      ensures Waiting(d', v)
    {
      if v in used {
        assert v in d'[end];
      } else {
        assert Waiting(dying, v);
        var c :| c in dying && v in dying[c];
        assert v in d'[c];
      }
    }
  }

  lemma NotWaiting(dying: map<nat, set<nat>>, held: set<nat>, users: IndexSets, v: nat, o: nat)
    requires DyingOk(dying, held, users) && v < |users| && o in users[v]
    ensures forall c :: c in dying ==> v !in dying[c]
  {
  }

  lemma RanStep(users0: IndexSets, buffers0: IndexSets, ops: seq<Op>, i: nat, users: IndexSets, trace: seq<Event>,
                users': IndexSets)
    requires Ran(users0, ops, i, users, trace) && Inverse(users0, buffers0) && |buffers0| == |ops| && i < |ops|
    requires !ops[i].skipped
    requires Erased(users, users', buffers0[i], i)
    ensures Ran(users0, ops, i + 1, users', trace + [Use(i)])
  {
  }

  /** The current operation still uses all its buffers. */
  lemma OwnBuffers(users0: IndexSets, buffers0: IndexSets, ops: seq<Op>, i: nat, users: IndexSets, buffers: IndexSets,
                   trace: seq<Event>)
    requires Ran(users0, ops, i, users, trace) && Inverse(users0, buffers0) && Inverse(users, buffers)
    requires |buffers0| == |buffers| == |ops| && i < |ops| && !ops[i].skipped
    ensures buffers[i] == buffers0[i] && forall v :: v in buffers[i] ==> v < |users| && i in users[v]
  {
  }

  /** The buffers that hold memory after the trace. */
  ghost function HeldIn(trace: seq<Event>): set<nat>
  {
    set i | 0 <= i < |trace| && trace[i].Alloc? && Free(trace[i].buffer) !in trace :: trace[i].buffer
  }

  ghost function Missing(trace: seq<Event>, used: set<nat>): set<nat>
  {
    set v | v in used && Alloc(v) !in trace
  }

  /** Exactly the operations before `o` ran, and the allocator found no place for the buffers that `o` still needs
      beside those in memory. */
  ghost predicate Refused(fits: (set<nat>, set<nat>) -> bool, buffers: IndexSets, ops: seq<Op>, trace: seq<Event>,
                          o: nat)
  {
    && o < |ops| && o < |buffers| && !ops[o].skipped
    && (forall i: nat :: Use(i) in trace <==> i < o && !ops[i].skipped)
    && Missing(trace, buffers[o]) != {} && !fits(HeldIn(trace), Missing(trace, buffers[o]))
  }

  lemma HeldAgrees(offsets: set<nat>, held: set<nat>, trace: seq<Event>)
    requires Agrees(offsets, held, trace)
    ensures HeldIn(trace) == held
  {
    forall v
      ensures v in held <==> v in HeldIn(trace)
    {
      if v in held {
        var i :| 0 <= i < |trace| && trace[i] == Alloc(v);
      }
    }
  }

  ghost predicate EndsInUse(trace: seq<Event>)
  {
    trace == [] || trace[|trace| - 1].Use?
  }

  /** The trace ends with the right releases for operation `o`. */
  ghost predicate RoomAt(users: IndexSets, buffers: IndexSets, ops: seq<Op>, canAlloc: (set<nat>, set<nat>) -> bool,
                         trace: seq<Event>, o: nat)
    requires o < |ops| && o < |buffers|
  {
    exists start :: 0 <= start <= |trace| && RoomFrom(users, buffers, ops, canAlloc, trace, o, start)
  }

  ghost predicate RoomFrom(users: IndexSets, buffers: IndexSets, ops: seq<Op>, canAlloc: (set<nat>, set<nat>) -> bool,
                           trace: seq<Event>, o: nat, start: nat)
    requires o < |ops| && o < |buffers| && start <= |trace|
  {
    EndsInUse(trace[..start]) && Releases(users, buffers, ops, canAlloc, trace[..start], trace[start..], o)
  }

  lemma FreesFollow(users: IndexSets, buffers: IndexSets, ops: seq<Op>, canAlloc: (set<nat>, set<nat>) -> bool,
                    trace0: seq<Event>, trace1: seq<Event>, o: nat)
    requires o < |ops| && o < |buffers| && trace0 <= trace1
    requires Releases(users, buffers, ops, canAlloc, trace0, trace1[|trace0|..], o)
    ensures forall k :: |trace0| <= k < |trace1| ==> trace1[k].Free?
  {
    forall k | |trace0| <= k < |trace1|
      ensures trace1[k].Free?
    {
      assert trace1[|trace0|..][k - |trace0|] == trace1[k];
    }
  }

  /** Events other than uses do not matter. */
  lemma NoNewUse(users: IndexSets, buffers: IndexSets, ops: seq<Op>, canAlloc: (set<nat>, set<nat>) -> bool,
                 trace: seq<Event>, trace': seq<Event>)
    requires trace <= trace' && ReleasesRight(users, buffers, ops, canAlloc, trace)
    requires forall k :: |trace| <= k < |trace'| ==> !trace'[k].Use?
    ensures ReleasesRight(users, buffers, ops, canAlloc, trace')
  {
    ReleasesStay(users, buffers, ops, canAlloc, trace, trace');
  }

  /** Releases, allocations and the use itself make one right step of the trace. */
  lemma UseFollows(users: IndexSets, buffers: IndexSets, ops: seq<Op>, canAlloc: (set<nat>, set<nat>) -> bool,
                   trace0: seq<Event>, trace1: seq<Event>, trace2: seq<Event>, o: nat)
    requires o < |ops| && o < |buffers| && EndsInUse(trace0) && trace0 <= trace1
    requires AllocsOnly(trace1, trace2, buffers[o])
    requires Releases(users, buffers, ops, canAlloc, trace0, trace1[|trace0|..], o)
    ensures UseAt(users, buffers, ops, canAlloc, trace2 + [Use(o)], |trace2|)
  {
    var trace, n, start, end := trace2 + [Use(o)], |trace2|, |trace0|, |trace1|;
    assert trace[..start] == trace0 && trace[start..end] == trace1[start..];
    assert start > 0 ==> trace[start - 1] == trace0[start - 1];
    assert forall j :: end <= j < n ==> trace[j] == trace2[j];
    assert GapFrom(users, buffers, ops, canAlloc, trace, n, start, end);
  }

  lemma RightWithUse(users: IndexSets, buffers: IndexSets, ops: seq<Op>, canAlloc: (set<nat>, set<nat>) -> bool,
                     trace: seq<Event>, o: nat)
    requires ReleasesRight(users, buffers, ops, canAlloc, trace)
    requires UseAt(users, buffers, ops, canAlloc, trace + [Use(o)], |trace|)
    ensures ReleasesRight(users, buffers, ops, canAlloc, trace + [Use(o)])
  {
    ReleasesStay(users, buffers, ops, canAlloc, trace, trace + [Use(o)]);
  }

  /** The buffers of operation `o` get memory, after room has been made. */
  method TakeBuffers(scan: Scan, live: LiveRanges, o: nat, ops: seq<Op>, canAlloc: (set<nat>, set<nat>) -> bool,
                     fits: (set<nat>, set<nat>) -> bool, ghost users0: IndexSets, ghost buffers0: IndexSets)
    returns (ok: bool)
    requires o < |ops| && !ops[o].skipped && scan.Inv(live, users0, buffers0, ops, o) && EndsInUse(scan.trace)
    requires ReleasesRight(users0, buffers0, ops, canAlloc, scan.trace)
    modifies scan
    ensures LegalTrace(users0, buffers0, scan.trace) && ReleasesRight(users0, buffers0, ops, canAlloc, scan.trace)
    ensures ok ==> scan.Inv(live, users0, buffers0, ops, o) && buffers0[o] <= scan.held
    ensures ok ==> ReleasesRight(users0, buffers0, ops, canAlloc, scan.trace + [Use(o)])
    ensures !ok ==>
              Refused(fits, buffers0, ops, scan.trace, o) && RoomAt(users0, buffers0, ops, canAlloc, scan.trace, o)
  {
    ghost var trace0, dying0, held0 := scan.trace, scan.dying, scan.held;
    var used := live.buffers[o];
    OwnBuffers(users0, buffers0, ops, o, live.users, live.buffers, scan.trace);
    NotYetReleased(users0, buffers0, scan.trace, used, o);
    var toAlloc := scan.BuffersToAllocate(used);
    scan.MakeRoom(ops[o].begin, toAlloc, canAlloc, live, users0, buffers0, ops, o);
    NotYetReleased(users0, buffers0, scan.trace, used, o);
    ghost var held1, trace1 := scan.held, scan.trace;
    assert Missing(trace0, buffers0[o]) == toAlloc;
    assert used <= held1 + toAlloc && toAlloc !! scan.offsets && scan.alive == held1 + toAlloc;
    RightReleases(users0, buffers0, ops, o, live.users, scan.offsets, dying0, held0, trace0, scan.dying, held1, trace1,
                  canAlloc);
    FreesFollow(users0, buffers0, ops, canAlloc, trace0, trace1, o);
    NoNewUse(users0, buffers0, ops, canAlloc, trace0, trace1);
    ok := scan.AllocateAll(toAlloc, fits, users0, buffers0);
    if !ok {
      HeldAgrees(scan.offsets, scan.held, scan.trace);
      assert Missing(scan.trace, buffers0[o]) == toAlloc;
      assert trace1[..|trace0|] == trace0 && RoomFrom(users0, buffers0, ops, canAlloc, trace1, o, |trace0|);
      return;
    }
    NoNewUse(users0, buffers0, ops, canAlloc, trace1, scan.trace);
    UseFollows(users0, buffers0, ops, canAlloc, trace0, trace1, scan.trace, o);
    RightWithUse(users0, buffers0, ops, canAlloc, scan.trace, o);
    DyingGrows(scan.dying, held1, toAlloc, live.users, o);
  }

  /** Buffers that still have a user do not wait to be freed. */
  lemma DyingGrows(dying: map<nat, set<nat>>, held: set<nat>, more: set<nat>, users: IndexSets, o: nat)
    requires DyingOk(dying, held, users) && forall v :: v in more ==> v < |users| && o in users[v]
    ensures DyingOk(dying, held + more, users)
  {
  }

  /** Operation `o` runs and gives up its buffers, which wait under its end cycle if nothing else uses them. */
  method RunOp(scan: Scan, live: LiveRanges, o: nat, ops: seq<Op>, ghost users0: IndexSets, ghost buffers0: IndexSets)
    returns (ok: bool)
    requires o < |ops| && !ops[o].skipped && scan.Inv(live, users0, buffers0, ops, o) && buffers0[o] <= scan.held
    modifies scan, live
    ensures ok && scan.Inv(live, users0, buffers0, ops, o + 1) && scan.trace == old(scan.trace) + [Use(o)]
  {
    ghost var users1, trace1 := live.users, scan.trace;
    var used := live.buffers[o];
    OwnBuffers(users0, buffers0, ops, o, live.users, live.buffers, scan.trace);
    UseLegal(users0, buffers0, scan.offsets, scan.held, scan.trace, o);
    scan.trace := scan.trace + [Use(o)];
    var dead;
    ok, dead := EraseUses(live, o, used);
    RanStep(users0, buffers0, ops, o, users1, trace1, live.users);
    DyingAdd(scan.dying, scan.held, users1, live.users, used, o, dead, ops[o].end);
    FiledStep(users0, buffers0, ops, o, users1, trace1, live.users, scan.dying, dead);
    scan.dying := scan.dying[ops[o].end := dead + if ops[o].end in scan.dying then scan.dying[ops[o].end] else {}];
  }

  /** One round of the main loop. */
  method ProcessOp(scan: Scan, live: LiveRanges, o: nat, ops: seq<Op>, canAlloc: (set<nat>, set<nat>) -> bool,
                   fits: (set<nat>, set<nat>) -> bool, ghost users0: IndexSets, ghost buffers0: IndexSets)
    returns (ok: bool)
    requires o < |ops| && scan.Inv(live, users0, buffers0, ops, o) && EndsInUse(scan.trace)
    requires ReleasesRight(users0, buffers0, ops, canAlloc, scan.trace)
    modifies scan, live
    ensures LegalTrace(users0, buffers0, scan.trace) && ReleasesRight(users0, buffers0, ops, canAlloc, scan.trace)
    ensures ok ==> scan.Inv(live, users0, buffers0, ops, o + 1) && EndsInUse(scan.trace)
    ensures !ok ==>
              Refused(fits, buffers0, ops, scan.trace, o) && RoomAt(users0, buffers0, ops, canAlloc, scan.trace, o)
  {
    if ops[o].skipped {
      return true;
    }
    ok := TakeBuffers(scan, live, o, ops, canAlloc, fits, users0, buffers0);
    if ok {
      ok := RunOp(scan, live, o, ops, users0, buffers0);
    }
  }

  lemma NotYetReleased(users0: IndexSets, buffers0: IndexSets, trace: seq<Event>, used: set<nat>, o: nat)
    requires LegalTrace(users0, buffers0, trace) && Inverse(users0, buffers0) && o < |buffers0| && used == buffers0[o]
    requires Use(o) !in trace
    ensures forall v :: v in used ==> Free(v) !in trace
  {
  }

  lemma UseLegal(users0: IndexSets, buffers0: IndexSets, offsets: set<nat>, held: set<nat>, trace: seq<Event>, o: nat)
    requires LegalTrace(users0, buffers0, trace) && Agrees(offsets, held, trace)
    requires o < |buffers0| && buffers0[o] <= held && forall u: nat :: Use(u) in trace ==> u < o
    ensures LegalTrace(users0, buffers0, trace + [Use(o)]) && Agrees(offsets, held, trace + [Use(o)])
  {
    Extend(users0, buffers0, trace, Use(o));
  }

  /** The first use after event `f`. */
  lemma NextUse(trace: seq<Event>, f: nat, k: nat) returns (n: nat)
    requires f < k < |trace| && trace[k].Use?
    ensures f < n <= k && trace[n].Use? && forall j :: f < j < n ==> !trace[j].Use?
  {
    n := f + 1;
    while !trace[n].Use?
      invariant f < n <= k && forall j :: f < j < n ==> !trace[j].Use?
      decreases k - n
    {
      n := n + 1;
    }
  }

  /** A buffer that is freed before some operation runs has ended by the time the next operation begins, or that
      operation would not fit otherwise. */
  lemma WhyFreed(users: IndexSets, buffers: IndexSets, ops: seq<Op>, canAlloc: (set<nat>, set<nat>) -> bool,
                 trace: seq<Event>, f: nat, k: nat) returns (n: nat, start: nat)
    requires ReleasesRight(users, buffers, ops, canAlloc, trace) && f < k < |trace| && trace[f].Free? && trace[k].Use?
    ensures f < n <= k && trace[n].Use? && trace[n].op < |ops| && trace[n].op < |buffers| && start <= f
    ensures forall j :: start <= j < n ==> !trace[j].Use?
    ensures trace[f].buffer in Dead(users, trace[..start])
    ensures EndOf(users, ops, trace[f].buffer) <= ops[trace[n].op].begin ||
            !canAlloc(HeldIn(trace[..start]) -
                      EndingBefore(users, ops, Dead(users, trace[..start]), EndOf(users, ops, trace[f].buffer)),
                      Missing(trace[..start], buffers[trace[n].op]))
  {
    n := NextUse(trace, f, k);
    assert UseAt(users, buffers, ops, canAlloc, trace, n);
    var first: nat, end: nat :| GapFrom(users, buffers, ops, canAlloc, trace, n, first, end);
    start := first;
    GapOfFree(users, buffers, ops, canAlloc, trace, n, start, end, f);
  }

  lemma GapOfFree(users: IndexSets, buffers: IndexSets, ops: seq<Op>, canAlloc: (set<nat>, set<nat>) -> bool,
                  trace: seq<Event>, n: nat, start: nat, end: nat, f: nat)
    requires GapFrom(users, buffers, ops, canAlloc, trace, n, start, end) && f < n && trace[f].Free?
    requires forall j :: f < j < n ==> !trace[j].Use?
    ensures start <= f < end && trace[f].buffer in Dead(users, trace[..start])
    ensures forall j :: start <= j < n ==> !trace[j].Use?
    ensures EndOf(users, ops, trace[f].buffer) <= ops[trace[n].op].begin ||
            !canAlloc(HeldIn(trace[..start]) -
                      EndingBefore(users, ops, Dead(users, trace[..start]), EndOf(users, ops, trace[f].buffer)),
                      Missing(trace[..start], buffers[trace[n].op]))
  {
    var frees := trace[start..end];
    assert start <= f < end;
    assert frees[f - start] == trace[f];
    assert forall j :: start <= j < end ==> trace[j] == frees[j - start] && trace[j].Free?;
    assert Free(trace[f].buffer) in frees;
  }

  /** Conversely, a buffer whose users all ran and ended before an operation begins is freed before that allocates. */
  lemma FreedInTime(users: IndexSets, buffers: IndexSets, ops: seq<Op>, canAlloc: (set<nat>, set<nat>) -> bool,
                    trace: seq<Event>, k: nat, v: nat) returns (end: nat)
    requires ReleasesRight(users, buffers, ops, canAlloc, trace) && LegalTrace(users, buffers, trace)
    requires Inverse(users, buffers) && k < |trace| && trace[k].Use? && v < |users| && users[v] != {}
    requires trace[k].op < |ops| && EndOf(users, ops, v) <= ops[trace[k].op].begin
    requires forall o :: o in users[v] ==> Use(o) in trace[..k]
    ensures end <= k && Free(v) in trace[..end] && forall j :: end <= j < k ==> trace[j].Alloc?
  {
    assert UseAt(users, buffers, ops, canAlloc, trace, k);
    var start: nat, last: nat :| GapFrom(users, buffers, ops, canAlloc, trace, k, start, last);
    end := last;
    UsesBeforeGap(users, buffers, ops, canAlloc, trace, k, start, end, users[v]);
    AllocBefore(users, buffers, trace, start, v);
    if Free(v) !in trace[..start] {
      HeldDead(users, trace[..start], v);
      DeadGoes(users, buffers, ops, canAlloc, trace, k, start, end, v);
    }
    InPrefix(trace, start, end, Free(v));
  }

  lemma InPrefix(trace: seq<Event>, start: nat, end: nat, e: Event)
    requires start <= end <= |trace| && (e in trace[..start] || e in trace[start..end])
    ensures e in trace[..end]
  {
    assert trace[..start] + trace[start..end] == trace[..end];
  }

  lemma HeldDead(users: IndexSets, trace: seq<Event>, v: nat)
    requires Alloc(v) in trace && Free(v) !in trace && v < |users| && forall o :: o in users[v] ==> Use(o) in trace
    ensures v in Dead(users, trace)
  {
    var i :| 0 <= i < |trace| && trace[i] == Alloc(v);
  }

  lemma DeadGoes(users: IndexSets, buffers: IndexSets, ops: seq<Op>, canAlloc: (set<nat>, set<nat>) -> bool,
                 trace: seq<Event>, k: nat, start: nat, end: nat, v: nat)
    requires GapFrom(users, buffers, ops, canAlloc, trace, k, start, end) && v in Dead(users, trace[..start])
    requires EndOf(users, ops, v) <= ops[trace[k].op].begin
    ensures Free(v) in trace[start..end]
  {
  }

  /** A buffer that was used was allocated. */
  lemma AllocBefore(users: IndexSets, buffers: IndexSets, trace: seq<Event>, start: nat, v: nat)
    requires LegalTrace(users, buffers, trace) && Inverse(users, buffers) && start <= |trace|
    requires v < |users| && users[v] != {} && forall o :: o in users[v] ==> Use(o) in trace[..start]
    ensures Alloc(v) in trace[..start]
  {
    var o :| o in users[v];
    var u :| 0 <= u < start && trace[..start][u] == Use(o);
    var a := UseWithinLifetime(users, buffers, trace, u, v);
    assert trace[..start][a] == Alloc(v);
  }

  lemma FreesInGap(users: IndexSets, buffers: IndexSets, ops: seq<Op>, canAlloc: (set<nat>, set<nat>) -> bool,
                   trace: seq<Event>, k: nat, start: nat, end: nat)
    requires GapFrom(users, buffers, ops, canAlloc, trace, k, start, end)
    ensures forall j :: start <= j < k ==> !trace[j].Use?
  {
    forall j | start <= j < end
      ensures trace[j].Free?
    {
      assert trace[start..end][j - start] == trace[j];
    }
  }

  lemma UsesBeforeGap(users: IndexSets, buffers: IndexSets, ops: seq<Op>, canAlloc: (set<nat>, set<nat>) -> bool,
                      trace: seq<Event>, k: nat, start: nat, end: nat, s: set<nat>)
    requires GapFrom(users, buffers, ops, canAlloc, trace, k, start, end) && forall o :: o in s ==> Use(o) in trace[..k]
    ensures forall o :: o in s ==> Use(o) in trace[..start]
  {
    FreesInGap(users, buffers, ops, canAlloc, trace, k, start, end);
    forall o | o in s
      ensures Use(o) in trace[..start]
    {
      var j :| 0 <= j < k && trace[..k][j] == Use(o);
      assert trace[..start][j] == Use(o);
    }
  }

  /** The trace ends with the release of buffers only, by the end cycles of their last users. */
  ghost predicate EndsInOrder(users: IndexSets, ops: seq<Op>, trace: seq<Event>)
  {
    exists start :: 0 <= start <= |trace| && TailFrom(users, ops, trace, start)
  }

  ghost predicate TailFrom(users: IndexSets, ops: seq<Op>, trace: seq<Event>, start: nat)
    requires start <= |trace|
  {
    && EndsInUse(trace[..start]) && (forall j :: start <= j < |trace| ==> trace[j].Free?)
    && forall j, k :: start <= j < k < |trace| && trace[j].Free? && trace[k].Free? ==>
         EndOf(users, ops, trace[j].buffer) <= EndOf(users, ops, trace[k].buffer)
  }

  /** The last part of the trace frees buffers of cycles that have gone, before those of the cycles that remain. */
  ghost predicate Draining(users0: IndexSets, ops: seq<Op>, dying0: map<nat, set<nat>>, dying: map<nat, set<nat>>,
                           trace0: seq<Event>, trace: seq<Event>)
  {
    && CycleOrder(dying0, dying, trace0, trace) && FiledByEnd(users0, ops, dying0)
    && (forall d :: d in dying ==> d in dying0 && dying[d] == dying0[d])
    && forall b, d :: b in dying0 && b !in dying && d in dying ==> b < d
  }

  lemma Drained(users0: IndexSets, ops: seq<Op>, dying0: map<nat, set<nat>>, dying: map<nat, set<nat>>,
                trace0: seq<Event>, trace: seq<Event>)
    requires Draining(users0, ops, dying0, dying, trace0, trace) && EndsInUse(trace0)
    ensures EndsInOrder(users0, ops, trace)
  {
    var n := |trace0|;
    assert trace[..n] == trace0;
    forall j, k | n <= j < k < |trace|
      ensures trace[j].Free? && trace[k].Free?
      ensures EndOf(users0, ops, trace[j].buffer) <= EndOf(users0, ops, trace[k].buffer)
    {
      assert FreesIn(dying0, EndOf(users0, ops, trace[j].buffer), trace[j]);
      assert FreesIn(dying0, EndOf(users0, ops, trace[k].buffer), trace[k]);
    }
    assert TailFrom(users0, ops, trace, n);
  }

  /** Releases all waiting buffers. */
  method Drain(scan: Scan, live: LiveRanges, ghost users0: IndexSets, ghost buffers0: IndexSets, ghost ops: seq<Op>)
    requires scan.Inv(live, users0, buffers0, ops, |ops|) && EndsInUse(scan.trace)
    modifies scan
    ensures scan.Inv(live, users0, buffers0, ops, |ops|) && scan.dying == map[]
    ensures old(scan.trace) <= scan.trace && EndsInOrder(users0, ops, scan.trace)
    ensures forall k :: |old(scan.trace)| <= k < |scan.trace| ==> !scan.trace[k].Use?
  {
    ghost var dying0, trace0 := scan.dying, scan.trace;
    while scan.dying != map[]
      invariant scan.Inv(live, users0, buffers0, ops, |ops|)
      invariant Draining(users0, ops, dying0, scan.dying, trace0, scan.trace)
      invariant DyingApart(dying0)
      decreases |scan.dying.Keys|
    {
      var c := scan.FirstCycle();
      ghost var dying, trace := scan.dying, scan.trace;
      scan.ReleaseCycle(c, live, users0, buffers0, ops, |ops|);
      OrderStep(dying0, dying, trace0, trace, scan.trace, c);
    }
    Drained(users0, ops, dying0, scan.dying, trace0, scan.trace);
  }

  ghost predicate DyingApart(dying: map<nat, set<nat>>)
  {
    forall b, d, v :: b in dying && d in dying && v in dying[b] && v in dying[d] ==> b == d
  }

  /** The main loop of `runLinearScan` and the final release. `canAlloc` and `fits` stand for the answers of the
      allocator. Before each operation exactly the buffers go that ended in time or have to; the run fails only if the
      allocator refuses even then. */
  method RunLinearScan(live: LiveRanges, ops: seq<Op>, canAlloc: (set<nat>, set<nat>) -> bool,
                       fits: (set<nat>, set<nat>) -> bool)
    returns (ok: bool, trace: seq<Event>)
    requires live.Valid() && |live.buffers| == |ops|
    modifies live
    ensures LegalTrace(old(live.users), old(live.buffers), trace)
    ensures ReleasesRight(old(live.users), old(live.buffers), ops, canAlloc, trace)
    ensures !ok ==>
              exists o :: Refused(fits, old(live.buffers), ops, trace, o) &&
                          RoomAt(old(live.users), old(live.buffers), ops, canAlloc, trace, o)
    ensures ok ==> forall o: nat :: Use(o) in trace <==> o < |ops| && !ops[o].skipped
    ensures ok ==> EndsInOrder(old(live.users), ops, trace)
    ensures ok ==>
              forall v: nat :: Alloc(v) in trace && v < |old(live.users)| && (forall o ::
                o in old(live.users)[v] ==> !ops[o].skipped) ==>
                     Free(v) in trace
  {
    ghost var users0, buffers0 := live.users, live.buffers;
    var scan := new Scan();
    var o := 0;
    while o < |ops|
      invariant o <= |ops| && scan.Inv(live, users0, buffers0, ops, o) && fresh(scan)
      invariant EndsInUse(scan.trace) && ReleasesRight(users0, buffers0, ops, canAlloc, scan.trace)
    {
      ok := ProcessOp(scan, live, o, ops, canAlloc, fits, users0, buffers0);
      if !ok {
        return false, scan.trace;
      }
      o := o + 1;
    }
    ghost var trace0 := scan.trace;
    Drain(scan, live, users0, buffers0, ops);
    NoNewUse(users0, buffers0, ops, canAlloc, trace0, scan.trace);
    forall v: nat | Alloc(v) in scan.trace && v < |users0| && forall o :: o in users0[v] ==> !ops[o].skipped
      ensures Free(v) in scan.trace
    {
      AllReleased(users0, buffers0, ops, live.users, scan.trace, scan.offsets, scan.held, v);
    }
    return true, scan.trace;
  }

  /** At the end nothing waits, so no buffer without users holds memory. */
  lemma AllReleased(users0: IndexSets, buffers0: IndexSets, ops: seq<Op>, users: IndexSets, trace: seq<Event>,
                    offsets: set<nat>, held: set<nat>, v: nat)
    requires Ran(users0, ops, |ops|, users, trace) && Inverse(users0, buffers0) && |buffers0| == |ops|
    requires Agrees(offsets, held, trace) && DyingOk(map[], held, users) && Alloc(v) in trace && v < |users0|
    requires forall o :: o in users0[v] ==> !ops[o].skipped
    requires forall o :: o in users[v] ==> o < |ops|
    ensures Free(v) in trace
  {
  }
}
