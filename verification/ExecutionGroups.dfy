/** Grouping the tasks of a queue: consecutive tasks share a group while two counters stay within their limits. */
module ExecutionGroups {

  function Prefix(w: seq<nat>, n: nat): nat
    requires n <= |w|
  {
    if n == 0 then 0 else Prefix(w, n - 1) + w[n - 1]
  }

  lemma {:induction false} PrefixMono(w: seq<nat>, a: nat, b: nat)
    requires a <= b <= |w|
    ensures Prefix(w, a) <= Prefix(w, b)
  {
    if a < b { PrefixMono(w, a, b - 1); }
  }

  /** What each task adds to the two counters, and the limits. */
  datatype Weights = Weights(first: seq<nat>, second: seq<nat>, maxFirst: nat, maxSecond: nat) {
    ghost predicate Ok(n: nat) { |first| == |second| == n }

    /** Tasks `a..b-1` may share a group. */
    ghost predicate Fits(a: nat, b: nat)
      requires a <= b <= |first| && b <= |second|
    {
      Prefix(first, b) - Prefix(first, a) <= maxFirst && Prefix(second, b) - Prefix(second, a) <= maxSecond
    }

    ghost predicate EachFits()
      requires |first| == |second|
    {
      forall i :: 0 <= i < |first| ==> first[i] <= maxFirst && second[i] <= maxSecond
    }
  }

  lemma FitsInside(w: Weights, a: nat, b: nat, c: nat, d: nat)
    requires w.Ok(|w.first|) && a <= b <= c <= d <= |w.first| && w.Fits(a, d)
    ensures w.Fits(b, c)
  {
    PrefixMono(w.first, a, b);
    PrefixMono(w.first, c, d);
    PrefixMono(w.second, a, b);
    PrefixMono(w.second, c, d);
  }

  /** Group `j` holds the tasks `cuts[j] .. cuts[j + 1] - 1`; together the groups are the tasks `0 .. n-1` in order. */
  ghost predicate IsPartition(cuts: seq<nat>, n: nat)
  {
    && |cuts| > 0 && cuts[0] == 0 && cuts[|cuts| - 1] == n
    && forall i, j :: 0 <= i < j < |cuts| ==> cuts[i] <= cuts[j]
  }

  ghost predicate WithinLimits(w: Weights, cuts: seq<nat>)
    requires w.Ok(|w.first|) && IsPartition(cuts, |w.first|)
  {
    forall j :: 0 <= j && j + 1 < |cuts| ==> w.Fits(cuts[j], cuts[j + 1])
  }

  /** Every group is closed only because the next task does not fit any more. */
  ghost predicate Greedy(w: Weights, cuts: seq<nat>, n: nat)
    requires w.Ok(|w.first|) && n <= |w.first| && forall i :: 0 <= i < |cuts| ==> cuts[i] <= n
  {
    forall j :: 0 <= j && j + 1 < |cuts| && cuts[j] <= cuts[j + 1] < n ==> !w.Fits(cuts[j], cuts[j + 1] + 1)
  }

  ghost predicate AreGroups(groups: seq<seq<nat>>, tasks: seq<nat>, cuts: seq<nat>)
    requires |cuts| > 0 && IsPartition(cuts, cuts[|cuts| - 1]) && cuts[|cuts| - 1] <= |tasks|
  {
    |groups| == |cuts| - 1 && forall j :: 0 <= j < |groups| ==> groups[j] == tasks[cuts[j]..cuts[j + 1]]
  }

  /** Where the groups begin, and where the last one ends. */
  ghost function Cuts(groups: seq<seq<nat>>): (r: seq<nat>)
    ensures |r| == |groups| + 1
  {
    if groups == [] then [0]
    else
      var n := |groups| - 1;
      var front := Cuts(groups[..n]);
      front + [front[n] + |groups[n]|]
  }

  lemma {:induction false} CutsOfGroups(groups: seq<seq<nat>>, tasks: seq<nat>, cuts: seq<nat>)
    requires |cuts| > 0 && IsPartition(cuts, cuts[|cuts| - 1]) && cuts[|cuts| - 1] <= |tasks|
    requires AreGroups(groups, tasks, cuts)
    ensures Cuts(groups) == cuts
    decreases |groups|
  {
    if groups != [] {
      var n := |groups| - 1;
      var front := cuts[..n + 1];
      assert IsPartition(front, front[n]) && AreGroups(groups[..n], tasks, front);
      CutsOfGroups(groups[..n], tasks, front);
      assert groups[n] == tasks[cuts[n]..cuts[n + 1]];
      assert cuts == front + [cuts[n + 1]];
    }
  }

  /** No group is empty and all are within the limits. */
  ghost predicate ProperGroups(w: Weights, cuts: seq<nat>, n: nat)
    requires w.Ok(|w.first|) && n <= |w.first| && forall i :: 0 <= i < |cuts| ==> cuts[i] <= n
  {
    forall j :: 0 <= j && j + 1 < |cuts| ==> cuts[j] < cuts[j + 1] && w.Fits(cuts[j], cuts[j + 1])
  }

  lemma CutGroups(groups: seq<seq<nat>>, tasks: seq<nat>, cuts: seq<nat>, start: nat, i: nat)
    requires IsPartition(cuts, start) && start <= i <= |tasks| && AreGroups(groups, tasks, cuts)
    ensures IsPartition(cuts + [i], i) && AreGroups(groups + [tasks[start..i]], tasks, cuts + [i])
  {
  }

  lemma CutGreedy(w: Weights, cuts: seq<nat>, start: nat, i: nat)
    requires w.Ok(|w.first|) && IsPartition(cuts, start) && start <= i <= |w.first| && Greedy(w, cuts, |w.first|)
    requires i == |w.first| || !w.Fits(start, i + 1)
    ensures Greedy(w, cuts + [i], |w.first|)
  {
  }

  lemma CutProper(w: Weights, cuts: seq<nat>, start: nat, i: nat)
    requires w.Ok(|w.first|) && IsPartition(cuts, start) && start < i <= |w.first|
    requires ProperGroups(w, cuts, |w.first|) && w.Fits(start, i)
    ensures ProperGroups(w, cuts + [i], |w.first|)
  {
  }

  /** The groups of the greedy method and the counters it keeps. */
  method CreateGroups(tasks: seq<nat>, w: Weights) returns (groups: seq<seq<nat>>)
    requires w.Ok(|tasks|)
    ensures IsPartition(Cuts(groups), |tasks|) && AreGroups(groups, tasks, Cuts(groups))
    ensures Greedy(w, Cuts(groups), |tasks|)
    ensures w.EachFits() ==> ProperGroups(w, Cuts(groups), |tasks|)
  {
    groups := [];
    ghost var cuts: seq<nat> := [0];
    var group: seq<nat> := [];
    var count1, count2 := 0, 0;
    ghost var start := 0;
    var i := 0;
    while i < |tasks|
      invariant start <= i <= |tasks| && group == tasks[start..i] && (start < i || i == 0)
      invariant count1 == Prefix(w.first, i) - Prefix(w.first, start)
      invariant count2 == Prefix(w.second, i) - Prefix(w.second, start)
      invariant IsPartition(cuts, start) && AreGroups(groups, tasks, cuts) && Greedy(w, cuts, |tasks|)
      invariant w.EachFits() ==> w.Fits(start, i) && ProperGroups(w, cuts, |tasks|)
    {
      count1, count2 := count1 + w.first[i], count2 + w.second[i];
      if count1 > w.maxFirst || count2 > w.maxSecond {
        CutGroups(groups, tasks, cuts, start, i);
        CutGreedy(w, cuts, start, i);
        if w.EachFits() {
          CutProper(w, cuts, start, i);
        }
        groups, cuts := groups + [group], cuts + [i];
        group, start := [tasks[i]], i;
        count1, count2 := w.first[i], w.second[i];
      } else {
        group := group + [tasks[i]];
      }
      i := i + 1;
    }
    if group != [] {
      CutGroups(groups, tasks, cuts, start, i);
      CutGreedy(w, cuts, start, i);
      if w.EachFits() {
        CutProper(w, cuts, start, i);
      }
      groups, cuts := groups + [group], cuts + [i];
    }
    CutsOfGroups(groups, tasks, cuts);
  }

  /** After equally many groups, the greedy partition has covered at least as many tasks as any other. */
  lemma {:induction false} StaysAhead(w: Weights, cuts: seq<nat>, other: seq<nat>, j: nat)
    requires w.Ok(|w.first|) && IsPartition(cuts, |w.first|) && IsPartition(other, |w.first|)
    requires Greedy(w, cuts, |w.first|) && WithinLimits(w, other) && j < |cuts| && j < |other|
    ensures other[j] <= cuts[j]
  {
    if j > 0 {
      StaysAhead(w, cuts, other, j - 1);
      var k := j - 1;
      if cuts[k + 1] < other[k + 1] {
        assert w.Fits(other[k], other[k + 1]);
        FitsInside(w, other[k], cuts[k], cuts[k + 1] + 1, other[k + 1]);
      }
    }
  }

  /** No partition into consecutive groups within the limits has fewer groups. */
  lemma GreedyIsOptimal(w: Weights, cuts: seq<nat>, other: seq<nat>)
    requires w.Ok(|w.first|) && IsPartition(cuts, |w.first|) && IsPartition(other, |w.first|)
    requires Greedy(w, cuts, |w.first|) && ProperGroups(w, cuts, |w.first|) && WithinLimits(w, other)
    ensures |cuts| <= |other|
  {
    if |other| < |cuts| {
      var j := |other| - 1;
      assert cuts[j] < cuts[j + 1] <= |w.first|;
      StaysAhead(w, cuts, other, j);
    }
  }
}
