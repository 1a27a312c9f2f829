/**
 The parallel prefix sum of the prefixsum benchmark: any number of workers, any division of the input
 into consecutive regions, and any interleaving of the loads and stores inside a phase.

 `out` and the additions to it are 32 bits wide and wrap; `sums` are wide enough for any sum.
 */
module PrefixSum {
  import opened Schedules

  const TWO31 := 0x8000_0000
  const TWO32 := 0x1_0000_0000

  function Wrap(x: int): (w: int)
    ensures -TWO31 <= w < TWO31
    ensures -TWO31 <= x < TWO31 ==> w == x
  {
    (x + TWO31) % TWO32 - TWO31
  }

  lemma WrapAdds(a: int, b: int)
    ensures Wrap(Wrap(a) + Wrap(b)) == Wrap(a + b)
  {
  }

  /** The sum of input[lo..hi]. */
  function Sum(input: seq<int>, lo: nat, hi: nat): int
    requires hi <= |input|
  {
    if hi <= lo then 0 else Sum(input, lo, hi - 1) + input[hi - 1]
  }

  lemma {:induction false} SumSplits(input: seq<int>, lo: nat, mid: nat, hi: nat)
    requires lo <= mid <= hi <= |input|
    ensures Sum(input, lo, hi) == Sum(input, lo, mid) + Sum(input, mid, hi)
  {
    if mid < hi {
      SumSplits(input, lo, mid, hi - 1);
    }
  }

  /** Region t is [bounds[t], bounds[t + 1]). */
  predicate Division(bounds: seq<nat>, n: nat) {
    && |bounds| >= 2 && bounds[0] == 0 && bounds[|bounds| - 1] == n
    && forall i, j :: 0 <= i <= j < |bounds| ==> bounds[i] <= bounds[j]
  }

  lemma {:induction false} RegionOf(bounds: seq<nat>, n: nat, j: nat, upTo: nat) returns (t: nat)
    requires Division(bounds, n) && upTo < |bounds| && j < bounds[upTo]
    ensures t < upTo && bounds[t] <= j < bounds[t + 1]
  {
    if bounds[upTo - 1] <= j {
      t := upTo - 1;
    } else {
      t := RegionOf(bounds, n, j, upTo - 1);
    }
  }

  // ----- Phase 1: localprefixsum -----

  datatype LocalPc = LoadIn | StoreOut | StoreSum | Summed

  datatype Local = Local(pc: LocalPc, pos: nat, sum: int)

  datatype Phase1 = Phase1(out: seq<int>, sums: seq<int>, workers: seq<Local>)

  predicate Sized1(input: seq<int>, bounds: seq<nat>, p: Phase1) {
    && Division(bounds, |input|) && |p.out| == |input|
    && |p.sums| == |p.workers| == |bounds| - 1
    && forall t :: 0 <= t < |p.workers| ==> p.workers[t].pc in {LoadIn, StoreOut} ==> p.workers[t].pos < |input|
  }

  function NextLocal(w: Local, end: nat): Local {
    w.(pc := if w.pos < end then LoadIn else StoreSum)
  }

  function Step1(input: seq<int>, bounds: seq<nat>, p: Phase1, t: nat): (p': Phase1)
    requires Sized1(input, bounds, p) && t < |p.workers|
    ensures Sized1(input, bounds, p')
  {
    var w := p.workers[t];
    assert bounds[t + 1] <= |input|;
    match w.pc
    case LoadIn => p.(workers := p.workers[t := w.(sum := w.sum + input[w.pos], pc := StoreOut)])
    case StoreOut =>
      p.(out := p.out[w.pos := Wrap(w.sum)], workers := p.workers[t := NextLocal(w.(pos := w.pos + 1), bounds[t + 1])])
    case StoreSum => p.(sums := p.sums[t := w.sum], workers := p.workers[t := w.(pc := Summed)])
    case Summed => p
  }

  function Start1(input: seq<int>, bounds: seq<nat>): (p: Phase1)
    requires Division(bounds, |input|)
    ensures Sized1(input, bounds, p)
  {
    assert forall t :: 0 <= t < |bounds| ==> bounds[t] <= |input|;
    Phase1(seq(|input|, _ => 0), seq(|bounds| - 1, _ => 0),
           seq(|bounds| - 1, t requires 0 <= t < |bounds| - 1 => NextLocal(Local(Summed, bounds[t], 0), bounds[t + 1])))
  }

  function Run1(input: seq<int>, bounds: seq<nat>, schedule: seq<nat>): (p: Phase1)
    requires Division(bounds, |input|) && Schedule(|bounds| - 1, schedule)
    ensures Sized1(input, bounds, p)
  {
    if schedule == [] then Start1(input, bounds)
    else
      var last := |schedule| - 1;
      assert Schedule(|bounds| - 1, schedule[..last]);
      Step1(input, bounds, Run1(input, bounds, schedule[..last]), schedule[last])
  }

  /** How far worker t is, and what it has written. */
  predicate LocalFits(input: seq<int>, lo: nat, hi: nat, out: seq<int>, mySum: int, w: Local)
    requires lo <= hi <= |input| == |out|
  {
    && lo <= w.pos <= hi
    && (w.pc in {LoadIn, StoreOut} ==> w.pos < hi)
    && (w.pc in {StoreSum, Summed} ==> w.pos == hi)
    && (w.pc in {LoadIn, StoreSum} ==> w.sum == Sum(input, lo, w.pos))
    && (w.pc == StoreOut ==> w.sum == Sum(input, lo, w.pos + 1))
    && (w.pc == Summed ==> mySum == Sum(input, lo, hi))
    && forall j :: lo <= j < w.pos ==> out[j] == Wrap(Sum(input, lo, j + 1))
  }

  predicate WorkerFits1(input: seq<int>, bounds: seq<nat>, p: Phase1, t: nat) {
    && t + 1 < |bounds| && t < |p.workers| && t < |p.sums| && |p.out| == |input|
    && bounds[t] <= bounds[t + 1] <= |input|
    && LocalFits(input, bounds[t], bounds[t + 1], p.out, p.sums[t], p.workers[t])
  }

  predicate Fits1(input: seq<int>, bounds: seq<nat>, p: Phase1) {
    Sized1(input, bounds, p) && forall t: nat :: t < |p.workers| ==> WorkerFits1(input, bounds, p, t)
  }

  lemma Step1Fits(input: seq<int>, bounds: seq<nat>, p: Phase1, t: nat)
    requires Fits1(input, bounds, p) && t < |p.workers|
    ensures Fits1(input, bounds, Step1(input, bounds, p, t))
  {
    forall u: nat | u < |p.workers|
      ensures WorkerFits1(input, bounds, Step1(input, bounds, p, t), u)
    {
      assert WorkerFits1(input, bounds, p, t) && WorkerFits1(input, bounds, p, u);
      if u == t {
        OwnStep1(input, bounds, p, t);
      } else {
        OtherStep1(input, bounds, p, t, u);
      }
    }
  }

  lemma OwnStep1(input: seq<int>, bounds: seq<nat>, p: Phase1, t: nat)
    requires Sized1(input, bounds, p) && WorkerFits1(input, bounds, p, t)
    ensures WorkerFits1(input, bounds, Step1(input, bounds, p, t), t)
  {
    hide Wrap, Division;
  }

  lemma OtherStep1(input: seq<int>, bounds: seq<nat>, p: Phase1, t: nat, u: nat)
    requires Sized1(input, bounds, p) && WorkerFits1(input, bounds, p, t) && WorkerFits1(input, bounds, p, u) && t != u
    ensures WorkerFits1(input, bounds, Step1(input, bounds, p, t), u)
  {
    assert u < t ==> bounds[u + 1] <= bounds[t];
    assert u > t ==> bounds[t + 1] <= bounds[u];
    hide Wrap, Division;
  }

  lemma Start1Fits(input: seq<int>, bounds: seq<nat>)
    requires Division(bounds, |input|)
    ensures Fits1(input, bounds, Start1(input, bounds))
  {
    hide Division, WorkerFits1, Sized1;
    forall t: nat | t < |bounds| - 1
      ensures WorkerFits1(input, bounds, Start1(input, bounds), t)
    {
      StartWorker1(input, bounds, t);
    }
    StartSize1(input, bounds);
    hide Start1;
  }

  lemma StartSize1(input: seq<int>, bounds: seq<nat>)
    requires Division(bounds, |input|)
    ensures |bounds| >= 2 && |Start1(input, bounds).workers| == |bounds| - 1
  {
  }

  lemma StartWorker1(input: seq<int>, bounds: seq<nat>, t: nat)
    requires Division(bounds, |input|) && t + 1 < |bounds|
    ensures WorkerFits1(input, bounds, Start1(input, bounds), t)
  {
    assert bounds[t] <= bounds[t + 1] <= bounds[|bounds| - 1];
    hide Division, Wrap;
  }

  lemma {:induction false} Run1Fits(input: seq<int>, bounds: seq<nat>, schedule: seq<nat>)
    requires Division(bounds, |input|) && Schedule(|bounds| - 1, schedule)
    ensures Fits1(input, bounds, Run1(input, bounds, schedule))
  {
    hide Fits1, Step1, Start1;
    if schedule == [] {
      Start1Fits(input, bounds);
    } else {
      var last := |schedule| - 1;
      Run1Fits(input, bounds, schedule[..last]);
      Step1Fits(input, bounds, Run1(input, bounds, schedule[..last]), schedule[last]);
    }
  }

  // ----- Phase 2: inlineprefixsum -----

  function PrefixSums(a: seq<int>): (r: seq<int>)
    ensures |r| == |a| && forall k :: 0 <= k < |a| ==> r[k] == Sum(a, 0, k + 1)
  {
    seq(|a|, k requires 0 <= k < |a| => Sum(a, 0, k + 1))
  }

  method InlinePrefixSum(a: array<int>)
    modifies a
    ensures a[..] == PrefixSums(old(a[..]))
  {
    var sum := 0;
    var start := 0;
    ghost var before := a[..];
    while start < a.Length
      invariant start <= a.Length && sum == Sum(before, 0, start)
      invariant forall k :: 0 <= k < start ==> a[k] == Sum(before, 0, k + 1)
      invariant forall k :: start <= k < a.Length ==> a[k] == before[k]
    {
      sum := sum + a[start];
      a[start] := sum;
      start := start + 1;
    }
  }

  predicate IsRegionSum(input: seq<int>, bounds: seq<nat>, sums: seq<int>, t: nat) {
    t < |sums| && t + 1 < |bounds| && bounds[t + 1] <= |input| && sums[t] == Sum(input, bounds[t], bounds[t + 1])
  }

  /** The prefix sums of the regions' sums are the sums up to the regions' ends. */
  lemma {:induction false} RegionSumsAddUp(input: seq<int>, bounds: seq<nat>, sums: seq<int>, t: nat)
    requires Division(bounds, |input|) && |sums| == |bounds| - 1 && t <= |sums|
    requires forall u: nat :: u < |sums| ==> IsRegionSum(input, bounds, sums, u)
    ensures bounds[t] <= |input| && Sum(sums, 0, t) == Sum(input, 0, bounds[t])
  {
    assert bounds[t] <= bounds[|bounds| - 1];
    if t > 0 {
      RegionSumsAddUp(input, bounds, sums, t - 1);
      assert bounds[t - 1] <= bounds[t];
      assert IsRegionSum(input, bounds, sums, t - 1);
      SumSplits(input, 0, bounds[t - 1], bounds[t]);
    }
  }

  // ----- Phase 3: localadd -----

  datatype AddPc = LoadSum | LoadOut | StoreBack | Added

  datatype Adder = Adder(pc: AddPc, pos: nat, sum: int, s: int)

  datatype Phase3 = Phase3(out: seq<int>, workers: seq<Adder>)

  predicate Sized3(bounds: seq<nat>, sums: seq<int>, p: Phase3) {
    && Division(bounds, |p.out|) && |sums| == |p.workers| == |bounds| - 1
    && p.workers[0].pc == Added
    && forall t :: 0 <= t < |p.workers| ==> p.workers[t].pc in {LoadOut, StoreBack} ==> p.workers[t].pos < |p.out|
  }

  function NextAdder(w: Adder, end: nat): Adder {
    w.(pc := if w.pos < end then LoadOut else Added)
  }

  function Step3(bounds: seq<nat>, sums: seq<int>, p: Phase3, t: nat): (p': Phase3)
    requires Sized3(bounds, sums, p) && t < |p.workers|
    ensures Sized3(bounds, sums, p') && |p'.out| == |p.out|
  {
    var w := p.workers[t];
    assert bounds[t + 1] <= |p.out|;
    match w.pc
    case LoadSum => p.(workers := p.workers[t := NextAdder(w.(sum := Wrap(sums[t - 1])), bounds[t + 1])])
    case LoadOut => p.(workers := p.workers[t := w.(s := p.out[w.pos], pc := StoreBack)])
    case StoreBack =>
      p.(out := p.out[w.pos := Wrap(w.s + w.sum)], workers := p.workers[t := NextAdder(w.(pos := w.pos + 1), bounds[t + 1])])
    case Added => p
  }

  /** Worker 0's region needs nothing added. */
  function Start3(bounds: seq<nat>, sums: seq<int>, out: seq<int>): (p: Phase3)
    requires Division(bounds, |out|) && |sums| == |bounds| - 1
    ensures Sized3(bounds, sums, p) && p.out == out
  {
    Phase3(out, seq(|sums|, t requires 0 <= t < |sums| => Adder(if t == 0 then Added else LoadSum, bounds[t], 0, 0)))
  }

  function Run3(bounds: seq<nat>, sums: seq<int>, out: seq<int>, schedule: seq<nat>): (p: Phase3)
    requires Division(bounds, |out|) && |sums| == |bounds| - 1 && Schedule(|sums|, schedule)
    ensures Sized3(bounds, sums, p) && |p.out| == |out|
  {
    if schedule == [] then Start3(bounds, sums, out)
    else
      var last := |schedule| - 1;
      assert Schedule(|sums|, schedule[..last]);
      Step3(bounds, sums, Run3(bounds, sums, out, schedule[..last]), schedule[last])
  }

  predicate AdderFits(lo: nat, hi: nat, before: seq<int>, out: seq<int>, addend: int, t: nat, w: Adder)
    requires lo <= hi <= |before| == |out|
  {
    if t == 0 then w.pc == Added && forall j :: lo <= j < hi ==> out[j] == before[j]
    else
      && lo <= w.pos <= hi
      && (w.pc == LoadSum ==> w.pos == lo)
      && (w.pc in {LoadOut, StoreBack} ==> w.pos < hi)
      && (w.pc != LoadSum ==> w.sum == addend)
      && (w.pc == StoreBack ==> w.s == before[w.pos])
      && (w.pc == Added ==> w.pos == hi)
      && (forall j :: lo <= j < w.pos ==> out[j] == Wrap(before[j] + addend))
      && (forall j :: w.pos <= j < hi ==> out[j] == before[j])
  }

  /** What worker t adds. */
  function Addend(sums: seq<int>, t: nat): int {
    if 0 < t <= |sums| then Wrap(sums[t - 1]) else 0
  }

  predicate WorkerFits3(bounds: seq<nat>, sums: seq<int>, before: seq<int>, p: Phase3, t: nat) {
    && t + 1 < |bounds| && t < |p.workers| && |before| == |p.out|
    && bounds[t] <= bounds[t + 1] <= |before|
    && AdderFits(bounds[t], bounds[t + 1], before, p.out, Addend(sums, t), t, p.workers[t])
  }

  predicate Fits3(bounds: seq<nat>, sums: seq<int>, before: seq<int>, p: Phase3) {
    && Sized3(bounds, sums, p) && |before| == |p.out|
    && forall t: nat :: t < |p.workers| ==> WorkerFits3(bounds, sums, before, p, t)
  }

  lemma Step3Fits(bounds: seq<nat>, sums: seq<int>, before: seq<int>, p: Phase3, t: nat)
    requires Fits3(bounds, sums, before, p) && t < |p.workers|
    ensures Fits3(bounds, sums, before, Step3(bounds, sums, p, t))
  {
    forall u: nat | u < |p.workers|
      ensures WorkerFits3(bounds, sums, before, Step3(bounds, sums, p, t), u)
    {
      assert WorkerFits3(bounds, sums, before, p, t) && WorkerFits3(bounds, sums, before, p, u);
      if u == t {
        OwnStep3(bounds, sums, before, p, t);
      } else {
        OtherStep3(bounds, sums, before, p, t, u);
      }
    }
  }

  lemma OwnStep3(bounds: seq<nat>, sums: seq<int>, before: seq<int>, p: Phase3, t: nat)
    requires Sized3(bounds, sums, p) && WorkerFits3(bounds, sums, before, p, t)
    ensures WorkerFits3(bounds, sums, before, Step3(bounds, sums, p, t), t)
  {
    hide Wrap, Division;
  }

  lemma OtherStep3(bounds: seq<nat>, sums: seq<int>, before: seq<int>, p: Phase3, t: nat, u: nat)
    requires Sized3(bounds, sums, p) && t != u
    requires WorkerFits3(bounds, sums, before, p, t) && WorkerFits3(bounds, sums, before, p, u)
    ensures WorkerFits3(bounds, sums, before, Step3(bounds, sums, p, t), u)
  {
    assert u < t ==> bounds[u + 1] <= bounds[t];
    assert u > t ==> bounds[t + 1] <= bounds[u];
    hide Wrap, Division;
  }

  lemma Start3Fits(bounds: seq<nat>, sums: seq<int>, out: seq<int>)
    requires Division(bounds, |out|) && |sums| == |bounds| - 1
    ensures Fits3(bounds, sums, out, Start3(bounds, sums, out))
  {
    hide Division, WorkerFits3;
    forall t: nat | t < |bounds| - 1
      ensures WorkerFits3(bounds, sums, out, Start3(bounds, sums, out), t)
    {
      StartWorker3(bounds, sums, out, t);
    }
  }

  lemma StartWorker3(bounds: seq<nat>, sums: seq<int>, out: seq<int>, t: nat)
    requires Division(bounds, |out|) && |sums| == |bounds| - 1 && t + 1 < |bounds|
    ensures WorkerFits3(bounds, sums, out, Start3(bounds, sums, out), t)
  {
    assert bounds[t] <= bounds[t + 1] <= bounds[|bounds| - 1];
    hide Division, Wrap;
  }

  lemma {:induction false} Run3Fits(bounds: seq<nat>, sums: seq<int>, out: seq<int>, schedule: seq<nat>)
    requires Division(bounds, |out|) && |sums| == |bounds| - 1 && Schedule(|sums|, schedule)
    ensures Fits3(bounds, sums, out, Run3(bounds, sums, out, schedule))
  {
    hide Fits3, Step3, Start3;
    if schedule == [] {
      Start3Fits(bounds, sums, out);
    } else {
      var last := |schedule| - 1;
      Run3Fits(bounds, sums, out, schedule[..last]);
      Step3Fits(bounds, sums, out, Run3(bounds, sums, out, schedule[..last]), schedule[last]);
    }
  }

  // ----- All phases -----

  predicate Done1(p: Phase1) {
    forall t :: 0 <= t < |p.workers| ==> p.workers[t].pc == Summed
  }

  predicate Done3(p: Phase3) {
    forall t :: 0 <= t < |p.workers| ==> p.workers[t].pc == Added
  }

  /**
   Whatever the input, the number of workers, the division and the two interleavings: when the last
   phase is done, out[j] is the 32-bit value of the sum of input[0..j], and that sum itself when it fits.
   */
  lemma PrefixSumIsExact(input: seq<int>, bounds: seq<nat>, schedule1: seq<nat>, schedule3: seq<nat>, j: nat)
    requires Division(bounds, |input|) && Schedule(|bounds| - 1, schedule1) && Schedule(|bounds| - 1, schedule3)
    requires var p1 := Run1(input, bounds, schedule1);
             && Done1(p1)
             && Done3(Run3(bounds, PrefixSums(p1.sums), p1.out, schedule3))
    requires j < |input|
    ensures var p1 := Run1(input, bounds, schedule1);
            var out := Run3(bounds, PrefixSums(p1.sums), p1.out, schedule3).out;
            var sum := Sum(input, 0, j + 1);
            && out[j] == Wrap(sum)
            && (-TWO31 <= sum < TWO31 ==> out[j] == sum)
  {
    var p1 := Run1(input, bounds, schedule1);
    var sums := PrefixSums(p1.sums);
    var p3 := Run3(bounds, sums, p1.out, schedule3);
    Run1Fits(input, bounds, schedule1);
    Run3Fits(bounds, sums, p1.out, schedule3);
    var t := RegionOf(bounds, |input|, j, |bounds| - 1);
    Region1Done(input, bounds, p1, t, j);
    Region3Done(bounds, sums, p1.out, p3, t, j);
    hide Run1, Run3, Fits1, Fits3, Sized1, Sized3, Done1, Done3, Schedule;
    if t > 0 {
      Phase1Sums(input, bounds, p1);
      AddendCompletes(input, bounds, p1.sums, t, j);
    }
  }

  /** The prefix sum inside the region plus the sum of the regions before it. */
  lemma AddendCompletes(input: seq<int>, bounds: seq<nat>, sums: seq<int>, t: nat, j: nat)
    requires Division(bounds, |input|) && |sums| == |bounds| - 1 && 0 < t <= |sums| && bounds[t] <= j < |input|
    requires forall u: nat :: u < |sums| ==> IsRegionSum(input, bounds, sums, u)
    ensures Wrap(Wrap(Sum(input, bounds[t], j + 1)) + Wrap(PrefixSums(sums)[t - 1])) == Wrap(Sum(input, 0, j + 1))
  {
    RegionSumsAddUp(input, bounds, sums, t);
    SumSplits(input, 0, bounds[t], j + 1);
    WrapAdds(Sum(input, bounds[t], j + 1), PrefixSums(sums)[t - 1]);
    hide Wrap;
  }

  lemma Region1Done(input: seq<int>, bounds: seq<nat>, p: Phase1, t: nat, j: nat)
    requires Fits1(input, bounds, p) && Done1(p) && t + 1 < |bounds| && bounds[t] <= j < bounds[t + 1]
    ensures j < |input| && p.out[j] == Wrap(Sum(input, bounds[t], j + 1))
  {
    assert WorkerFits1(input, bounds, p, t);
  }

  lemma Phase1Sums(input: seq<int>, bounds: seq<nat>, p: Phase1)
    requires Fits1(input, bounds, p) && Done1(p)
    ensures forall u: nat :: u < |p.sums| ==> IsRegionSum(input, bounds, p.sums, u)
  {
    forall u: nat | u < |p.sums|
      ensures IsRegionSum(input, bounds, p.sums, u)
    {
      assert WorkerFits1(input, bounds, p, u);
    }
  }

  lemma Region3Done(bounds: seq<nat>, sums: seq<int>, before: seq<int>, p: Phase3, t: nat, j: nat)
    requires Fits3(bounds, sums, before, p) && Done3(p) && t + 1 < |bounds| == |sums| + 1 && bounds[t] <= j < bounds[t + 1]
    ensures j < |before| && p.out[j] == if t == 0 then before[j] else Wrap(before[j] + Wrap(sums[t - 1]))
  {
    assert WorkerFits3(bounds, sums, before, p, t);
  }

  // ----- The assert at the end -----

  /** The benchmark's input: element i is i. */
  function Iota(n: nat): (r: seq<int>)
    ensures |r| == n && forall i :: 0 <= i < n ==> r[i] == i
  {
    seq(n, i => i)
  }

  lemma {:induction false} GaussSum(n: nat, k: nat)
    requires k <= n
    ensures Sum(Iota(n), 0, k) == k * (k - 1) / 2
  {
    if k > 0 {
      GaussSum(n, k - 1);
      assert k * (k - 1) == (k - 1) * (k - 2) + 2 * (k - 1);
    }
  }

  /** The last element is what main asserts, as long as that product fits in an int. */
  lemma AssertHolds(n: nat, bounds: seq<nat>, schedule1: seq<nat>, schedule3: seq<nat>)
    requires n > 0 && n * (n - 1) < TWO31
    requires Division(bounds, n) && Schedule(|bounds| - 1, schedule1) && Schedule(|bounds| - 1, schedule3)
    requires var p1 := Run1(Iota(n), bounds, schedule1);
             && Done1(p1)
             && Done3(Run3(bounds, PrefixSums(p1.sums), p1.out, schedule3))
    ensures var p1 := Run1(Iota(n), bounds, schedule1);
            Run3(bounds, PrefixSums(p1.sums), p1.out, schedule3).out[n - 1] == n * (n - 1) / 2
  {
    PrefixSumIsExact(Iota(n), bounds, schedule1, schedule3, n - 1);
    GaussSum(n, n);
    hide Run1, Run3;
    assert 0 <= n * (n - 1);
  }
}
