/** Counting flags, as the test programs count failed calls and used slots, members of sets, and sums. */
module Counting {

  function Count(flags: seq<bool>): (n: nat)
    ensures n <= |flags|
  {
    if flags == [] then 0
    else Count(flags[..|flags| - 1]) + (if flags[|flags| - 1] then 1 else 0)
  }

  /** Setting one flag. */
  lemma {:induction false} CountUpdate(flags: seq<bool>, i: nat, flag: bool)
    requires i < |flags|
    ensures Count(flags[i := flag]) + (if flags[i] then 1 else 0) == Count(flags) + (if flag then 1 else 0)
  {
    var last := |flags| - 1;
    if i < last {
      CountUpdate(flags[..last], i, flag);
      assert flags[i := flag][..last] == flags[..last][i := flag];
    } else {
      assert flags[i := flag][..last] == flags[..last];
    }
  }

  lemma {:induction false} CountNone(flags: seq<bool>)
    requires forall i :: 0 <= i < |flags| ==> !flags[i]
    ensures Count(flags) == 0
  {
    if flags != [] {
      CountNone(flags[..|flags| - 1]);
    }
  }

  /** Counting a set of flags and the rest. */
  lemma {:induction false} CountComplement(flags: seq<bool>, others: seq<bool>)
    requires |flags| == |others| && forall i :: 0 <= i < |flags| ==> flags[i] != others[i]
    ensures Count(flags) + Count(others) == |flags|
  {
    if flags != [] {
      CountComplement(flags[..|flags| - 1], others[..|flags| - 1]);
    }
  }

  lemma {:induction false} CountConcat(flags: seq<bool>, more: seq<bool>)
    ensures Count(flags + more) == Count(flags) + Count(more)
  {
    if more == [] {
      assert flags + more == flags;
    } else {
      var last := |more| - 1;
      CountConcat(flags, more[..last]);
      assert (flags + more)[..|flags| + last] == flags + more[..last];
    }
  }

  lemma SubsetSize<T>(a: set<T>, b: set<T>)
    requires a <= b
    ensures |a| <= |b|
  {
    if a != {} {
      var x :| x in a;
      SubsetSize(a - {x}, b - {x});
    }
  }

  function Sum(ks: seq<nat>): nat {
    if ks == [] then 0 else Sum(ks[..|ks| - 1]) + ks[|ks| - 1]
  }

  lemma {:induction false} SumUpdate(ks: seq<nat>, i: nat, k: nat)
    requires i < |ks|
    ensures Sum(ks[i := k]) + ks[i] == Sum(ks) + k
  {
    var last := |ks| - 1;
    if i < last {
      SumUpdate(ks[..last], i, k);
      assert ks[i := k][..last] == ks[..last][i := k];
    } else {
      assert ks[i := k][..last] == ks[..last];
    }
  }

  lemma {:induction false} SumBound(ks: seq<nat>, b: nat)
    requires forall i :: 0 <= i < |ks| ==> ks[i] <= b
    ensures Sum(ks) <= b * |ks|
  {
    if ks != [] {
      SumBound(ks[..|ks| - 1], b);
    }
  }
}
