/**
 The sorted list of the sortedlinkedlist benchmark is lock-free: as long as no call adds its node, every call
 takes boundedly many steps. So every run of the calls ends, however they are scheduled.
 */
module SortedListProgress {
  import opened Schedules
  import opened Counting
  import opened SortedList

  predicate Finished(c: Call) { c.pc in {Added, NoMemory} }

  // ----- Positions in the list -----

  /** How many elements of the list come behind node m. */
  function BehindNode(chain: seq<nat>, m: nat): (n: nat)
    ensures n <= |chain| && (m in chain ==> n < |chain|)
  {
    if chain == [] then 0
    else if chain[0] == m then |chain| - 1
    else BehindNode(chain[1..], m)
  }

  /** How many come behind what target points from. */
  function Behind(chain: seq<nat>, target: Target): (n: nat)
    ensures n <= |chain|
  {
    match target
    case Root => |chain|
    case NextOf(m) => BehindNode(chain, m)
  }

  /** Going on along `next` leaves one element less. */
  lemma {:induction false} NextIsBehind(s: Shared, n: nat, chain: seq<nat>, m: nat)
    requires ListFrom(s, n, chain) && Distinct(chain) && m in chain && NodeAt(s, m).next != 0
    ensures BehindNode(chain, NodeAt(s, m).next) + 1 == BehindNode(chain, m)
    decreases chain
  {
    var rest := chain[1..];
    if n == m {
      assert rest != [] && rest[0] == NodeAt(s, m).next;
    } else {
      NextIsBehind(s, NodeAt(s, n).next, rest, m);
      NextInList(s, NodeAt(s, n).next, rest, m);
    }
  }

  lemma ReadIsBehind(s: Shared, chain: seq<nat>, target: Target)
    requires ListFrom(s, s.root, chain) && Distinct(chain) && (target.NextOf? ==> target.node in chain) && Read(s, target) != 0
    ensures BehindNode(chain, Read(s, target)) + 1 == Behind(chain, target)
  {
    if target.NextOf? {
      NextIsBehind(s, s.root, chain, target.node);
    }
  }

  // ----- Steps left -----

  /** How many steps at most the call takes up to its end or its successful cmpxchg, if nobody else adds a node. */
  function Rank(s: Shared, chain: seq<nat>, c: Call): (r: nat)
    ensures r <= 2 * |chain| + 6 && (r == 0 <==> Finished(c))
  {
    var current, behind := Read(s, c.target) == c.t, Behind(chain, c.target);
    match c.pc
    case Malloc => 2 * |chain| + 6
    case SetData => 2 * |chain| + 5
    case LoadRoot => 2 * |chain| + 4
    case Compare =>
      if current then 2 * behind + 2
      else 2 * (if behind < BehindNode(chain, c.t) then BehindNode(chain, c.t) else behind) + 5
    case LoadNext => 2 * behind + 3
    case SetNext => if current then 2 else 2 * behind + 4
    case Cas => if current then 1 else 2 * behind + 3
    case Added => 0
    case NoMemory => 0
  }

  function Ranks(s: Shared, chain: seq<nat>, calls: seq<Call>): (ranks: seq<nat>)
    ensures |ranks| == |calls| && forall i :: 0 <= i < |ranks| ==> ranks[i] == Rank(s, chain, calls[i])
  {
    seq(|calls|, i requires 0 <= i < |calls| => Rank(s, chain, calls[i]))
  }

  lemma CompareRank(s: Shared, chain: seq<nat>, c: Call)
    requires ChainFits(s, chain) && CallFits(s, chain, c) && c.pc == Compare
    ensures Rank(s, chain, StepCall(s, c).1) < Rank(s, chain, c)
  {
    if Read(s, c.target) == c.t {
      ReadIsBehind(s, chain, c.target);
    }
    hide ListFrom, Sorted, Distinct, BehindNode, NodeAt;
  }

  lemma PrivateRank(s: Shared, chain: seq<nat>, c: Call)
    requires ChainFits(s, chain) && CallFits(s, chain, c) && c.pc in {SetData, SetNext}
    ensures var (s', c') := StepCall(s, c); Rank(s', chain, c') < Rank(s, chain, c)
  {
    hide ListFrom, Sorted, Distinct, BehindNode;
  }

  lemma OtherRanks(s: Shared, chain: seq<nat>, c: Call)
    requires CallFits(s, chain, c) && c.pc in {Malloc, LoadRoot, LoadNext, Cas} && !Inserts(s, c)
    ensures var (s', c') := StepCall(s, c); s' == s && Rank(s', chain, c') < Rank(s, chain, c)
  {
    hide BehindNode, NodeAt;
  }

  lemma StepRank(s: Shared, chain: seq<nat>, c: Call)
    requires ChainFits(s, chain) && CallFits(s, chain, c) && !Finished(c) && !Inserts(s, c)
    ensures var (s', c') := StepCall(s, c); Rank(s', chain, c') < Rank(s, chain, c)
  {
    hide ChainFits, CallFits, Inserts, Rank, Finished;
    if c.pc == Compare {
      CompareRank(s, chain, c);
    } else if c.pc in {SetData, SetNext} {
      PrivateRank(s, chain, c);
    } else {
      assert c.pc in {Malloc, LoadRoot, LoadNext, Cas} by { NotFinished(c); }
      OtherRanks(s, chain, c);
    }
  }

  lemma NotFinished(c: Call)
    requires !Finished(c)
    ensures c.pc !in {Added, NoMemory}
  {
  }

  /** Nobody else's rank changes. */
  lemma OtherCallsRank(s: Shared, chain: seq<nat>, c: Call, other: Call)
    requires CallFits(s, chain, c) && CallFits(s, chain, other) && !Inserts(s, c)
    ensures Rank(StepCall(s, c).0, chain, other) == Rank(s, chain, other)
  {
    OnlyOwnNode(s, c);
    assert c.pc in {SetData, SetNext} ==> c.node !in chain;
    hide StepCall, Inserts, BehindNode;
  }

  lemma OnlyOwnNode(s: Shared, c: Call)
    requires !Inserts(s, c)
    ensures var s' := StepCall(s, c).0;
            && s'.root == s.root && (forall n: nat :: n != c.node ==> NodeAt(s', n) == NodeAt(s, n))
            && (c.pc !in {SetData, SetNext} ==> s' == s)
  {
  }

  /** A step that adds no node uses up one of the steps left, and leaves all others. */
  lemma StepUsesRank(sys: System, chain: seq<nat>, i: nat)
    requires i < |sys.calls| && Fits(sys, chain) && !Finished(sys.calls[i]) && !Inserts(sys.shared, sys.calls[i])
    ensures var sys' := Step(sys, i);
            Sum(Ranks(sys'.shared, chain, sys'.calls)) < Sum(Ranks(sys.shared, chain, sys.calls))
  {
    var sys' := Step(sys, i);
    hide ChainFits, CallFits, Rank, Finished, Inserts, StepCall;
    StepRank(sys.shared, chain, sys.calls[i]);
    forall j | 0 <= j < |sys.calls| && j != i
      ensures Rank(sys'.shared, chain, sys'.calls[j]) == Rank(sys.shared, chain, sys.calls[j])
    {
      OtherCallsRank(sys.shared, chain, sys.calls[i], sys.calls[j]);
    }
    var ranks, ranks' := Ranks(sys.shared, chain, sys.calls), Ranks(sys'.shared, chain, sys'.calls);
    assert ranks' == ranks[i := ranks'[i]];
    SumUpdate(ranks, i, ranks'[i]);
  }

  // ----- Lock-freedom -----

  /** All steps are those of calls that have not finished. */
  predicate Busy(sys: System, schedule: seq<nat>)
    requires Schedule(|sys.calls|, schedule)
  {
    schedule == []
    || (var last := |schedule| - 1;
        assert Schedule(|sys.calls|, schedule[..last]);
        Busy(sys, schedule[..last]) && !Finished(Run(sys, schedule[..last]).calls[schedule[last]]))
  }

  /** No step adds a node. */
  predicate NoneAdds(sys: System, schedule: seq<nat>)
    requires Schedule(|sys.calls|, schedule)
  {
    schedule == []
    || (var last := |schedule| - 1;
        assert Schedule(|sys.calls|, schedule[..last]);
        var sys1 := Run(sys, schedule[..last]);
        NoneAdds(sys, schedule[..last]) && !Inserts(sys1.shared, sys1.calls[schedule[last]]))
  }

  /** How many steps n calls take at most up to the next node added. */
  function Round(n: nat): nat { (2 * n + 6) * n }

  lemma ChainIsShort(sys: System, chain: seq<nat>)
    requires Fits(sys, chain)
    ensures |chain| <= |sys.calls|
  {
  }

  lemma RanksAreBounded(sys: System, chain: seq<nat>)
    requires Fits(sys, chain)
    ensures Sum(Ranks(sys.shared, chain, sys.calls)) <= Round(|sys.calls|)
  {
    ChainIsShort(sys, chain);
    hide Fits, Rank;
    SumBound(Ranks(sys.shared, chain, sys.calls), 2 * |sys.calls| + 6);
  }

  /**
   Whatever state a run has come to, the calls together take at most 2 * n + 6 steps each before one of them adds
   its node, where n is the number of calls.
   */
  lemma SomeCallAdds(sys: System, before: seq<nat>, schedule: seq<nat>)
    requires Initial(sys) && Schedule(|sys.calls|, before) && Schedule(|sys.calls|, schedule)
    requires Busy(Run(sys, before), schedule) && NoneAdds(Run(sys, before), schedule)
    ensures |schedule| <= (2 * |sys.calls| + 6) * |sys.calls|
  {
    hide Fits, Initial, Run, Ranks;
    var chain := RunFits(sys, before);
    StepsWithoutAdding(Run(sys, before), chain, schedule);
    RanksAreBounded(Run(sys, before), chain);
  }

  lemma {:induction false} StepsWithoutAdding(sys: System, chain: seq<nat>, schedule: seq<nat>)
    requires Fits(sys, chain) && Schedule(|sys.calls|, schedule) && Busy(sys, schedule) && NoneAdds(sys, schedule)
    ensures var sys' := Run(sys, schedule);
            && Fits(sys', chain)
            && |schedule| + Sum(Ranks(sys'.shared, chain, sys'.calls)) <= Sum(Ranks(sys.shared, chain, sys.calls))
  {
    hide Fits, Step, Inserts, Finished, Ranks;
    if schedule != [] {
      var last := |schedule| - 1;
      StepsWithoutAdding(sys, chain, schedule[..last]);
      StepFits(Run(sys, schedule[..last]), chain, schedule[last]);
      StepUsesRank(Run(sys, schedule[..last]), chain, schedule[last]);
    }
  }

  // ----- Every run ends -----

  /** Steps left: those before the next node is added, and as many again for every node. */
  function StepsLeft(sys: System, chain: seq<nat>): int {
    Left(Sum(Ranks(sys.shared, chain, sys.calls)), |sys.calls|, |chain|)
  }

  function Left(ranks: nat, n: nat, added: nat): int { ranks + Round(n) * (n - added) }

  lemma LeftShrinks(ranks: nat, ranks': nat, n: nat, added: nat)
    ensures ranks' < ranks ==> Left(ranks', n, added) < Left(ranks, n, added)
    ensures ranks' <= Round(n) && ranks > 0 ==> Left(ranks', n, added + 1) < Left(ranks, n, added)
  {
    hide Round;
    OneLess(Round(n), n - added);
  }

  lemma StepReduces(sys: System, chain: seq<nat>, i: nat)
    requires i < |sys.calls| && Fits(sys, chain) && !Finished(sys.calls[i])
    ensures StepsLeft(Step(sys, i), NextChain(sys.shared, chain, sys.calls[i])) < StepsLeft(sys, chain)
  {
    var sys', chain' := Step(sys, i), NextChain(sys.shared, chain, sys.calls[i]);
    assert |sys'.calls| == |sys.calls|;
    hide Fits, Finished, Inserts, NextChain, Step, Left, Ranks, Sum, Round;
    StepFits(sys, chain, i);
    LengthGrows(sys.shared, chain, sys.calls[i]);
    LeftShrinks(Sum(Ranks(sys.shared, chain, sys.calls)), Sum(Ranks(sys'.shared, chain', sys'.calls)), |sys.calls|, |chain|);
    if Inserts(sys.shared, sys.calls[i]) {
      RanksAreBounded(sys', chain');
      SumIsPositive(sys, chain, i);
    } else {
      StepUsesRank(sys, chain, i);
    }
  }

  lemma LengthGrows(s: Shared, chain: seq<nat>, c: Call)
    ensures |NextChain(s, chain, c)| == |chain| + (if Inserts(s, c) then 1 else 0)
    ensures !Inserts(s, c) ==> NextChain(s, chain, c) == chain
  {
    InsertedMembers(chain, c.target, c.node);
  }

  lemma SumIsPositive(sys: System, chain: seq<nat>, i: nat)
    requires i < |sys.calls| && !Finished(sys.calls[i])
    ensures Sum(Ranks(sys.shared, chain, sys.calls)) > 0
  {
    SumUpdate(Ranks(sys.shared, chain, sys.calls), i, 0);
  }

  lemma OneLess(a: nat, x: int)
    ensures a * (x - 1) == a * x - a
  {
  }

  lemma AtLeast(a: nat, x: nat)
    ensures a * x >= 0
  {
  }

  /**
   Every run of the calls ends, whatever the schedule: with n calls, at most (2 * n + 6) * n * (n + 1) steps are
   those of calls that have not finished.
   */
  lemma RunsEnd(sys: System, schedule: seq<nat>)
    requires Initial(sys) && Schedule(|sys.calls|, schedule) && Busy(sys, schedule)
    ensures var n := |sys.calls|; |schedule| <= (2 * n + 6) * n * (n + 1)
  {
    var n := |sys.calls|;
    hide *;
    InitialFits(sys);
    var chain := StepsAreLeft(sys, schedule);
    StepsAreBounded(sys);
    SomeStepsLeft(Run(sys, schedule), chain);
  }

  lemma StepsAreBounded(sys: System)
    requires Fits(sys, [])
    ensures var n := |sys.calls|; StepsLeft(sys, []) <= (2 * n + 6) * n * (n + 1)
  {
    var n := |sys.calls|;
    RanksAreBounded(sys, []);
    hide Ranks, Sum, Fits;
    OneLess(Round(n), n + 1);
  }

  lemma SomeStepsLeft(sys: System, chain: seq<nat>)
    requires Fits(sys, chain)
    ensures StepsLeft(sys, chain) >= 0
  {
    ChainIsShort(sys, chain);
    hide Ranks, Sum, Fits, Round;
    AtLeast(Round(|sys.calls|), |sys.calls| - |chain|);
  }

  lemma {:induction false} StepsAreLeft(sys: System, schedule: seq<nat>) returns (chain: seq<nat>)
    requires Initial(sys) && Schedule(|sys.calls|, schedule) && Busy(sys, schedule)
    ensures Fits(Run(sys, schedule), chain) && |schedule| + StepsLeft(Run(sys, schedule), chain) <= StepsLeft(sys, [])
  {
    hide Fits, Step, NextChain, Initial, Finished, StepsLeft;
    if schedule == [] {
      InitialFits(sys);
      chain := [];
    } else {
      var last := |schedule| - 1;
      var chain0 := StepsAreLeft(sys, schedule[..last]);
      var sys0 := Run(sys, schedule[..last]);
      StepFits(sys0, chain0, schedule[last]);
      StepReduces(sys0, chain0, schedule[last]);
      chain := NextChain(sys0.shared, chain0, sys0.calls[schedule[last]]);
    }
  }
}
