/**
 The queue of the msq benchmark is lock-free: as long as no call links a node or moves Head or Tail, every
 call takes boundedly many steps. As each of these happens boundedly often, every run of the calls ends,
 however they are scheduled.
 */
module MsQueueProgress {
  import opened Schedules
  import opened Counting
  import opened MsQueue

  predicate Finished(t: Thread) {
    if t.Enqueuer? then t.epc in {Enqueued, EnqueueFailed} else t.dpc in {Dequeued, FoundEmpty, DequeueFailed}
  }

  /** The next step of the call is a successful compare-and-swap on Head, Tail or the last node's next. */
  predicate Changes(s: Shared, t: Thread) {
    Links(s, t) || SwingsTail(s, t) || MovesHead(s, t)
  }

  const MAX_RANK: nat := 9

  /** How many steps at most the call takes up to its end or its next change, if nobody else changes anything. */
  function Rank(s: Shared, t: Thread): (r: nat)
    ensures r <= MAX_RANK && (r == 0 <==> Finished(t))
  {
    if t.Enqueuer? then
      var node := NodeAt(s, t.tail.ptr);
      match t.epc
      case SetData => 8
      case AssertData => 7
      case SetNext => 6
      case AssertNext => 5
      case LoadTail => 4
      case LoadNext => if t.tail == s.tail then 3 else 6
      case ReloadTail => if t.tail != s.tail then 5 else if t.next.ptr <= 0 && node.next != t.next then 6 else 2
      case Link => if node.next == t.next then 1 else 5
      case HelpTail => if t.tail == s.tail then 1 else 5
      case MoveTail => 1
      case _ => 0
    else
      match t.dpc
      case NotCalled => 7
      case LoadHead => 6
      case LoadTailD => if t.head == s.head then 5 else 9
      case LoadNextD => if t.head != s.head then 8 else if t.tail == s.tail then 4 else 9
      case ReloadHead => if t.head != s.head then 7 else if t.tail == s.tail then 3 else 8
      case HelpTailD => if t.tail == s.tail then 1 else 7
      case LoadData => if t.head == s.head then 2 else 8
      case MoveHead => if t.head == s.head then 1 else 7
      case FreeNode => 1
      case _ => 0
  }

  function Ranks(s: Shared, threads: seq<Thread>): (ranks: seq<nat>)
    ensures |ranks| == |threads| && forall i :: 0 <= i < |ranks| ==> ranks[i] == Rank(s, threads[i])
  {
    seq(|threads|, i requires 0 <= i < |threads| => Rank(s, threads[i]))
  }

  // ----- Steps that change nothing -----

  lemma EnqueuerRank(s: Shared, e: Thread)
    requires e.Enqueuer? && !Finished(e) && !Changes(s, e)
    ensures var (s', e') := StepEnqueuer(s, e); Rank(s', e') < Rank(s, e)
  {
  }

  lemma DequeuerRank(s: Shared, d: Thread)
    requires d.Dequeuer? && !Finished(d) && !Changes(s, d)
    ensures var (s', d') := StepDequeuer(s, d); Rank(s', d') < Rank(s, d)
  {
  }

  lemma EnqueuerKeepsShared(s: Shared, e: Thread)
    requires e.Enqueuer? && !Changes(s, e)
    ensures var s' := StepEnqueuer(s, e).0;
            && s'.head == s.head && s'.tail == s.tail
            && (forall n :: n != e.nid ==> NodeAt(s', n) == NodeAt(s, n)) && (e.epc !in {SetData, SetNext} ==> s' == s)
  {
  }

  lemma OwnNodeOutside(h: History, i: nat)
    requires Fits(h) && i < |h.sys.threads|
    ensures var t := h.sys.threads[i]; t.Enqueuer? && t.epc in {SetData, SetNext} ==> t.nid !in h.chain
  {
    assert ThreadFits(h, i);
    hide ChainFits, DequeuerFits;
  }

  /** What such a step leaves alone. */
  lemma UnchangedShared(h: History, i: nat)
    requires Fits(h) && i < |h.sys.threads| && !Changes(h.sys.shared, h.sys.threads[i])
    ensures var s, h' := h.sys.shared, StepHistory(h, i);
            && h'.sys.shared.head == s.head && h'.sys.shared.tail == s.tail
            && h'.chain == h.chain && h'.headAt == h.headAt && h'.tailAt == h.tailAt
            && forall n :: n in h.chain ==> NodeAt(h'.sys.shared, n).next == NodeAt(s, n).next
  {
    var s, t := h.sys.shared, h.sys.threads[i];
    OwnNodeOutside(h, i);
    hide Fits, StepEnqueuer, StepDequeuer, Links, SwingsTail, MovesHead;
    if t.Enqueuer? {
      EnqueuerKeepsShared(s, t);
    } else {
      DequeuerKeepsShared(s, t);
    }
  }

  lemma RankStays(s: Shared, s': Shared, t: Thread)
    requires s'.head == s.head && s'.tail == s.tail
    requires t.Enqueuer? && t.epc in {ReloadTail, Link} ==> NodeAt(s', t.tail.ptr).next == NodeAt(s, t.tail.ptr).next
    ensures Rank(s', t) == Rank(s, t)
  {
    hide NodeAt, Finished;
  }

  lemma TailInChain(h: History, j: nat)
    requires Fits(h) && j < |h.sys.threads|
    ensures var t := h.sys.threads[j]; t.Enqueuer? && t.epc in {ReloadTail, Link} ==> t.tail.ptr in h.chain
  {
    assert ThreadFits(h, j);
    hide ChainFits, DequeuerFits;
  }

  lemma OtherRank(h: History, i: nat, j: nat)
    requires Fits(h) && i < |h.sys.threads| && j < |h.sys.threads| && j != i && !Changes(h.sys.shared, h.sys.threads[i])
    ensures Rank(StepHistory(h, i).sys.shared, h.sys.threads[j]) == Rank(h.sys.shared, h.sys.threads[j])
  {
    hide *;
    UnchangedShared(h, i);
    TailInChain(h, j);
    RankStays(h.sys.shared, StepHistory(h, i).sys.shared, h.sys.threads[j]);
  }

  /** A step without a change uses up one of the steps left, and leaves all others. */
  lemma StepUsesRank(h: History, i: nat)
    requires Fits(h) && i < |h.sys.threads| && !Finished(h.sys.threads[i]) && !Changes(h.sys.shared, h.sys.threads[i])
    ensures var h' := StepHistory(h, i);
            Sum(Ranks(h'.sys.shared, h'.sys.threads)) < Sum(Ranks(h.sys.shared, h.sys.threads))
  {
    var h', t := StepHistory(h, i), h.sys.threads[i];
    hide Fits, Rank, Changes, Finished, StepEnqueuer, StepDequeuer;
    if t.Enqueuer? {
      EnqueuerRank(h.sys.shared, t);
    } else {
      DequeuerRank(h.sys.shared, t);
    }
    forall j: nat | j < |h.sys.threads| && j != i
      ensures Rank(h'.sys.shared, h'.sys.threads[j]) == Rank(h.sys.shared, h.sys.threads[j])
    {
      OtherRank(h, i, j);
    }
    var ranks, ranks' := Ranks(h.sys.shared, h.sys.threads), Ranks(h'.sys.shared, h'.sys.threads);
    assert ranks' == ranks[i := ranks'[i]];
    SumUpdate(ranks, i, ranks'[i]);
  }

  /** All steps are those of calls that have not finished. */
  predicate Busy(h: History, schedule: seq<nat>)
    requires Schedule(|h.sys.threads|, schedule)
  {
    schedule == []
    || (var last := |schedule| - 1;
        assert Schedule(|h.sys.threads|, schedule[..last]);
        Busy(h, schedule[..last]) && !Finished(Run(h, schedule[..last]).sys.threads[schedule[last]]))
  }

  /** No step is a change. */
  predicate NoneChanges(h: History, schedule: seq<nat>)
    requires Schedule(|h.sys.threads|, schedule)
  {
    schedule == []
    || (var last := |schedule| - 1;
        assert Schedule(|h.sys.threads|, schedule[..last]);
        var h1 := Run(h, schedule[..last]);
        NoneChanges(h, schedule[..last]) && !Changes(h1.sys.shared, h1.sys.threads[schedule[last]]))
  }

  /**
   Lock-freedom: whatever state a run has come to, the calls together take at most nine steps each before one
   of them changes Head, Tail or the chain.
   */
  lemma SomeCallProgresses(h: History, before: seq<nat>, schedule: seq<nat>)
    requires Initial(h) && Schedule(|h.sys.threads|, before) && Schedule(|h.sys.threads|, schedule)
    requires Busy(Run(h, before), schedule) && NoneChanges(Run(h, before), schedule)
    ensures |schedule| <= MAX_RANK * |h.sys.threads|
  {
    RunFits(h, before);
    var h1 := Run(h, before);
    StepsWithoutChange(h1, schedule);
    SumBound(Ranks(h1.sys.shared, h1.sys.threads), MAX_RANK);
  }

  lemma {:induction false} StepsWithoutChange(h: History, schedule: seq<nat>)
    requires Fits(h) && Schedule(|h.sys.threads|, schedule) && Busy(h, schedule) && NoneChanges(h, schedule)
    ensures var h' := Run(h, schedule);
            Fits(h') && |schedule| + Sum(Ranks(h'.sys.shared, h'.sys.threads)) <= Sum(Ranks(h.sys.shared, h.sys.threads))
  {
    hide Fits, StepHistory, Changes, Finished;
    if schedule != [] {
      var last := |schedule| - 1;
      StepsWithoutChange(h, schedule[..last]);
      StepKeepsFits(Run(h, schedule[..last]), schedule[last]);
      StepUsesRank(Run(h, schedule[..last]), schedule[last]);
    }
  }

  // ----- Changes -----

  predicate ToLink(t: Thread) { t.Enqueuer? && !HasLinked(t) }

  function ToLinkFlags(threads: seq<Thread>): (flags: seq<bool>)
    ensures |flags| == |threads| && forall i :: 0 <= i < |flags| ==> flags[i] == ToLink(threads[i])
  {
    seq(|threads|, i requires 0 <= i < |threads| => ToLink(threads[i]))
  }

  /** How many changes are left: every node is linked once, and Head and Tail pass it once each. */
  function ChangesLeft(h: History): int {
    3 * Count(ToLinkFlags(h.sys.threads)) + (|h.chain| - 1 - h.tailAt) + (|h.chain| - 1 - h.headAt)
  }

  lemma ChangesAreLeft(h: History)
    requires Fits(h)
    ensures ChangesLeft(h) >= 0
  {
  }

  lemma ToLinkStep(h: History, i: nat)
    requires Fits(h) && i < |h.sys.threads|
    ensures var s, t, h' := h.sys.shared, h.sys.threads[i], StepHistory(h, i);
            Count(ToLinkFlags(h'.sys.threads)) + (if Links(s, t) then 1 else 0) == Count(ToLinkFlags(h.sys.threads))
  {
    var h' := StepHistory(h, i);
    LinkingStep(h.sys.shared, h.sys.threads[i]);
    hide Fits, Links, ToLink, StepThread;
    var flags, flags' := ToLinkFlags(h.sys.threads), ToLinkFlags(h'.sys.threads);
    assert flags' == flags[i := flags'[i]];
    CountUpdate(flags, i, flags'[i]);
  }

  lemma LinkingStep(s: Shared, t: Thread)
    ensures ToLink(StepThread(s, t).1) <==> ToLink(t) && !Links(s, t)
    ensures Links(s, t) ==> ToLink(t)
  {
  }

  lemma StepUsesChange(h: History, i: nat)
    requires Fits(h) && i < |h.sys.threads|
    ensures var s, t := h.sys.shared, h.sys.threads[i];
            ChangesLeft(StepHistory(h, i)) <= ChangesLeft(h) - (if Changes(s, t) then 1 else 0)
  {
    ToLinkStep(h, i);
    EffectsExclude(h.sys.shared, h.sys.threads[i]);
    hide Fits, ToLinkFlags, Count, Links, SwingsTail, MovesHead, StepThread;
  }

  /** Steps left: those before the next change, and as many again for every change. */
  function StepsLeft(h: History): int {
    Sum(Ranks(h.sys.shared, h.sys.threads)) + MAX_RANK * |h.sys.threads| * ChangesLeft(h)
  }

  lemma StepReduces(h: History, i: nat)
    requires Fits(h) && i < |h.sys.threads| && !Finished(h.sys.threads[i])
    ensures StepsLeft(StepHistory(h, i)) < StepsLeft(h)
  {
    var h', n := StepHistory(h, i), |h.sys.threads|;
    StepUsesChange(h, i);
    StepKeepsFits(h, i);
    hide Fits, ChangesLeft, Finished, Changes, StepHistory;
    if Changes(h.sys.shared, h.sys.threads[i]) {
      SumBound(Ranks(h'.sys.shared, h'.sys.threads), MAX_RANK);
      SumIsPositive(Ranks(h.sys.shared, h.sys.threads), i);
      Multiply(MAX_RANK * n, ChangesLeft(h'), ChangesLeft(h) - 1);
    } else {
      StepUsesRank(h, i);
      Multiply(MAX_RANK * n, ChangesLeft(h'), ChangesLeft(h));
    }
  }

  lemma Multiply(a: nat, x: int, y: int)
    requires x <= y
    ensures a * x <= a * y && a * (y + 1) == a * y + a
  {
  }

  lemma SumIsPositive(ks: seq<nat>, i: nat)
    requires i < |ks| && ks[i] > 0
    ensures Sum(ks) > 0
  {
    SumUpdate(ks, i, 0);
  }

  /**
   Every run of the calls ends, whatever the schedule: with n calls, at most 27 * n * n + 9 * n steps are those of
   calls that have not finished.
   */
  lemma RunsEnd(h: History, schedule: seq<nat>)
    requires Initial(h) && Schedule(|h.sys.threads|, schedule) && Busy(h, schedule)
    ensures var n := |h.sys.threads|; |schedule| <= 27 * n * n + 9 * n
  {
    hide *;
    var n, h' := |h.sys.threads|, Run(h, schedule);
    StepsAreLeft(h, schedule);
    RunFits(h, schedule);
    StepsAreBounded(h);
    SomeStepsLeft(h');
  }

  lemma InitialChanges(h: History)
    requires Initial(h)
    ensures ChangesLeft(h) <= 3 * |h.sys.threads|
  {
  }

  lemma StepsAreBounded(h: History)
    requires Initial(h)
    ensures var n := |h.sys.threads|; StepsLeft(h) <= 27 * n * n + 9 * n
  {
    var n := |h.sys.threads|;
    InitialChanges(h);
    hide ChangesLeft, Initial, Sum, Ranks;
    SumBound(Ranks(h.sys.shared, h.sys.threads), MAX_RANK);
    Multiply(MAX_RANK * n, ChangesLeft(h), 3 * n);
  }

  lemma SomeStepsLeft(h: History)
    requires Fits(h)
    ensures StepsLeft(h) >= 0
  {
    ChangesAreLeft(h);
    hide ChangesLeft, Fits;
    Multiply(MAX_RANK * |h.sys.threads|, 0, ChangesLeft(h));
  }

  lemma {:induction false} StepsAreLeft(h: History, schedule: seq<nat>)
    requires Initial(h) && Schedule(|h.sys.threads|, schedule) && Busy(h, schedule)
    ensures |schedule| + StepsLeft(Run(h, schedule)) <= StepsLeft(h)
  {
    hide Initial, Finished, StepsLeft, StepHistory;
    if schedule != [] {
      var last := |schedule| - 1;
      StepsAreLeft(h, schedule[..last]);
      RunFits(h, schedule[..last]);
      StepReduces(Run(h, schedule[..last]), schedule[last]);
    }
  }
}
