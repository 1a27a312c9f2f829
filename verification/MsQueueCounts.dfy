/**
 The modification counts of the queue's pointers. Head and Tail count their own moves in 32 bits, so equal counts
 mean the same position up to 2^32 moves, whatever nodes they point at.
 */
module MsQueueCounts {
  import opened Schedules
  import opened MsQueue
  import opened MsQueueProgress

  const TWO32: nat := 0x1_0000_0000
  const TWO31: nat := 0x8000_0000

  /** n in 32 bits, as an int. */
  function Wrapped(n: nat): int { (n + TWO31) % TWO32 - TWO31 }

  lemma IncrementCounts(n: nat)
    ensures Increment(Wrapped(n)) == Wrapped(n + 1)
  {
  }

  /** Head and Tail count their moves; a next pointer counts that it was set once. */
  predicate CountsFit(h: History) {
    var s := h.sys.shared;
    && s.head.count == Wrapped(h.headAt) && s.tail.count == Wrapped(h.tailAt)
    && NextsCounted(s, h.chain)
  }

  predicate NextsCounted(s: Shared, chain: seq<int>) {
    forall k :: 0 <= k < |chain| ==> NodeAt(s, chain[k]).next.count == if k < |chain| - 1 then 1 else 0
  }

  lemma SwingCounts(h: History, i: nat)
    requires i < |h.sys.threads| && CountsFit(h)
    ensures var h' := StepHistory(h, i);
            h'.sys.shared.head.count == Wrapped(h'.headAt) && h'.sys.shared.tail.count == Wrapped(h'.tailAt)
  {
    IncrementCounts(h.headAt);
    IncrementCounts(h.tailAt);
    hide Wrapped, Increment, NodeAt, NextsCounted;
  }

  /** A step that links nothing leaves the chain's next pointers alone. */
  lemma NextsStay(h: History, i: nat)
    requires Fits(h) && i < |h.sys.threads| && !Links(h.sys.shared, h.sys.threads[i])
    ensures var h' := StepHistory(h, i);
            h'.chain == h.chain && forall n :: n in h.chain ==> NodeAt(h'.sys.shared, n).next == NodeAt(h.sys.shared, n).next
  {
    var s, t := h.sys.shared, h.sys.threads[i];
    OwnNodeOutside(h, i);
    hide Fits;
    if t.Enqueuer? {
      OnlyOwnNode(s, t);
    } else {
      SameNodes(s, t);
    }
    hide StepEnqueuer, StepDequeuer, NodeAt;
  }

  lemma OnlyOwnNode(s: Shared, e: Thread)
    requires e.Enqueuer? && !Links(s, e)
    ensures var s' := StepEnqueuer(s, e).0;
            && (forall n :: n != e.nid ==> NodeAt(s', n) == NodeAt(s, n))
            && (e.epc !in {SetData, SetNext} ==> s'.nodes == s.nodes)
  {
  }

  lemma SameNodes(s: Shared, d: Thread)
    requires d.Dequeuer?
    ensures StepDequeuer(s, d).0.nodes == s.nodes
  {
  }

  /** A link is behind the last node, from a pointer that was not set before, to a node whose own is not set. */
  lemma LinksLast(h: History, i: nat)
    requires Fits(h) && i < |h.sys.threads| && Links(h.sys.shared, h.sys.threads[i])
    ensures var s, t := h.sys.shared, h.sys.threads[i];
            && h.chain != [] && t.tail.ptr == h.chain[|h.chain| - 1] && t.nid !in h.chain && NodeAt(s, t.nid).next == NULL
            && NodeAt(s, t.tail.ptr).next == t.next
    ensures Distinct(h.chain)
  {
    assert ThreadFits(h, i);
    var s, t := h.sys.shared, h.sys.threads[i];
    ChainSuccessor(s, h.chain, h.headAt, h.tailAt, t.tail.ptr);
  }

  lemma LinkedNodes(s: Shared, e: Thread)
    requires Links(s, e) && e.nid != e.tail.ptr
    ensures var s' := StepEnqueuer(s, e).0;
            && NodeAt(s', e.tail.ptr).next.count == Increment(NodeAt(s, e.tail.ptr).next.count)
            && forall n :: n != e.tail.ptr ==> NodeAt(s', n) == NodeAt(s, n)
  {
  }

  lemma LinkCounts(h: History, i: nat)
    requires Fits(h) && i < |h.sys.threads| && CountsFit(h)
    ensures NextsCounted(StepHistory(h, i).sys.shared, StepHistory(h, i).chain)
  {
    var s, t, h', last := h.sys.shared, h.sys.threads[i], StepHistory(h, i), |h.chain| - 1;
    if Links(s, t) {
      LinksLast(h, i);
      assert h.chain[last] in h.chain;
      LinkedNodes(s, t);
      hide Fits, StepEnqueuer, NodeAt, Links, Wrapped;
      forall k | 0 <= k < |h'.chain|
        ensures NodeAt(h'.sys.shared, h'.chain[k]).next.count == if k < |h'.chain| - 1 then 1 else 0
      {
      }
    } else {
      NextsStay(h, i);
      hide Fits, StepHistory, NodeAt, Links, Wrapped;
      forall k | 0 <= k < |h'.chain|
        ensures h'.chain[k] in h.chain
      {
      }
    }
  }

  lemma StepKeepsCounts(h: History, i: nat)
    requires Fits(h) && i < |h.sys.threads| && CountsFit(h)
    ensures CountsFit(StepHistory(h, i))
  {
    SwingCounts(h, i);
    LinkCounts(h, i);
    hide Fits, StepHistory, Wrapped;
  }

  /** In every run, the counts of Head and Tail are how often they were moved. */
  lemma {:induction false} CountsAreMoves(h: History, schedule: seq<nat>)
    requires Initial(h) && Schedule(|h.sys.threads|, schedule)
    ensures CountsFit(Run(h, schedule))
  {
    hide Fits, StepHistory;
    if schedule != [] {
      var last := |schedule| - 1;
      CountsAreMoves(h, schedule[..last]);
      RunFits(h, schedule[..last]);
      hide CountsFit, Initial;
      StepKeepsCounts(Run(h, schedule[..last]), schedule[last]);
    }
  }

  /** Two states in which Head has the same count are a multiple of 2^32 moves apart, and so for Tail. */
  predicate CountsTell(h1: History, h2: History) {
    var s1, s2 := h1.sys.shared, h2.sys.shared;
    && (s1.head.count == s2.head.count <==> (h2.headAt - h1.headAt) % TWO32 == 0)
    && (s1.tail.count == s2.tail.count <==> (h2.tailAt - h1.tailAt) % TWO32 == 0)
  }

  lemma FittingCountsTell(h1: History, h2: History)
    requires CountsFit(h1) && CountsFit(h2)
    ensures CountsTell(h1, h2)
  {
    WrappedIff(h1.headAt, h2.headAt);
    WrappedIff(h1.tailAt, h2.tailAt);
    hide Wrapped, NextsCounted;
  }

  lemma EqualCountsIff(h: History, schedule: seq<nat>, more: seq<nat>)
    requires Initial(h) && Schedule(|h.sys.threads|, schedule) && Schedule(|h.sys.threads|, more)
    ensures CountsTell(Run(h, schedule), Run(h, more))
  {
    hide *;
    CountsAreMoves(h, schedule);
    CountsAreMoves(h, more);
    FittingCountsTell(Run(h, schedule), Run(h, more));
  }

  lemma WrappedIff(m: nat, n: nat)
    ensures Wrapped(m) == Wrapped(n) <==> (n - m) % TWO32 == 0
  {
  }
}
