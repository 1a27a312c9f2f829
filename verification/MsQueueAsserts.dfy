/**
 What the asserts in the queue's code check, and for which calls they hold in every run; what a dequeue leaves when
 it returns false.
 */
module MsQueueAsserts {
  import opened Schedules
  import opened MsQueue

  predicate Failed(t: Thread) {
    if t.Enqueuer? then t.epc == EnqueueFailed else t.dpc == DequeueFailed
  }

  predicate ValueFits(data: int) { data != 0 && data < 1000 }

  /** The call is at an assert whose condition does not hold. */
  predicate Violates(s: Shared, t: Thread) {
    match t
    case Enqueuer(epc, nid, value, tail, _) =>
      || (epc == SetData && value == 0)
      || (epc == AssertData && NodeAt(s, nid).data == 0)
      || (epc == AssertNext && NodeAt(s, nid).next.ptr != -1)
      || (epc == ReloadTail && !(tail.ptr > 0 && s.tail.ptr > 0))
    case Dequeuer(dpc, head, tail, next, data) =>
      || (dpc == ReloadHead && s.head == head && head.ptr != tail.ptr && !(next.ptr > 0))
      || (dpc == LoadData && !ValueFits(NodeAt(s, next.ptr).data))
      || (dpc == MoveHead && s.head == head && !ValueFits(data))
  }

  /** A call fails exactly at an assert whose condition does not hold. */
  lemma FailsIff(s: Shared, t: Thread)
    requires !Failed(t)
    ensures Failed(StepThread(s, t).1) <==> Violates(s, t)
  {
  }

  // ----- One call on its own -----

  /** A call takes n steps, and no other call any. */
  function Alone(s: Shared, t: Thread, n: nat): (Shared, Thread) {
    if n == 0 then (s, t)
    else
      var (s1, t1) := Alone(s, t, n - 1);
      StepThread(s1, t1)
  }

  function Times(i: nat, n: nat): (schedule: seq<nat>)
    ensures |schedule| == n && forall k :: 0 <= k < n ==> schedule[k] == i
  {
    seq(n, _ => i)
  }

  lemma {:induction false} RunAlone(h: History, before: seq<nat>, i: nat, n: nat)
    requires Schedule(|h.sys.threads|, before) && i < |h.sys.threads|
    ensures Schedule(|h.sys.threads|, before + Times(i, n))
    ensures var sys, sys' := Run(h, before).sys, Run(h, before + Times(i, n)).sys;
            var r := Alone(sys.shared, sys.threads[i], n);
            sys' == System(r.0, sys.threads[i := r.1])
  {
    hide StepHistory, StepThread, Run;
    if n == 0 {
      assert before + Times(i, n) == before;
    } else {
      assert before + Times(i, n) == before + Times(i, n - 1) + [i];
      RunAlone(h, before, i, n - 1);
      RunLast(h, before + Times(i, n - 1), i);
      StepAlone(Run(h, before + Times(i, n - 1)), Run(h, before).sys, i, n - 1);
    }
  }

  lemma RunLast(h: History, schedule: seq<nat>, i: nat)
    requires Schedule(|h.sys.threads|, schedule) && i < |h.sys.threads|
    ensures Run(h, schedule + [i]) == StepHistory(Run(h, schedule), i)
  {
    hide StepHistory;
    assert (schedule + [i])[..|schedule|] == schedule;
  }

  lemma StepAlone(h: History, sys: System, i: nat, n: nat)
    requires i < |sys.threads|
    requires var r := Alone(sys.shared, sys.threads[i], n); h.sys == System(r.0, sys.threads[i := r.1])
    ensures var r := Alone(sys.shared, sys.threads[i], n + 1);
            StepHistory(h, i).sys == System(r.0, sys.threads[i := r.1])
  {
    hide StepThread;
  }

  predicate Fresh(t: Thread) {
    if t.Enqueuer? then t.epc == SetData && t.nid > 1 else t.dpc == NotCalled
  }

  predicate EmptyQueue(s: Shared) {
    s.head == NodePtr(1, 0) && s.tail == NodePtr(1, 0) && s.nodes == map[1 := Node(NULL, 0)]
  }

  /** The queue with the node of the first enqueue in it. */
  predicate HasFirst(s: Shared, nid: int, value: int) {
    && s.head == NodePtr(1, 0) && s.tail.ptr == nid && nid > 1
    && NodeAt(s, 1).next.ptr == nid && NodeAt(s, nid).data == value
  }

  lemma EnqueuesAlone(s: Shared, e: Thread)
    requires EmptyQueue(s) && e.Enqueuer? && Fresh(e) && e.value != 0
    ensures HasFirst(Alone(s, e, 9).0, e.nid, e.value)
  {
    var node := Node(NULL, e.value);
    assert Alone(s, e, 1) == StepThread(s, e);
    assert Alone(s, e, 2) == Alone(s, e, 1).(1 := Alone(s, e, 1).1.(epc := SetNext));
    var (s4, e4) := Alone(s, e, 4);
    assert Alone(s, e, 3).1.epc == AssertNext;
    assert s4 == s.(nodes := s.nodes[e.nid := node]) && e4 == e.(epc := LoadTail);
    var (s7, e7) := Alone(s, e, 7);
    assert Alone(s, e, 5).1.epc == LoadNext;
    assert Alone(s, e, 6).1.epc == ReloadTail;
    assert s7 == s4 && e7 == e.(tail := NodePtr(1, 0), next := NULL, epc := Link);
    assert Alone(s, e, 8).1.epc == MoveTail;
  }

  lemma DequeuesAlone(s: Shared, d: Thread, nid: int, value: int)
    requires HasFirst(s, nid, value) && d.Dequeuer? && Fresh(d) && value >= 1000
    ensures Failed(Alone(s, d, 6).1)
  {
    assert Alone(s, d, 1) == (s, d.(dpc := LoadHead));
    assert Alone(s, d, 2).1.dpc == LoadTailD;
    assert Alone(s, d, 3) == (s, d.(head := s.head, tail := s.tail, dpc := LoadNextD));
    assert Alone(s, d, 4).1.dpc == ReloadHead;
    assert Alone(s, d, 5).1.dpc == LoadData;
  }

  // ----- All runs -----

  /** The constructor's state and calls that have not started, with any values. */
  predicate Starts(h: History) {
    && EmptyQueue(h.sys.shared)
    && (forall i :: 0 <= i < |h.sys.threads| ==> Fresh(h.sys.threads[i]))
    && DistinctNodes(h.sys.threads)
    && h.chain == [1] && h.headAt == 0 && h.tailAt == 0
    && h.enqueuers == [] && h.dequeuers == [] && h.sawEmpty == {}
  }

  predicate ValuesFit(threads: seq<Thread>) {
    forall i :: 0 <= i < |threads| && threads[i].Enqueuer? ==> ValueFits(threads[i].value)
  }

  predicate NoneFailed(threads: seq<Thread>) {
    forall i :: 0 <= i < |threads| ==> !Failed(threads[i])
  }

  ghost predicate NeverFails(h: History) {
    forall schedule | Schedule(|h.sys.threads|, schedule) :: NoneFailed(Run(h, schedule).sys.threads)
  }

  /** An enqueue of 0 fails at once; a value of 1000 or more is enqueued, and the dequeue that gets it fails. */
  lemma BadValueFails(h: History, i: nat, j: nat) returns (schedule: seq<nat>)
    requires Starts(h) && i < |h.sys.threads| && h.sys.threads[i].Enqueuer? && !ValueFits(h.sys.threads[i].value)
    requires j < |h.sys.threads| && h.sys.threads[j].Dequeuer?
    ensures Schedule(|h.sys.threads|, schedule) && !NoneFailed(Run(h, schedule).sys.threads)
  {
    var e := h.sys.threads[i];
    if e.value == 0 {
      schedule := [] + Times(i, 1);
      RunAlone(h, [], i, 1);
      assert Alone(h.sys.shared, e, 1) == StepThread(h.sys.shared, e);
      assert Failed(Run(h, schedule).sys.threads[i]);
    } else {
      var first := [] + Times(i, 9);
      RunAlone(h, [], i, 9);
      EnqueuesAlone(h.sys.shared, e);
      schedule := first + Times(j, 6);
      RunAlone(h, first, j, 6);
      var sys := Run(h, first).sys;
      hide Run, Alone, HasFirst;
      DequeuesAlone(sys.shared, sys.threads[j], e.nid, e.value);
      assert Failed(Run(h, schedule).sys.threads[j]);
    }
  }

  /** Where there is a dequeue, no assert fails in any run exactly if all values enqueued are nonzero and below 1000. */
  lemma NeverFailsIff(h: History)
    requires Starts(h) && exists j :: 0 <= j < |h.sys.threads| && h.sys.threads[j].Dequeuer?
    ensures NeverFails(h) <==> ValuesFit(h.sys.threads)
  {
    if ValuesFit(h.sys.threads) {
      assert Initial(h);
      forall schedule | Schedule(|h.sys.threads|, schedule)
        ensures NoneFailed(Run(h, schedule).sys.threads)
      {
        hide Initial, Run;
        AssertsHold(h, schedule);
      }
    } else {
      var i: nat :| i < |h.sys.threads| && h.sys.threads[i].Enqueuer? && !ValueFits(h.sys.threads[i].value);
      var j: nat :| j < |h.sys.threads| && h.sys.threads[j].Dequeuer?;
      var schedule := BadValueFails(h, i, j);
    }
  }

  // ----- Dequeues that return false -----

  predicate ZeroIfEmpty(t: Thread) {
    t.Dequeuer? && t.dpc == FoundEmpty ==> t.data == 0
  }

  /** A dequeue that has returned false has set its result to 0, in every run. */
  lemma {:induction false} EmptyGivesZero(h: History, schedule: seq<nat>, i: nat)
    requires Starts(h) && Schedule(|h.sys.threads|, schedule) && i < |h.sys.threads|
    ensures ZeroIfEmpty(Run(h, schedule).sys.threads[i])
  {
    if schedule != [] {
      var last := |schedule| - 1;
      EmptyGivesZero(h, schedule[..last], i);
      var h1 := Run(h, schedule[..last]);
      ZeroAfterStep(h1.sys.shared, h1.sys.threads[i]);
      hide Starts, ZeroIfEmpty, StepThread;
      assert Run(h, schedule) == StepHistory(h1, schedule[last]);
    }
  }

  lemma ZeroAfterStep(s: Shared, t: Thread)
    requires ZeroIfEmpty(t)
    ensures ZeroIfEmpty(StepThread(s, t).1)
  {
  }
}
