/**
 Thread ids along every run, as long as the 32-bit counter of started threads has not wrapped; the first
 wrap creates thread 0.

 Ids are never given twice, and running threads have different ones. An id returns a second value only
 when main runs with it: main does not get an id of its own, and slot 0 may have that of an ended thread.
 */
module ThreadIds {
  import opened Machine
  import opened PcClosure
  import opened GlobalStatus
  import opened RunInvariants
  import opened Threads

  predicate NoWrap(log: seq<Event>) {
    Created(0) !in log
  }

  /** p's step is under way, or its pc is not 0. */
  predicate Live(s: State, p: int, q: nat)
    requires q < |s.procs|
  {
    q == p || s.procs[q].pc != Halted
  }

  // ----- Histories -----

  predicate CreatedInOrder(log: seq<Event>) {
    log == []
    || (CreatedInOrder(log[..|log| - 1])
        && (log[|log| - 1].Created? ==> 2 <= log[|log| - 1].tid && CreatedBelow(log[..|log| - 1], log[|log| - 1].tid)))
  }

  predicate CreatedBelow(log: seq<Event>, tid: nat) {
    forall e :: e in log && e.Created? ==> e.tid < tid
  }

  /** The thread has returned. */
  predicate Ended(log: seq<Event>, tid: nat) {
    LastReturn(log, tid).Some?
  }

  /** main was started with the id of a thread that had returned. */
  predicate Restarted(log: seq<Event>, tid: nat) {
    log != []
    && (Restarted(log[..|log| - 1], tid) || (log[|log| - 1] == MainStarted(tid) && Ended(log[..|log| - 1], tid)))
  }

  /** No id other than 0 has returned twice, unless main was started with it in between. */
  predicate ReturnsFit(log: seq<Event>) {
    log == []
    || (ReturnsFit(log[..|log| - 1])
        && (log[|log| - 1].Returned? && log[|log| - 1].tid != 0 && Ended(log[..|log| - 1], log[|log| - 1].tid) ==>
              Restarted(log[..|log| - 1], log[|log| - 1].tid)))
  }

  lemma OneMore(log: seq<Event>, e: Event, tid: nat)
    ensures CreatedInOrder(log + [e]) <==> CreatedInOrder(log) && (e.Created? ==> 2 <= e.tid && CreatedBelow(log, e.tid))
    ensures Ended(log + [e], tid) <==> Ended(log, tid) || (e.Returned? && e.tid == tid)
    ensures Restarted(log + [e], tid) <==> Restarted(log, tid) || (e == MainStarted(tid) && Ended(log, tid))
    ensures ReturnsFit(log + [e])
            <==> ReturnsFit(log) && (e.Returned? && e.tid != 0 && Ended(log, e.tid) ==> Restarted(log, e.tid))
    ensures NoWrap(log + [e]) <==> NoWrap(log) && e != Created(0)
  {
    var log' := log + [e];
    assert log'[..|log|] == log && log'[|log|] == e;
    assert forall d :: d in log' <==> d in log || d == e;
    LastReturnOfOneMore(log, e, tid);
  }

  // ----- The invariant -----

  /** All ids seen so far are below the counter, and no two slots have the same one, except for 0. */
  ghost predicate NumbersFit(s: State, log: seq<Event>) {
    && 1 <= s.threadsStarted < TWO32
    && CreatedBelow(log, s.threadsStarted + 1)
    && (forall q :: 0 <= q < |s.procs| ==> s.procs[q].tid <= s.threadsStarted)
    && (forall q, r :: 0 <= q < r < |s.procs| && s.procs[q].tid == s.procs[r].tid ==> s.procs[q].tid == 0)
    && (forall t: nat :: t > s.threadsStarted ==> !Ended(log, t))
  }

  /** A running thread that has id 0 is in slot 0, and one whose id has returned is main with that id. */
  ghost predicate LiveFit(s: State, log: seq<Event>, p: int) {
    forall q: nat :: q < |s.procs| && Live(s, p, q) ==>
      if s.procs[q].tid == 0 then q == 0 else Ended(log, s.procs[q].tid) ==> Restarted(log, s.procs[q].tid)
  }

  ghost predicate IdsFit(s: State, log: seq<Event>, p: int) {
    NoWrap(log) ==> NumbersFit(s, log) && LiveFit(s, log, p) && CreatedInOrder(log) && ReturnsFit(log)
  }

  // ----- What instructions keep -----

  predicate NotAboutIds(events: seq<Event>) {
    events == [] || (|events| == 1 && !events[0].Created? && !events[0].Returned? && !events[0].MainStarted?)
  }

  /** s' has the same thread ids, and the same live processes except perhaps for p. */
  predicate SameThreads(s: State, s': State, p: nat) {
    && p < |s.procs| == |s'.procs| && s'.threadsStarted == s.threadsStarted
    && forall q :: 0 <= q < |s.procs| ==>
         s'.procs[q].tid == s.procs[q].tid && (q != p ==> s'.procs[q].pc == s.procs[q].pc)
  }

  /** The histories do not notice an event of another kind. */
  lemma OtherHistory(log: seq<Event>, events: seq<Event>)
    requires NotAboutIds(events)
    ensures forall t: nat :: Ended(log + events, t) <==> Ended(log, t)
    ensures forall t: nat :: Restarted(log + events, t) <==> Restarted(log, t)
    ensures forall t: nat :: CreatedBelow(log + events, t) <==> CreatedBelow(log, t)
    ensures CreatedInOrder(log + events) <==> CreatedInOrder(log)
    ensures ReturnsFit(log + events) <==> ReturnsFit(log)
    ensures NoWrap(log + events) <==> NoWrap(log)
  {
    if events == [] {
      assert log + events == log;
    } else {
      assert events == [events[0]];
      assert forall d :: d in log + events <==> d in log || d == events[0];
      forall t: nat
        ensures Ended(log + events, t) <==> Ended(log, t)
        ensures Restarted(log + events, t) <==> Restarted(log, t)
      {
        OneMore(log, events[0], t);
      }
      OneMore(log, events[0], 0);
    }
    hide CreatedInOrder, ReturnsFit, Restarted, Ended;
  }

  lemma OtherKeeps(s: State, log: seq<Event>, p: nat, s': State, events: seq<Event>)
    requires IdsFit(s, log, p) && SameThreads(s, s', p) && NotAboutIds(events)
    ensures IdsFit(s', log + events, p) && IdsFit(s', log + events, -1)
  {
    OtherHistory(log, events);
    hide NoWrap, CreatedInOrder, ReturnsFit, Restarted, Ended, CreatedBelow, NotAboutIds;
  }

  lemma ReturnKeeps(s: State, log: seq<Event>, p: nat, s': State, value: int)
    requires IdsFit(s, log, p) && SameThreads(s, s', p) && s'.procs[p].pc == Halted
    ensures IdsFit(s', log + [Returned(s.procs[p].tid, value)], -1)
  {
    var tid := s.procs[p].tid;
    var e := Returned(tid, value);
    OneMore(log, e, 0);
    if NoWrap(log + [e]) {
      assert Live(s, p, p);
      forall t: nat
        ensures Ended(log + [e], t) <==> Ended(log, t) || t == tid
        ensures Restarted(log + [e], t) <==> Restarted(log, t)
      {
        OneMore(log, e, t);
      }
      BelowOfOneMore(log, e, s.threadsStarted + 1);
      hide NoWrap, CreatedInOrder, ReturnsFit, Restarted, Ended, CreatedBelow;
    }
  }

  lemma BelowOfOneMore(log: seq<Event>, e: Event, tid: nat)
    ensures CreatedBelow(log + [e], tid) <==> CreatedBelow(log, tid) && (e.Created? ==> e.tid < tid)
  {
    assert forall d :: d in log + [e] <==> d in log || d == e;
  }

  lemma CreateNumbers(s: State, log: seq<Event>, s': State, slot: nat)
    requires NumbersFit(s, log) && |s'.procs| == |s.procs| && slot < |s.procs|
    requires s'.threadsStarted == (s.threadsStarted + 1) % TWO32 && s'.threadsStarted != 0
    requires s'.procs == s.procs[slot := s'.procs[slot]] && s'.procs[slot].tid == s'.threadsStarted
    ensures NumbersFit(s', log + [Created(s'.threadsStarted)]) && s'.threadsStarted == s.threadsStarted + 1
  {
    var e := Created(s'.threadsStarted);
    forall t: nat
      ensures Ended(log + [e], t) <==> Ended(log, t)
    {
      OneMore(log, e, t);
    }
    BelowOfOneMore(log, e, s'.threadsStarted + 1);
    assert CreatedBelow(log, s'.threadsStarted + 1);
    hide Ended, CreatedBelow;
  }

  lemma CreateLive(s: State, log: seq<Event>, p: int, s': State, slot: nat)
    requires NumbersFit(s, log) && LiveFit(s, log, p) && |s'.procs| == |s.procs| && slot < |s.procs|
    requires s'.threadsStarted == s.threadsStarted + 1
    requires s'.procs == s.procs[slot := s'.procs[slot]] && s'.procs[slot].tid == s'.threadsStarted
    ensures LiveFit(s', log + [Created(s'.threadsStarted)], p)
  {
    var e := Created(s'.threadsStarted);
    forall t: nat
      ensures Ended(log + [e], t) <==> Ended(log, t)
      ensures Restarted(log + [e], t) <==> Restarted(log, t)
    {
      OneMore(log, e, t);
    }
    assert !Ended(log, s'.threadsStarted);
    hide Ended, Restarted, CreatedBelow;
  }

  lemma FewerLive(s: State, log: seq<Event>, p: nat)
    requires p < |s.procs| && LiveFit(s, log, p)
    ensures LiveFit(s, log, -1)
  {
    hide Ended, Restarted;
  }

  lemma CreateKeeps(s: State, log: seq<Event>, p: nat, s': State, slot: nat)
    requires IdsFit(s, log, p)
    requires p < |s.procs| == |s'.procs| && slot < |s.procs|
    requires s'.threadsStarted == (s.threadsStarted + 1) % TWO32
    requires s'.procs == s.procs[slot := s'.procs[slot]] && s'.procs[slot].tid == s'.threadsStarted
    ensures IdsFit(s', log + [Created(s'.threadsStarted)], p) && IdsFit(s', log + [Created(s'.threadsStarted)], -1)
  {
    var e := Created(s'.threadsStarted);
    OneMore(log, e, 0);
    if NoWrap(log + [e]) {
      CreateNumbers(s, log, s', slot);
      CreateLive(s, log, p, s', slot);
      assert 2 <= s'.threadsStarted && CreatedBelow(log, s'.threadsStarted);
      hide *;
      FewerLive(s', log + [e], p);
      Assemble(s', log + [e], p);
      Assemble(s', log + [e], -1);
    } else {
      hide NumbersFit, LiveFit;
    }
  }

  lemma Assemble(s: State, log: seq<Event>, p: int)
    requires NumbersFit(s, log) && LiveFit(s, log, p) && CreatedInOrder(log) && ReturnsFit(log)
    ensures IdsFit(s, log, p)
  {
  }

  lemma InstructionKeeps(P: Program, s: State, log: seq<Event>, p: nat, b: nat, i: nat)
    requires p < |s.procs| && Inside(P, b, i) && IdsFit(s, log, p)
    ensures var instr, r := P.blocks[b][i], Exec(P, s, p, b, i);
            && (r.Next? && Plain(instr) ==> IdsFit(r.s, log + r.events, p))
            && (r.Next? ==> IdsFit(r.s, log + r.events, -1))
  {
    hide IdsFit, ExecLocal, ExecMemory;
    var instr, r := P.blocks[b][i], Exec(P, s, p, b, i);
    if IsLocal(instr) {
      LocalIsSilent(P, p, b, s.procs[p], instr);
      var out := ExecLocal(P, p, b, s.procs[p], instr);
      if out.result.Some? {
        ReturnKeeps(s, log, p, r.s, out.result.value);
      } else {
        OtherKeeps(s, log, p, r.s, r.events);
      }
    } else if instr.ThreadCreate? {
      var slot := FreeSlot(s.procs, 0);
      if slot.None? {
        OtherKeeps(s, log, p, r.s, r.events);
      } else {
        CreateKeeps(s, log, p, r.s, slot.value);
      }
    } else if instr.ThreadJoin? {
      if r.Next? {
        OtherKeeps(s, log, p, r.s, r.events);
      }
    } else {
      PlainKeepsControl(P, s, p, b, i);
      MemoryKeepsTid(s.procs[p], s.mem, instr);
      OtherKeeps(s, log, p, r.s, r.events);
    }
  }

  lemma MemoryKeepsTid(q: Proc, mem: map<int, int>, instr: Instr)
    requires instr.Load? || instr.Store? || instr.CmpXchg?
    ensures ExecMemory(q, mem, instr).0.tid == q.tid
  {
  }

  // ----- Runs -----

  ghost function Kept(): Invariant {
    (s: State, log: seq<Event>, p: int) => IdsFit(s, log, p)
  }

  lemma IdsFitIsKept(P: Program)
    ensures KeptByPc(Kept()) && KeptByInstructions(P, Kept())
  {
    hide Exec, Plain, NoWrap, CreatedInOrder, ReturnsFit, Ended, Restarted, CreatedBelow;
    forall s: State, log, p: int, b: int, i: int
      | 0 <= p < |s.procs| && 0 <= b && 0 <= i && Inside(P, b, i) && Exec(P, s, p, b, i).Next? && Kept()(s, log, p)
      ensures var r := Exec(P, s, p, b, i);
              && (Plain(P.blocks[b][i]) ==> Kept()(r.s, log + r.events, p))
              && ((P.blocks[b][i].ThreadCreate? ==> s.procs[p].pc != Halted) ==> Kept()(r.s, log + r.events, -1))
    {
      hide IdsFit;
      InstructionKeeps(P, s, log, p, b, i);
    }
  }

  lemma SuccessorKeepsIds(M: Model, s: State, log: seq<Event>, s': State, events: seq<Event>)
    requires ValidModel(M) && IdsFit(s, log, -1) && Successor(M, s, s', events)
    requires s.status == START ==> s.procs[0].tid == 0
    ensures IdsFit(s', log + events, -1)
  {
    hide Steps, NoneSteps, WellFormed;
    if p: nat :| Steps(M.program, s, p, s', events) {
      hide IdsFit, Successor, KeptByInstructions, KeptByPc;
      IdsFitIsKept(M.program);
      StepKeeps(M.program, Kept(), s, log, p, s', events);
    } else {
      StartShape(M, s, s', events);
      hide Successor;
      StartKeeps(s, log, s', events);
    }
  }

  lemma StartShape(M: Model, s: State, s': State, events: seq<Event>)
    requires Successor(M, s, s', events)
    requires !exists p: nat :: Steps(M.program, s, p, s', events)
    ensures |s.procs| > 0 && SameThreads(s, s', 0)
    ensures events == [] || events == [MainStarted(s.procs[0].tid)]
    ensures s'.procs == s.procs || s.status == START || events != []
  {
    hide Steps, NoneSteps;
  }

  lemma StartKeeps(s: State, log: seq<Event>, s': State, events: seq<Event>)
    requires IdsFit(s, log, -1) && |s.procs| > 0 && SameThreads(s, s', 0)
    requires events == [] || events == [MainStarted(s.procs[0].tid)]
    requires s'.procs == s.procs || s.procs[0].tid == 0 || events != []
    ensures IdsFit(s', log + events, -1)
  {
    if events == [] {
      assert log + events == log;
      hide NoWrap, CreatedInOrder, ReturnsFit, Ended, Restarted, CreatedBelow;
    } else {
      var e := MainStarted(s.procs[0].tid);
      forall t: nat
        ensures Ended(log + [e], t) <==> Ended(log, t)
        ensures Restarted(log + [e], t) <==> Restarted(log, t) || (t == s.procs[0].tid && Ended(log, t))
      {
        OneMore(log, e, t);
      }
      OneMore(log, e, 0);
      BelowOfOneMore(log, e, s.threadsStarted + 1);
      hide NoWrap, CreatedInOrder, ReturnsFit, Ended, Restarted, CreatedBelow;
    }
  }

  lemma OnlyInitialIsStart(M: Model, n: nat, s: State, log: seq<Event>)
    requires ValidModel(M) && Reachable(M, n, s, log)
    ensures s.status == START ==> s == InitialState(M)
    ensures |s.procs| == MAX_THREADS
  {
    hide Successor, ValidModel;
    StatusInRange(M, n, s, log);
    if n > 0 {
      var s0, log0, events :| Reachable(M, n - 1, s0, log0) && Successor(M, s0, s, events) && log == log0 + events;
      StatusMonotone(M, s0, s, events);
    }
  }

  lemma {:induction false} ReachableIds(M: Model, n: nat, s: State, log: seq<Event>)
    requires ValidModel(M) && Reachable(M, n, s, log)
    ensures IdsFit(s, log, -1)
  {
    hide Successor, ValidModel;
    if n > 0 {
      hide IdsFit;
      var s0, log0, events :| Reachable(M, n - 1, s0, log0) && Successor(M, s0, s, events) && log == log0 + events;
      ReachableIds(M, n - 1, s0, log0);
      OnlyInitialIsStart(M, n - 1, s0, log0);
      SuccessorKeepsIds(M, s0, log0, s, events);
    }
  }

  // ----- Theorems -----

  lemma {:induction false} CreatedAt(log: seq<Event>, j: nat)
    requires CreatedInOrder(log) && j < |log| && log[j].Created?
    ensures 2 <= log[j].tid && CreatedBelow(log[..j], log[j].tid)
  {
    if j < |log| - 1 {
      var front := log[..|log| - 1];
      CreatedAt(front, j);
      assert front[..j] == log[..j];
    }
  }

  /** Created threads have ids of at least 2, in increasing order, slots being reused or not. */
  lemma CreatedIdsAreDistinct(M: Model, n: nat, s: State, log: seq<Event>, i: nat, j: nat)
    requires ValidModel(M) && Reachable(M, n, s, log) && NoWrap(log)
    requires i < j < |log| && log[i].Created? && log[j].Created?
    ensures 2 <= log[i].tid < log[j].tid
  {
    hide Reachable, ValidModel;
    ReachableIds(M, n, s, log);
    CreatedAt(log, i);
    CreatedAt(log, j);
    assert log[i] in log[..j];
  }

  /** In every reachable state no two live processes have the same thread id. */
  lemma LiveIdsDiffer(M: Model, n: nat, s: State, log: seq<Event>, p: nat, q: nat)
    requires ValidModel(M) && Reachable(M, n, s, log) && NoWrap(log)
    requires p < q < |s.procs| && s.procs[p].pc != Halted && s.procs[q].pc != Halted
    ensures s.procs[p].tid != s.procs[q].tid
  {
    hide Reachable, ValidModel, CreatedInOrder, ReturnsFit, Ended, Restarted;
    ReachableIds(M, n, s, log);
    assert Live(s, -1, p) && Live(s, -1, q);
  }

  /** No id other than 0 returns twice. */
  predicate ReturnsOnce(log: seq<Event>) {
    forall i, j :: 0 <= i < j < |log| && log[i].Returned? && log[j].Returned? && log[i].tid == log[j].tid ==> log[i].tid == 0
  }

  /** main was started with the id of a thread that had returned, and returned a value itself. */
  predicate MainReplacesResult(log: seq<Event>) {
    exists j :: 0 <= j < |log| && log[j].Returned? && log[j].tid != 0 && Restarted(log[..j], log[j].tid)
  }

  lemma {:induction false} ReturnsAt(log: seq<Event>, j: nat)
    requires ReturnsFit(log) && j < |log| && log[j].Returned? && log[j].tid != 0
    ensures Ended(log[..j], log[j].tid) ==> Restarted(log[..j], log[j].tid)
  {
    if j < |log| - 1 {
      var front := log[..|log| - 1];
      ReturnsAt(front, j);
      assert front[..j] == log[..j];
    }
  }

  lemma {:induction false} RestartedHasEnded(log: seq<Event>, tid: nat) returns (i: nat)
    requires Restarted(log, tid)
    ensures i < |log| && log[i].Returned? && log[i].tid == tid
  {
    var front := log[..|log| - 1];
    if Restarted(front, tid) {
      i := RestartedHasEnded(front, tid);
    } else {
      var e := Returned(tid, LastReturn(front, tid).value);
      assert e in front;
      i :| 0 <= i < |front| && front[i] == e;
    }
  }

  /** Every id returns at most once, exactly unless main replaces a result. */
  lemma ReturnsOnceIff(M: Model, n: nat, s: State, log: seq<Event>)
    requires ValidModel(M) && Reachable(M, n, s, log) && NoWrap(log)
    ensures ReturnsOnce(log) <==> !MainReplacesResult(log)
  {
    hide Reachable, ValidModel;
    ReachableIds(M, n, s, log);
    hide Restarted, ReturnsFit, CreatedInOrder, NumbersFit, LiveFit, NoWrap;
    if j: nat :| j < |log| && log[j].Returned? && log[j].tid != 0 && Restarted(log[..j], log[j].tid) {
      var i := RestartedHasEnded(log[..j], log[j].tid);
      assert log[i] == log[..j][i];
    }
    if i: nat, j: nat :| i < j < |log| && log[i].Returned? && log[j].Returned? && log[i].tid == log[j].tid != 0 {
      assert log[..j][i] == log[i];
      HasLastReturn(log[..j], log[j].tid, log[i].value);
      ReturnsAt(log, j);
    }
  }
}
