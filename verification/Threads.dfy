/**
 Thread results and joins along every run: the list of results always holds what each thread id returned
 last, whatever else happens.
 */
module Threads {
  import Ir
  import opened Machine
  import opened PcClosure
  import opened GlobalStatus
  import opened RunInvariants

  /** The thread tid has returned the value. */
  predicate HasReturned(log: seq<Event>, tid: int, value: int) {
    tid >= 0 && Returned(tid, value) in log
  }

  /** What the thread tid returned last. */
  function LastReturn(log: seq<Event>, tid: int): (value: Ir.Option<int>)
    ensures value.Some? ==> HasReturned(log, tid, value.value)
  {
    if log == [] then Ir.None
    else
      var e := log[|log| - 1];
      if e.Returned? && e.tid == tid then Ir.Some(e.value) else LastReturn(log[..|log| - 1], tid)
  }

  lemma {:induction false} HasLastReturn(log: seq<Event>, tid: int, value: int)
    requires HasReturned(log, tid, value)
    ensures LastReturn(log, tid).Some?
  {
    var front, e := log[..|log| - 1], log[|log| - 1];
    assert log == front + [e];
    if e != Returned(tid, value) {
      HasLastReturn(front, tid, value);
    }
  }

  lemma LastReturnOfOneMore(log: seq<Event>, e: Event, tid: int)
    ensures LastReturn(log + [e], tid) == if e.Returned? && e.tid == tid then Ir.Some(e.value) else LastReturn(log, tid)
  {
    assert (log + [e])[..|log|] == log;
  }

  lemma {:induction false} LastReturnOfSum(log: seq<Event>, more: seq<Event>, tid: int)
    ensures LastReturn(log + more, tid) == if LastReturn(more, tid).Some? then LastReturn(more, tid) else LastReturn(log, tid)
  {
    if more == [] {
      assert log + more == log;
    } else {
      var last := |more| - 1;
      LastReturnOfSum(log, more[..last], tid);
      assert (log + more)[..|log| + last] == log + more[..last];
    }
  }

  /** The list of results holds what each id returned last. */
  ghost predicate ResultsFit(tres: map<int, ThreadResult>, log: seq<Event>) {
    forall t: int :: if t in tres then 0 <= t && LastReturn(log, t) == Ir.Some(tres[t].value) && tres[t].status == t
                     else LastReturn(log, t).None?
  }

  /** Every join so far read what its thread had returned last. */
  predicate JoinsFit(log: seq<Event>) {
    log == [] || (JoinsFit(log[..|log| - 1]) && JoinFits(log[..|log| - 1], log[|log| - 1]))
  }

  predicate JoinFits(before: seq<Event>, e: Event) {
    e.Joined? ==> e.joinedTid != 0 && LastReturn(before, e.joinedTid) == Ir.Some(e.value)
  }

  lemma JoinsOfOneMore(log: seq<Event>, e: Event)
    ensures JoinsFit(log + [e]) <==> JoinsFit(log) && JoinFits(log, e)
  {
    assert (log + [e])[..|log|] == log;
  }

  ghost predicate ThreadsFit(s: State, log: seq<Event>) {
    ResultsFit(s.tres, log) && JoinsFit(log)
  }

  // ----- What instructions keep -----

  predicate Silent(events: seq<Event>) {
    events == [] || (|events| == 1 && !events[0].Returned? && !events[0].Joined?)
  }

  lemma SilentKeeps(s: State, log: seq<Event>, s': State, events: seq<Event>)
    requires ThreadsFit(s, log) && s'.tres == s.tres && Silent(events)
    ensures ThreadsFit(s', log + events)
  {
    if events == [] {
      assert log + events == log;
    } else {
      assert events == [events[0]];
      JoinsOfOneMore(log, events[0]);
      forall t: int
        ensures LastReturn(log + events, t) == LastReturn(log, t)
      {
        LastReturnOfOneMore(log, events[0], t);
      }
      hide LastReturn, JoinsFit;
    }
  }

  lemma ReturnKeeps(s: State, log: seq<Event>, s': State, tid: nat, value: int)
    requires ThreadsFit(s, log) && s'.tres == s.tres[tid := ThreadResult(tid, value)]
    ensures ThreadsFit(s', log + [Returned(tid, value)])
  {
    var e := Returned(tid, value);
    JoinsOfOneMore(log, e);
    forall t: int
      ensures LastReturn(log + [e], t) == if t == tid then Ir.Some(value) else LastReturn(log, t)
    {
      LastReturnOfOneMore(log, e, t);
    }
    hide LastReturn, JoinsFit;
  }

  lemma JoinKeeps(s: State, log: seq<Event>, s': State, tid: int)
    requires ThreadsFit(s, log) && s'.tres == s.tres && ReadResult(s.tres, tid).status != 0
    ensures ThreadsFit(s', log + [Joined(tid, ReadResult(s.tres, tid).value)])
  {
    var e := Joined(tid, ReadResult(s.tres, tid).value);
    JoinsOfOneMore(log, e);
    forall t: int
      ensures LastReturn(log + [e], t) == LastReturn(log, t)
    {
      LastReturnOfOneMore(log, e, t);
    }
    hide LastReturn, JoinsFit;
  }

  lemma LocalIsSilent(P: Program, p: nat, b: nat, q: Proc, instr: Instr)
    requires IsLocal(instr)
    ensures var out := ExecLocal(P, p, b, q, instr);
            && out.proc.tid == q.tid
            && if out.result.Some? then out.proc.pc == Halted && out.events == [Returned(q.tid, out.result.value)]
               else out.events == [] || (|out.events| == 1 && out.events[0].Allocated?)
    ensures Plain(instr) ==> ExecLocal(P, p, b, q, instr).result.None?
  {
    hide EnterBlock, PassArgs;
  }

  lemma InstructionKeeps(P: Program, s: State, log: seq<Event>, p: nat, b: nat, i: nat)
    requires p < |s.procs| && Inside(P, b, i) && ThreadsFit(s, log)
    ensures var r := Exec(P, s, p, b, i); r.Next? ==> ThreadsFit(r.s, log + r.events)
  {
    hide ThreadsFit, ExecLocal, ExecMemory, FreeSlot;
    var instr, r := P.blocks[b][i], Exec(P, s, p, b, i);
    if IsLocal(instr) {
      LocalIsSilent(P, p, b, s.procs[p], instr);
      var out := ExecLocal(P, p, b, s.procs[p], instr);
      if out.result.Some? {
        ReturnKeeps(s, log, r.s, s.procs[p].tid, out.result.value);
      } else {
        SilentKeeps(s, log, r.s, r.events);
      }
    } else if instr.ThreadJoin? {
      if r.Next? {
        JoinKeeps(s, log, r.s, Eval(s.procs[p].regs[instr.dst := 0], instr.tid));
      }
    } else {
      SilentKeeps(s, log, r.s, r.events);
    }
  }

  // ----- Runs -----

  ghost function Fits(): Invariant {
    (s: State, log: seq<Event>, p: int) => ThreadsFit(s, log)
  }

  lemma FitsIsKept(P: Program)
    ensures KeptByPc(Fits()) && KeptByInstructions(P, Fits())
  {
    hide Exec, Plain, JoinsFit, ResultsFit;
    forall s: State, log, p: int, b: int, i: int
      | 0 <= p < |s.procs| && 0 <= b && 0 <= i && Inside(P, b, i) && Exec(P, s, p, b, i).Next? && Fits()(s, log, p)
      ensures var r := Exec(P, s, p, b, i);
              && (Plain(P.blocks[b][i]) ==> Fits()(r.s, log + r.events, p))
              && ((P.blocks[b][i].ThreadCreate? ==> s.procs[p].pc != Halted) ==> Fits()(r.s, log + r.events, -1))
    {
      hide ThreadsFit;
      InstructionKeeps(P, s, log, p, b, i);
    }
  }

  lemma SuccessorKeepsThreads(M: Model, s: State, log: seq<Event>, s': State, events: seq<Event>)
    requires ValidModel(M) && ThreadsFit(s, log) && Successor(M, s, s', events)
    ensures ThreadsFit(s', log + events)
  {
    hide Steps, NoneSteps, WellFormed, ThreadsFit;
    if p: nat :| Steps(M.program, s, p, s', events) {
      hide Successor, KeptByInstructions, KeptByPc;
      FitsIsKept(M.program);
      StepKeeps(M.program, Fits(), s, log, p, s', events);
    } else {
      SilentKeeps(s, log, s', events);
    }
  }

  lemma {:induction false} ReachableFits(M: Model, n: nat, s: State, log: seq<Event>)
    requires ValidModel(M) && Reachable(M, n, s, log)
    ensures ThreadsFit(s, log)
  {
    hide Successor, ValidModel;
    if n > 0 {
      hide ThreadsFit;
      var s0, log0, events :| Reachable(M, n - 1, s0, log0) && Successor(M, s0, s, events) && log == log0 + events;
      ReachableFits(M, n - 1, s0, log0);
      SuccessorKeepsThreads(M, s0, log0, s, events);
    }
  }

  // ----- Joins -----

  /**
   In every reachable state, pthread_join on a thread id other than 0 is enabled exactly when that thread
   has returned a value, and the value it then reads is the one returned last. Id 0 is never enabled.
   */
  lemma JoinEnabledIffReturned(M: Model, n: nat, s: State, log: seq<Event>, tid: int)
    requires ValidModel(M) && Reachable(M, n, s, log)
    ensures ReadResult(s.tres, tid).status != 0 <==> tid != 0 && exists v :: HasReturned(log, tid, v)
    ensures ReadResult(s.tres, tid).status != 0 ==> LastReturn(log, tid) == Ir.Some(ReadResult(s.tres, tid).value)
  {
    hide ValidModel, Reachable;
    ReachableFits(M, n, s, log);
    hide JoinsFit;
    if v :| HasReturned(log, tid, v) {
      HasLastReturn(log, tid, v);
    }
    assert LastReturn(log, tid).Some? ==> HasReturned(log, tid, LastReturn(log, tid).value);
  }

  /** Once enabled, joins on an id stay enabled along every continuation. */
  lemma JoinStaysEnabled(M: Model, n: nat, s: State, log: seq<Event>, k: nat, s': State, more: seq<Event>, tid: int)
    requires ValidModel(M) && Reachable(M, n, s, log) && RunsTo(M, s, k, s', more)
    requires ReadResult(s.tres, tid).status != 0
    ensures ReadResult(s'.tres, tid).status != 0
  {
    hide Successor, ValidModel;
    RunsCompose(M, InitialState(M), n, s, log, k, s', more);
    JoinEnabledIffReturned(M, n, s, log, tid);
    JoinEnabledIffReturned(M, n + k, s', log + more, tid);
    var v :| HasReturned(log, tid, v);
    assert HasReturned(log + more, tid, v);
  }

  /** The value they read stays exactly unless the id returns again, with another value to end with. */
  lemma JoinValueStaysIff(M: Model, n: nat, s: State, log: seq<Event>, k: nat, s': State, more: seq<Event>, tid: int)
    requires ValidModel(M) && Reachable(M, n, s, log) && RunsTo(M, s, k, s', more)
    requires ReadResult(s.tres, tid).status != 0
    ensures ReadResult(s'.tres, tid) == ReadResult(s.tres, tid)
            <==> LastReturn(more, tid).None? || LastReturn(more, tid).value == ReadResult(s.tres, tid).value
  {
    hide Successor, ValidModel, RunsTo;
    RunsCompose(M, InitialState(M), n, s, log, k, s', more);
    ReachableFits(M, n, s, log);
    ReachableFits(M, n + k, s', log + more);
    LastReturnOfSum(log, more, tid);
    hide JoinsFit, LastReturn;
  }

  lemma {:induction false} JoinFitsAt(log: seq<Event>, j: nat)
    requires JoinsFit(log) && j < |log|
    ensures JoinFits(log[..j], log[j])
  {
    if j < |log| - 1 {
      var front := log[..|log| - 1];
      JoinFitsAt(front, j);
      assert front[..j] == log[..j];
    }
  }

  /** Every join that happened delivered what its thread had returned last before. */
  lemma JoinsDeliverReturns(M: Model, n: nat, s: State, log: seq<Event>, j: nat)
    requires ValidModel(M) && Reachable(M, n, s, log) && j < |log| && log[j].Joined?
    ensures log[j].joinedTid != 0 && LastReturn(log[..j], log[j].joinedTid) == Ir.Some(log[j].value)
  {
    hide ValidModel, Reachable;
    ReachableFits(M, n, s, log);
    JoinFitsAt(log, j);
  }
}
