/**
 Lifting what single instructions keep to groups, to model_step and to whole runs.

 An invariant is a predicate on a state, the events so far, and the process that is in the middle of
 a step (-1 between steps): a process that runs a group may already have pc 0.
 */
module RunInvariants {
  import opened Machine
  import opened PcClosure
  import opened GlobalStatus

  type Invariant = (State, seq<Event>, int) -> bool

  ghost predicate KeptByPc(inv: Invariant) {
    && (forall s: State, log, p: int, pc :: 0 <= p < |s.procs| && inv(s, log, p) ==> inv(SetPc(s, p, pc), log, p))
    && (forall s: State, log, p: int {:trigger inv(s, log, p)} ::
          0 <= p < |s.procs| && s.procs[p].pc != Halted && inv(s, log, -1) ==> inv(s, log, p))
  }

  ghost predicate KeptByInstructions(P: Program, inv: Invariant) {
    forall s: State, log, p: int, b: int, i: int {:trigger inv(s, log, p), Exec(P, s, p, b, i)} ::
      0 <= p < |s.procs| && 0 <= b && 0 <= i && Inside(P, b, i) && Exec(P, s, p, b, i).Next? && inv(s, log, p) ==>
        var r := Exec(P, s, p, b, i);
        && (Plain(P.blocks[b][i]) ==> inv(r.s, log + r.events, p))
        && ((P.blocks[b][i].ThreadCreate? ==> s.procs[p].pc != Halted) ==> inv(r.s, log + r.events, -1))
  }

  lemma {:induction false} RangeKeeps(P: Program, inv: Invariant, s: State, log: seq<Event>, p: nat, b: nat, i: nat, e: nat)
    requires KeptByInstructions(P, inv) && p < |s.procs| && inv(s, log, p)
    requires b < |P.blocks| && i < e <= |P.blocks[b]|
    requires forall k :: i <= k < e - 1 ==> Plain(P.blocks[b][k])
    requires P.blocks[b][e - 1].ThreadCreate? ==> s.procs[p].pc != Halted
    ensures var r := ExecRange(P, s, p, b, i, e); r.Next? ==> inv(r.s, log + r.events, -1)
    decreases e - i
  {
    hide Exec, ExecRange, Plain, KeptByInstructions;
    if ExecRange(P, s, p, b, i, e).Next? {
      RangeUnfolds(P, s, p, b, i, e);
      InstructionIsKept(P, inv, s, log, p, b, i);
      var r := Exec(P, s, p, b, i);
      if i == e - 1 {
        EmptyRange(P, r.s, p, b, e);
        assert r.events + [] == r.events;
      } else {
        PlainKeepsControl(P, s, p, b, i);
        RangeKeeps(P, inv, r.s, log + r.events, p, b, i + 1, e);
        assert log + r.events + ExecRange(P, r.s, p, b, i + 1, e).events == log + ExecRange(P, s, p, b, i, e).events;
      }
    }
  }

  lemma InstructionIsKept(P: Program, inv: Invariant, s: State, log: seq<Event>, p: nat, b: nat, i: nat)
    requires KeptByInstructions(P, inv) && p < |s.procs| && inv(s, log, p) && Inside(P, b, i) && Exec(P, s, p, b, i).Next?
    ensures var r := Exec(P, s, p, b, i);
            && (Plain(P.blocks[b][i]) ==> inv(r.s, log + r.events, p))
            && ((P.blocks[b][i].ThreadCreate? ==> s.procs[p].pc != Halted) ==> inv(r.s, log + r.events, -1))
  {
    hide Exec, Plain;
  }

  lemma GroupKeeps(P: Program, inv: Invariant, s: State, log: seq<Event>, p: nat)
    requires WellFormed(P) && KeptByPc(inv) && KeptByInstructions(P, inv)
    requires p < |s.procs| && s.procs[p].pc.At? && Inside(P, s.procs[p].pc.block, s.procs[p].pc.index)
    requires inv(s, log, -1)
    ensures var r := ExecGroup(P, s, p, s.procs[p].pc.block, s.procs[p].pc.index);
            r.Next? ==> inv(r.s, log + r.events, -1)
  {
    hide KeptByInstructions, ExecRange, End, Plain;
    var b, i := s.procs[p].pc.block, s.procs[p].pc.index;
    var e := End(P, b, i);
    forall k | i <= k < e - 1
      ensures Plain(P.blocks[b][k])
    {
      InnerInstructionsArePlain(P, b, i, k);
    }
    assert inv(s, log, p);
    assert P.blocks[b][e - 1].ThreadCreate? ==> NextPc(P, b, e - 1) != Halted;
    RangeKeeps(P, inv, SetPc(s, p, NextPc(P, b, e - 1)), log, p, b, i, e);
  }

  lemma {:induction false} LoopKeeps(P: Program, inv: Invariant, s: State, log: seq<Event>, p: nat, emitted: bool, fuel: nat)
    requires WellFormed(P) && KeptByPc(inv) && KeptByInstructions(P, inv)
    requires p < |s.procs| && inv(s, log, -1)
    ensures var o := Loop(P, s, p, emitted, fuel); o.Report? ==> inv(o.s, log + o.events, -1)
    decreases fuel
  {
    hide ExecGroup, Head, Emits, End, KeptByInstructions, KeptByPc, WellFormed;
    assert log + [] == log;
    if s.procs[p].pc.At? && fuel > 0 {
      var b, i := s.procs[p].pc.block, s.procs[p].pc.index;
      if Head(P, b, i) {
        GroupKeeps(P, inv, s, log, p);
        var emits := Emits(P, b, i, End(P, b, i));
        var r := ExecGroup(P, s, p, b, i);
        if r.Next? && !(emits && emitted) {
          LoopKeeps(P, inv, r.s, log + r.events, p, emitted || emits, fuel - 1);
          var o := Loop(P, r.s, p, emitted || emits, fuel - 1);
          if o.Report? {
            assert log + r.events + o.events == log + (r.events + o.events);
          }
        }
      }
    }
  }

  /** An invariant kept by single instructions is kept by model_step. */
  lemma StepKeeps(P: Program, inv: Invariant, s: State, log: seq<Event>, p: nat, s': State, events: seq<Event>)
    requires WellFormed(P) && KeptByPc(inv) && KeptByInstructions(P, inv)
    requires inv(s, log, -1) && Steps(P, s, p, s', events)
    ensures inv(s', log + events, -1)
  {
    hide Loop, KeptByInstructions, KeptByPc, WellFormed;
    var fuel :| StepProcess(P, s, p, fuel) == Report(s', events);
    LoopKeeps(P, inv, s, log, p, false, fuel);
  }

  // ----- The status machine -----

  lemma StepKeepsStatus(P: Program, s: State, p: nat, s': State, events: seq<Event>)
    requires WellFormed(P) && Steps(P, s, p, s', events)
    ensures s'.status == s.status && |s'.procs| == |s.procs|
  {
    var inv: Invariant := (t: State, log: seq<Event>, q: int) => t.status == s.status && |t.procs| == |s.procs|;
    assert KeptByPc(inv) && KeptByInstructions(P, inv);
    StepKeeps(P, inv, s, [], p, s', events);
  }

  lemma StepsExcludesCannotStep(P: Program, s: State, p: nat, s': State, events: seq<Event>)
    requires Steps(P, s, p, s', events)
    ensures !CannotStep(P, s, p)
  {
    hide StepProcess;
    if CannotStep(P, s, p) {
      var f :| StepProcess(P, s, p, f) == Report(s', events);
      var g :| StepProcess(P, s, p, g) == NoReport || StepProcess(P, s, p, g).NoSuchPc?;
      StepFuel(P, s, p, f, g);
    }
  }

  /**
   The status never falls and rises by at most one; in a running phase it rises exactly when no
   process can step, terminated or blocked alike.
   */
  lemma StatusMonotone(M: Model, s: State, s': State, events: seq<Event>)
    requires ValidModel(M) && Successor(M, s, s', events)
    ensures s.status <= s'.status <= s.status + 1 <= ENDED && |s'.procs| == |s.procs|
    ensures s.status == START || s.status == STARTING_MAIN ==> s'.status == s.status + 1
    ensures s.status == RUNNING_CONSTRUCTORS || s.status == RUNNING_MAIN ==>
              (s'.status == s.status + 1 <==> NoneSteps(M.program, s))
  {
    hide Steps, CannotStep, WellFormed;
    if s.status == RUNNING_CONSTRUCTORS || s.status == RUNNING_MAIN {
      if p: nat :| Steps(M.program, s, p, s', events) {
        StepKeepsStatus(M.program, s, p, s', events);
        StepsExcludesCannotStep(M.program, s, p, s', events);
        StepsInside(M.program, s, p, s', events);
        assert !NoneSteps(M.program, s);
      }
    }
  }

  lemma StepsInside(P: Program, s: State, p: nat, s': State, events: seq<Event>)
    requires Steps(P, s, p, s', events)
    ensures p < |s.procs|
  {
  }

  /** Along every run the status stays at most ENDED: ENDED_FAILURE is never entered. */
  lemma {:induction false} StatusInRange(M: Model, n: nat, s: State, log: seq<Event>)
    requires ValidModel(M) && Reachable(M, n, s, log)
    ensures s.status <= ENDED && |s.procs| == MAX_THREADS
  {
    hide Successor, ValidModel;
    if n > 0 {
      var s0, log0, events :| Reachable(M, n - 1, s0, log0) && Successor(M, s0, s, events) && log == log0 + events;
      StatusInRange(M, n - 1, s0, log0);
      StatusMonotone(M, s0, s, events);
    }
  }

  /** Where model_step terminates for every process, the states without a successor are the ended ones. */
  lemma OnlyEndedStatesAreFinal(M: Model, s: State, fuel: nat)
    requires |s.procs| == MAX_THREADS && StepsEnd(M, s, fuel) && s.status <= ENDED_FAILURE
    ensures (exists s' :: IsSuccessor(M, s, s')) <==> s.status != ENDED && s.status != ENDED_FAILURE
  {
    hide Steps, CannotStep, StepProcess;
    if s.status == START {
      var s' := StartFunction(s, M.constructors).(status := RUNNING_CONSTRUCTORS);
      assert Successor(M, s, s', []);
      assert IsSuccessor(M, s, s');
    } else if s.status == STARTING_MAIN {
      var s' := StartFunction(s, M.main).(status := RUNNING_MAIN);
      assert Successor(M, s, s', if M.main.Some? then [MainStarted(s.procs[0].tid)] else []);
      assert IsSuccessor(M, s, s');
    } else if s.status == RUNNING_CONSTRUCTORS || s.status == RUNNING_MAIN {
      ReportsAreSteps(M, s, fuel);
      RunningSuccessors(M, s);
      if NoneSteps(M.program, s) {
        assert IsSuccessor(M, s, s.(status := s.status + 1));
      } else {
        var s' :| ReportedBefore(M.program, s, MAX_THREADS, fuel, s');
        assert IsSuccessor(M, s, s');
      }
    }
  }

  /** A process waits in pthread_join for a thread that has no result. */
  predicate WaitsInJoin(P: Program, s: State, p: nat)
    requires p < |s.procs|
  {
    var q := s.procs[p];
    && q.pc.At? && Head(P, q.pc.block, q.pc.index)
    && var instr := P.blocks[q.pc.block][q.pc.index];
       && instr.ThreadJoin?
       && ReadResult(s.tres, Eval(q.regs[instr.dst := 0], instr.tid)).status == 0
  }

  /** A deadlock of joins counts as the end of the phase, just as termination does. */
  lemma BlockedJoinsEndThePhase(P: Program, s: State)
    requires forall p :: 0 <= p < |s.procs| ==> s.procs[p].pc == Halted || WaitsInJoin(P, s, p)
    ensures NoneSteps(P, s)
  {
    forall p: nat | p < |s.procs|
      ensures CannotStep(P, s, p)
    {
      if s.procs[p].pc == Halted {
        assert StepProcess(P, s, p, 0) == NoReport;
      } else {
        var b, i := s.procs[p].pc.block, s.procs[p].pc.index;
        assert ExecGroup(P, s, p, b, i) == Blocked by {
          hide Head;
          var s0 := SetPc(s, p, NextPc(P, b, End(P, b, i) - 1));
          assert Exec(P, s0, p, b, i) == Blocked;
        }
        hide ExecGroup, Emits, Head, End;
        assert StepProcess(P, s, p, 1) == NoReport;
      }
    }
  }

  // ----- Closed pcs in every reachable state -----

  lemma StepKeepsClosed(P: Program, s: State, p: nat, s': State, events: seq<Event>)
    requires WellFormed(P) && AllClosed(P, s) && Steps(P, s, p, s', events)
    ensures AllClosed(P, s')
  {
    hide Loop, AllClosed, WellFormed;
    var fuel :| StepProcess(P, s, p, fuel) == Report(s', events);
    LoopKeepsClosed(P, s, p, false, fuel);
  }

  /** In every state of every run, every pc is 0 or the first instruction of a group. */
  lemma {:induction false} ReachableIsClosed(M: Model, n: nat, s: State, log: seq<Event>)
    requires ValidModel(M) && Reachable(M, n, s, log)
    ensures AllClosed(M.program, s) && |s.procs| == MAX_THREADS
  {
    hide Successor, AllClosed, StepProcess, ValidModel;
    if n > 0 {
      var s0, log0, events :| Reachable(M, n - 1, s0, log0) && Successor(M, s0, s, events) && log == log0 + events;
      ReachableIsClosed(M, n - 1, s0, log0);
      SuccessorKeepsClosed(M, s0, s, events);
      StatusMonotone(M, s0, s, events);
    } else {
      InitialIsClosed(M);
    }
  }

  lemma InitialIsClosed(M: Model)
    ensures AllClosed(M.program, InitialState(M))
  {
  }

  lemma SuccessorKeepsClosed(M: Model, s: State, s': State, events: seq<Event>)
    requires ValidModel(M) && AllClosed(M.program, s) && Successor(M, s, s', events)
    ensures AllClosed(M.program, s')
  {
    hide Steps, NoneSteps, AllClosed, WellFormed;
    if p: nat :| Steps(M.program, s, p, s', events) {
      StepKeepsClosed(M.program, s, p, s', events);
    } else {
      OtherSuccessorsKeepClosed(M, s, s', events);
    }
  }

  lemma OtherSuccessorsKeepClosed(M: Model, s: State, s': State, events: seq<Event>)
    requires ValidModel(M) && AllClosed(M.program, s) && Successor(M, s, s', events)
    requires !exists p: nat :: Steps(M.program, s, p, s', events)
    ensures AllClosed(M.program, s')
  {
    hide Steps, NoneSteps, Head;
    assert ProcClosed(M.program, s.procs[0]);
    forall b | IsEntry(M.program, b)
      ensures Head(M.program, b, 0)
    {
      EntryIsHead(M.program, b);
    }
  }
}
