/**
 Merged stepping is a partial-order reduction that loses no outcome.

 The reference semantics interleaves single instructions of the processes. The emitted model_step
 runs whole groups and goes on until the next group that would emit for the second time. For a fixed
 set of threads with distinct ids, which may join each other, both reach the same all-terminated states,
 if no group goes on to a join or a memory access behind a join that stores a result. Soundness is below,
 completeness in Outcomes. IdleSlots, Regions and RunningIds take the theorem on to reachable states of all programs.
 */
module Reduction {
  import opened Machine
  import opened PcClosure

  // ----- The two transition systems -----

  /** The process can run one instruction. */
  predicate Enabled(P: Program, s: State, p: nat) {
    p < |s.procs| && s.procs[p].pc.At? && Inside(P, s.procs[p].pc.block, s.procs[p].pc.index)
  }

  /** Running one instruction of each process in `schedule` in turn leads from s to t. */
  predicate InstrRuns(P: Program, s: State, schedule: seq<nat>, t: State)
    decreases |schedule|
  {
    if schedule == [] then s == t
    else
      && Enabled(P, s, schedule[0])
      && InstrStep(P, s, schedule[0]).Next?
      && InstrRuns(P, InstrStep(P, s, schedule[0]).s, schedule[1..], t)
  }

  /** n reports of model_step lead from s to t. */
  ghost predicate MergedRuns(P: Program, s: State, n: nat, t: State)
    decreases n
  {
    if n == 0 then s == t
    else exists p: nat, s1, events :: Steps(P, s, p, s1, events) && MergedRuns(P, s1, n - 1, t)
  }

  predicate AllHalted(s: State) {
    forall p :: 0 <= p < |s.procs| ==> s.procs[p].pc == Halted
  }

  /** The process waits in a join. */
  predicate Waits(P: Program, s: State, p: nat) {
    Enabled(P, s, p) && InstrStep(P, s, p).Blocked?
  }

  /** Every process has terminated or waits in a join: the program is over, or in a deadlock. */
  predicate AllStuck(P: Program, s: State) {
    forall p :: 0 <= p < |s.procs| ==> s.procs[p].pc == Halted || Waits(P, s, p)
  }

  predicate DistinctIds(s: State) {
    forall p, q :: 0 <= p < q < |s.procs| ==> s.procs[p].tid != s.procs[q].tid
  }

  /** The instruction reads or writes shared memory; a join does when it is given a place for the result. */
  predicate Access(instr: Instr) {
    instr.Load? || instr.Store? || instr.CmpXchg? || JoinsForResult(instr)
  }

  /** The instruction works on its own process, or waits for another one to have returned. */
  predicate Quiet(instr: Instr) {
    !Access(instr) && !instr.ThreadCreate?
  }

  predicate JoinsForResult(instr: Instr) {
    instr.ThreadJoin? && instr.resultPtr != Const(0)
  }

  /** A run of single instructions that touches no memory and creates no threads. */
  predicate QuietRuns(P: Program, s: State, schedule: seq<nat>, t: State)
    decreases |schedule|
  {
    if schedule == [] then s == t
    else
      && Enabled(P, s, schedule[0])
      && Quiet(P.blocks[s.procs[schedule[0]].pc.block][s.procs[schedule[0]].pc.index])
      && InstrStep(P, s, schedule[0]).Next?
      && QuietRuns(P, InstrStep(P, s, schedule[0]).s, schedule[1..], t)
  }

  /** Behind a join that stores the result, the group at (b, i) has local instructions only. */
  predicate ResultJoinIsLast(P: Program, b: nat, i: nat)
    requires Inside(P, b, i)
  {
    forall k, j :: i <= k < j < End(P, b, i) && JoinsForResult(P.blocks[b][k]) ==> IsLocal(P.blocks[b][j])
  }

  /** A well-formed program that creates no threads, and in which no group accesses memory twice. */
  ghost predicate FixedThreads(P: Program) {
    && WellFormed(P)
    && (forall b, i {:trigger P.blocks[b][i]} :: 0 <= b < |P.blocks| && 0 <= i < |P.blocks[b]| ==> !P.blocks[b][i].ThreadCreate?)
    && (forall b: nat, i: nat :: Head(P, b, i) ==> ResultJoinIsLast(P, b, i))
  }

  predicate HasJoins(P: Program) {
    exists b, i {:trigger P.blocks[b][i]} :: 0 <= b < |P.blocks| && 0 <= i < |P.blocks[b]| && P.blocks[b][i].ThreadJoin?
  }

  /** No running process has an id with a result. */
  predicate NoneHasReturned(s: State) {
    forall p :: 0 <= p < |s.procs| && s.procs[p].pc != Halted ==> ReadResult(s.tres, s.procs[p].tid).status == 0
  }

  // ----- Every merged step is a sequence of instruction steps (any well-formed program) -----

  lemma PlainIgnoresPc(P: Program, s: State, p: nat, b: nat, i: nat, pc: Pc)
    requires p < |s.procs| && Inside(P, b, i) && Plain(P.blocks[b][i])
    ensures Exec(P, SetPc(s, p, pc), p, b, i) ==
            match Exec(P, s, p, b, i)
            case Blocked => Blocked
            case Next(s', events) => Next(SetPc(s', p, pc), events)
  {
    var r, r' := Exec(P, s, p, b, i), Exec(P, SetPc(s, p, pc), p, b, i);
    if IsLocal(P.blocks[b][i]) {
      LocalIgnoresPc(P, p, b, s.procs[p], P.blocks[b][i], pc);
    }
    hide ExecLocal;
    if r.Next? {
      assert r'.s.procs == SetPc(r.s, p, pc).procs;
    }
  }

  lemma LocalIgnoresPc(P: Program, p: nat, b: nat, q: Proc, instr: Instr, pc: Pc)
    requires IsLocal(instr) && Plain(instr)
    ensures var out := ExecLocal(P, p, b, q, instr);
            && ExecLocal(P, p, b, q.(pc := pc), instr) == out.(proc := out.proc.(pc := pc))
            && out.proc.tid == q.tid
  {
  }

  function Times(p: nat, n: nat): (ps: seq<nat>) { seq(n, _ => p) }

  lemma {:induction false} RunsAppend(P: Program, s: State, schedule: seq<nat>, s1: State, more: seq<nat>, t: State)
    requires InstrRuns(P, s, schedule, s1) && InstrRuns(P, s1, more, t)
    ensures InstrRuns(P, s, schedule + more, t)
    decreases |schedule|
  {
    hide InstrStep;
    if schedule == [] {
      assert schedule + more == more;
    } else {
      RunsAppend(P, InstrStep(P, s, schedule[0]).s, schedule[1..], s1, more, t);
      assert (schedule + more)[1..] == schedule[1..] + more;
    }
  }

  /** Instructions i..e with the pc set past them first are the same instructions one by one. */
  lemma {:induction false} RangeAsInstrs(P: Program, s: State, p: nat, b: nat, i: nat, e: nat)
    requires p < |s.procs| && b < |P.blocks| && i < e <= |P.blocks[b]| && s.procs[p].pc == At(b, i)
    requires forall k :: i <= k < e - 1 ==> Plain(P.blocks[b][k])
    requires ExecRange(P, SetPc(s, p, NextPc(P, b, e - 1)), p, b, i, e).Next?
    ensures InstrRuns(P, s, Times(p, e - i), ExecRange(P, SetPc(s, p, NextPc(P, b, e - 1)), p, b, i, e).s)
    decreases e - i
  {
    hide *;
    InstrThenRange(P, s, p, b, i, e);
    var last := NextPc(P, b, e - 1);
    var s1 := InstrStep(P, s, p).s;
    if i == e - 1 {
      NoMoreSteps(P, p, s1);
    } else {
      RangeAsInstrs(P, s1, p, b, i + 1, e);
    }
    OneStepMore(P, s, p, e - i, ExecRange(P, SetPc(s, p, last), p, b, i, e).s);
  }

  /** The first instruction of a group's range as a step of its own, and the rest of the range. */
  lemma InstrThenRange(P: Program, s: State, p: nat, b: nat, i: nat, e: nat)
    requires p < |s.procs| && b < |P.blocks| && i < e <= |P.blocks[b]| && s.procs[p].pc == At(b, i)
    requires i < e - 1 ==> Plain(P.blocks[b][i])
    requires ExecRange(P, SetPc(s, p, NextPc(P, b, e - 1)), p, b, i, e).Next?
    ensures Inside(P, b, i) && Inside(P, b, e - 1) && Enabled(P, s, p)
    ensures InstrStep(P, s, p).Next? && |InstrStep(P, s, p).s.procs| == |s.procs|
    ensures var last := NextPc(P, b, e - 1);
            var t, s1 := ExecRange(P, SetPc(s, p, last), p, b, i, e).s, InstrStep(P, s, p).s;
            if i == e - 1 then s1 == t
            else s1.procs[p].pc == At(b, i + 1) && ExecRange(P, SetPc(s1, p, last), p, b, i + 1, e).Next?
                 && ExecRange(P, SetPc(s1, p, last), p, b, i + 1, e).s == t
  {
    var last := NextPc(P, b, e - 1);
    var s0 := SetPc(s, p, last);
    hide Exec, ExecRange, Plain, InstrStep, NextPc;
    RangeUnfolds(P, s0, p, b, i, e);
    if i == e - 1 {
      EmptyRange(P, Exec(P, s0, p, b, i).s, p, b, e);
      LastInstrStep(P, s, p, b, i);
    } else {
      InnerInstrStep(P, s, p, b, i, last);
    }
  }

  lemma NoMoreSteps(P: Program, p: nat, s: State)
    ensures InstrRuns(P, s, Times(p, 0), s)
  {
  }

  lemma OneStepMore(P: Program, s: State, p: nat, n: nat, t: State)
    requires n > 0 && Enabled(P, s, p) && InstrStep(P, s, p).Next? && InstrRuns(P, InstrStep(P, s, p).s, Times(p, n - 1), t)
    ensures InstrRuns(P, s, Times(p, n), t)
  {
    hide InstrStep, Enabled;
    assert Times(p, n)[1..] == Times(p, n - 1);
  }

  lemma LastInstrStep(P: Program, s: State, p: nat, b: nat, i: nat)
    requires p < |s.procs| && Inside(P, b, i) && s.procs[p].pc == At(b, i)
    ensures Enabled(P, s, p) && InstrStep(P, s, p) == Exec(P, SetPc(s, p, NextPc(P, b, i)), p, b, i)
  {
    hide Exec;
  }

  /** A plain instruction inside a group, with the pc past the group and with the pc behind itself. */
  lemma InnerInstrStep(P: Program, s: State, p: nat, b: nat, i: nat, last: Pc)
    requires p < |s.procs| && Inside(P, b, i + 1) && s.procs[p].pc == At(b, i) && Plain(P.blocks[b][i])
    requires Exec(P, SetPc(s, p, last), p, b, i).Next?
    ensures Enabled(P, s, p) && InstrStep(P, s, p).Next? && InstrStep(P, s, p).s.procs[p].pc == At(b, i + 1)
    ensures SetPc(InstrStep(P, s, p).s, p, last) == Exec(P, SetPc(s, p, last), p, b, i).s
  {
    var s1 := SetPc(s, p, At(b, i + 1));
    assert SetPc(s1, p, last) == SetPc(s, p, last);
    PlainIgnoresPc(P, s1, p, b, i, last);
    PlainKeepsControl(P, s1, p, b, i);
    hide Exec, Plain;
    assert InstrStep(P, s, p) == Exec(P, s1, p, b, i);
  }

  lemma GroupAsInstrs(P: Program, s: State, p: nat)
    requires WellFormed(P) && Enabled(P, s, p)
    requires ExecGroup(P, s, p, s.procs[p].pc.block, s.procs[p].pc.index).Next?
    ensures exists schedule ::
              InstrRuns(P, s, schedule, ExecGroup(P, s, p, s.procs[p].pc.block, s.procs[p].pc.index).s)
  {
    hide End, ExecRange, InstrRuns, Plain;
    var b, i := s.procs[p].pc.block, s.procs[p].pc.index;
    var e := End(P, b, i);
    forall k | i <= k < e - 1
      ensures Plain(P.blocks[b][k])
    {
      InnerInstructionsArePlain(P, b, i, k);
    }
    RangeAsInstrs(P, s, p, b, i, e);
  }

  lemma EmptyRun(P: Program, s: State)
    ensures InstrRuns(P, s, [], s)
  {
  }

  lemma {:induction false} LoopAsInstrs(P: Program, s: State, p: nat, emitted: bool, fuel: nat) returns (schedule: seq<nat>)
    requires WellFormed(P) && p < |s.procs| && Loop(P, s, p, emitted, fuel).Report?
    ensures InstrRuns(P, s, schedule, Loop(P, s, p, emitted, fuel).s)
    decreases fuel
  {
    hide ExecGroup, Head, Emits, End, WellFormed, InstrStep, InstrRuns;
    schedule := [];
    EmptyRun(P, s);
    if s.procs[p].pc.At? {
      var b, i := s.procs[p].pc.block, s.procs[p].pc.index;
      var emits := Emits(P, b, i, End(P, b, i));
      if !(emits && emitted) {
        var r := ExecGroup(P, s, p, b, i);
        GroupAsInstrs(P, s, p);
        var first :| InstrRuns(P, s, first, r.s);
        var rest := LoopAsInstrs(P, r.s, p, emitted || emits, fuel - 1);
        RunsAppend(P, s, first, r.s, rest, Loop(P, r.s, p, emitted || emits, fuel - 1).s);
        schedule := first + rest;
      }
    }
  }

  /** Soundness: whatever merged stepping reaches, single instructions reach. */
  lemma {:induction false} MergedRunsAreInstrRuns(P: Program, s: State, n: nat, t: State) returns (schedule: seq<nat>)
    requires WellFormed(P) && MergedRuns(P, s, n, t)
    ensures InstrRuns(P, s, schedule, t)
    decreases n
  {
    hide Loop, WellFormed, InstrStep;
    if n == 0 {
      schedule := [];
    } else {
      var p: nat, s1, events :| Steps(P, s, p, s1, events) && MergedRuns(P, s1, n - 1, t);
      var fuel :| StepProcess(P, s, p, fuel) == Report(s1, events);
      var first := LoopAsInstrs(P, s, p, false, fuel);
      var rest := MergedRunsAreInstrRuns(P, s1, n - 1, t);
      RunsAppend(P, s, first, s1, rest, t);
      schedule := first + rest;
    }
  }
}
