/**
 The reduction theorem for programs that do create threads, from where they no longer do: the running
 threads are in a region of blocks that is closed under branches and calls and has no pthread_create.
 */
module Regions {
  import opened Machine
  import opened PcClosure
  import opened Reduction
  import opened Views
  import opened Deadlocks
  import opened IdleSlots
  import S = GlobalStatus

  // ----- Regions -----

  predicate TargetsInside(instr: Instr, region: set<nat>) {
    match instr
    case Br(target) => target in region
    case CondBr(_, ifTrue, ifFalse) => ifTrue in region && ifFalse in region
    case Call(_, entry, _) => entry in region
    case _ => true
  }

  /** Control that is in the region stays there. */
  predicate ClosedRegion(P: Program, region: set<nat>) {
    && (forall b :: b in region ==> b < |P.blocks|)
    && forall b, i {:trigger P.blocks[b][i]} :: b in region && b < |P.blocks| && 0 <= i < |P.blocks[b]| ==>
         TargetsInside(P.blocks[b][i], region)
  }

  /** A closed region that creates no threads and has no group that goes on behind a join for a result. */
  ghost predicate Region(P: Program, region: set<nat>) {
    && ClosedRegion(P, region)
    && forall b, i {:trigger P.blocks[b][i]} :: b in region && b < |P.blocks| && 0 <= i < |P.blocks[b]| ==>
         Simple(P.blocks[b][i]) && (Head(P, b, i) ==> ResultJoinIsLast(P, b, i))
  }

  predicate RegionHasJoins(P: Program, region: set<nat>) {
    exists b, i {:trigger P.blocks[b][i]} ::
      b in region && b < |P.blocks| && 0 <= i < |P.blocks[b]| && P.blocks[b][i].ThreadJoin?
  }

  predicate PcInRegion(pc: Pc, region: set<nat>) {
    pc.At? ==> pc.block in region
  }

  /** The process runs in the region and will return into it. */
  predicate InRegion(q: Proc, region: set<nat>) {
    PcInRegion(q.pc, region) && forall k :: 0 <= k < |q.stack| ==> PcInRegion(q.stack[k].pc, region)
  }

  predicate AllInRegion(s: State, region: set<nat>) {
    forall p :: 0 <= p < |s.procs| ==> InRegion(s.procs[p], region)
  }

  /** The program with all other blocks emptied. */
  function Restrict(P: Program, region: set<nat>): (R: Program)
    ensures |R.blocks| == |P.blocks|
    ensures forall b :: 0 <= b < |P.blocks| ==> R.blocks[b] == if b in region then P.blocks[b] else [Unreachable]
  {
    Program(seq(|P.blocks|, b requires 0 <= b < |P.blocks| => if b in region then P.blocks[b] else [Unreachable]))
  }

  lemma RestrictedIsWellFormed(P: Program, region: set<nat>)
    requires WellFormed(P) && Region(P, region)
    ensures WellFormed(Restrict(P, region))
  {
    var R := Restrict(P, region);
    hide Head, ResultJoinIsLast;
    forall b: nat, i: nat | b < |R.blocks| && i < |R.blocks[b]|
      ensures (IsTerminator(R.blocks[b][i]) <==> i == |R.blocks[b]| - 1) && TargetsExist(R, R.blocks[b][i])
    {
      if b in region {
        assert R.blocks[b][i] == P.blocks[b][i];
        assert TargetsExist(P, P.blocks[b][i]);
      }
    }
  }

  lemma RestrictedHasFixedThreads(P: Program, region: set<nat>)
    requires WellFormed(P) && Region(P, region)
    ensures FixedThreads(Restrict(P, region))
  {
    var R := Restrict(P, region);
    RestrictedIsWellFormed(P, region);
    hide WellFormed, End;
    forall b: nat, i: nat | b < |R.blocks| && i < |R.blocks[b]|
      ensures !R.blocks[b][i].ThreadCreate? && (Head(R, b, i) ==> ResultJoinIsLast(R, b, i))
    {
      if b in region {
        assert R.blocks[b][i] == P.blocks[b][i] && Simple(P.blocks[b][i]);
        SameGroups(P, region, b, i);
      }
    }
  }

  lemma RestrictedJoins(P: Program, region: set<nat>)
    ensures HasJoins(Restrict(P, region)) ==> RegionHasJoins(P, region)
  {
    var R := Restrict(P, region);
    if b, i :| 0 <= b < |R.blocks| && 0 <= i < |R.blocks[b]| && R.blocks[b][i].ThreadJoin? {
      assert P.blocks[b][i].ThreadJoin?;
    }
  }

  /** In the region, grouping is the same. */
  lemma SameGroups(P: Program, region: set<nat>, b: nat, i: nat)
    requires b in region && b < |P.blocks|
    ensures var R := Restrict(P, region);
            && R.blocks[b] == P.blocks[b] && (Inside(R, b, i) <==> Inside(P, b, i)) && (Head(R, b, i) <==> Head(P, b, i))
            && (Inside(P, b, i) ==>
                  && End(R, b, i) == End(P, b, i) && NextPc(R, b, i) == NextPc(P, b, i)
                  && Emits(R, b, i, End(R, b, i)) == Emits(P, b, i, End(P, b, i)))
  {
    assert Ops(Restrict(P, region), b) == Ops(P, b);
  }

  lemma SameExec(P: Program, region: set<nat>, s: State, p: nat, b: nat, i: nat)
    requires Region(P, region) && b in region && Inside(P, b, i) && p < |s.procs| && AllInRegion(s, region)
    ensures var R := Restrict(P, region);
            var r := Exec(P, s, p, b, i);
            && Inside(R, b, i) && Exec(R, s, p, b, i) == r && (r.Next? ==> AllInRegion(r.s, region))
  {
    var R, instr, q := Restrict(P, region), P.blocks[b][i], s.procs[p];
    assert R.blocks[b][i] == instr && Simple(instr) && TargetsInside(instr, region);
    assert InRegion(q, region);
    if IsLocal(instr) {
      SameLocal(P, region, p, b, q, instr);
    }
    hide ExecLocal;
  }

  lemma SameLocal(P: Program, region: set<nat>, p: nat, b: nat, q: Proc, instr: Instr)
    requires Region(P, region) && IsLocal(instr) && TargetsInside(instr, region) && InRegion(q, region)
    ensures ExecLocal(Restrict(P, region), p, b, q, instr) == ExecLocal(P, p, b, q, instr)
    ensures InRegion(ExecLocal(P, p, b, q, instr).proc, region)
  {
    LocalStays(P, region, p, b, q, instr);
    hide EnterBlock, EvalAll, PassArgs, InRegion;
  }

  lemma LocalStays(P: Program, region: set<nat>, p: nat, b: nat, q: Proc, instr: Instr)
    requires IsLocal(instr) && TargetsInside(instr, region) && InRegion(q, region)
    ensures InRegion(ExecLocal(P, p, b, q, instr).proc, region)
  {
    hide EnterBlock, EvalAll, PassArgs;
  }

  lemma SetPcInRegion(s: State, region: set<nat>, p: nat, pc: Pc)
    requires p < |s.procs| && AllInRegion(s, region) && PcInRegion(pc, region)
    ensures AllInRegion(SetPc(s, p, pc), region)
  {
    assert InRegion(s.procs[p], region);
  }

  lemma {:induction false} SameRange(P: Program, region: set<nat>, s: State, p: nat, b: nat, i: nat, e: nat)
    requires Region(P, region) && b in region && b < |P.blocks| && i <= e <= |P.blocks[b]|
    requires p < |s.procs| && AllInRegion(s, region)
    ensures var R := Restrict(P, region);
            var r := ExecRange(P, s, p, b, i, e);
            && R.blocks[b] == P.blocks[b] && ExecRange(R, s, p, b, i, e) == r && (r.Next? ==> AllInRegion(r.s, region))
    decreases e - i
  {
    hide Exec, Region, AllInRegion;
    if i < e {
      SameExec(P, region, s, p, b, i);
      if Exec(P, s, p, b, i).Next? {
        SameRange(P, region, Exec(P, s, p, b, i).s, p, b, i + 1, e);
      }
    }
  }

  lemma SameGroup(P: Program, region: set<nat>, s: State, p: nat, b: nat, i: nat)
    requires Region(P, region) && b in region && Inside(P, b, i) && p < |s.procs| && AllInRegion(s, region)
    ensures var R := Restrict(P, region);
            var r := ExecGroup(P, s, p, b, i);
            && Inside(R, b, i) && ExecGroup(R, s, p, b, i) == r && (r.Next? ==> AllInRegion(r.s, region))
  {
    hide ExecRange, Region, AllInRegion, Emits, End, Head;
    SameGroups(P, region, b, i);
    var e := End(P, b, i);
    SameGroups(P, region, b, e - 1);
    var s0 := SetPc(s, p, NextPc(P, b, e - 1));
    SetPcInRegion(s, region, p, NextPc(P, b, e - 1));
    SameRange(P, region, s0, p, b, i, e);
  }

  lemma SameGoesOn(P: Program, region: set<nat>, pc: Pc, emitted: bool, fuel: nat)
    requires ClosedRegion(P, region) && PcInRegion(pc, region)
    ensures GoesOn(Restrict(P, region), pc, emitted, fuel) <==> GoesOn(P, pc, emitted, fuel)
    ensures GoesOn(P, pc, emitted, fuel) ==>
              && pc.block in region && Inside(P, pc.block, pc.index) && Inside(Restrict(P, region), pc.block, pc.index)
              && var R := Restrict(P, region);
                 Emits(R, pc.block, pc.index, End(R, pc.block, pc.index)) == Emits(P, pc.block, pc.index, End(P, pc.block, pc.index))
  {
    hide Head, Emits, End, Restrict;
    if pc.At? {
      SameGroups(P, region, pc.block, pc.index);
    }
  }

  lemma SameStop(R: Program, P: Program, region: set<nat>, s: State, p: nat, emitted: bool, fuel: nat)
    requires IsRestriction(R, P, region) && Region(P, region) && p < |s.procs| && AllInRegion(s, region)
    requires !GoesOn(P, s.procs[p].pc, emitted, fuel)
    ensures Loop(R, s, p, emitted, fuel) == Loop(P, s, p, emitted, fuel)
    ensures Loop(P, s, p, emitted, fuel).Report? ==> Loop(P, s, p, emitted, fuel).s == s
  {
    RegionPc(s, region, p);
    assert ClosedRegion(P, region);
    hide Head, Emits, End, Restrict, ExecGroup, After, Region, AllInRegion;
    if s.procs[p].pc.At? {
      SameGroups(P, region, s.procs[p].pc.block, s.procs[p].pc.index);
    }
  }

  lemma RegionPc(s: State, region: set<nat>, p: nat)
    requires AllInRegion(s, region) && p < |s.procs|
    ensures PcInRegion(s.procs[p].pc, region)
  {
    assert InRegion(s.procs[p], region);
  }

  lemma AfterKeepsState(events: seq<Event>, o: Outcome)
    ensures After(events, o).Report? <==> o.Report?
    ensures o.Report? ==> After(events, o).s == o.s
  {
  }

  ghost predicate IsRestriction(R: Program, P: Program, region: set<nat>) {
    R == Restrict(P, region)
  }

  lemma SameGoingOn(R: Program, P: Program, region: set<nat>, s: State, p: nat, emitted: bool, fuel: nat)
    requires IsRestriction(R, P, region) && Region(P, region) && p < |s.procs| && AllInRegion(s, region)
    requires GoesOn(P, s.procs[p].pc, emitted, fuel)
    ensures var b, i := s.procs[p].pc.block, s.procs[p].pc.index;
            var r := ExecGroup(P, s, p, b, i);
            var emitted' := emitted || Emits(P, b, i, End(P, b, i));
            if r.Blocked? then Loop(P, s, p, emitted, fuel) == NoReport == Loop(R, s, p, emitted, fuel)
            else
              && AllInRegion(r.s, region)
              && Loop(P, s, p, emitted, fuel) == After(r.events, Loop(P, r.s, p, emitted', fuel - 1))
              && Loop(R, s, p, emitted, fuel) == After(r.events, Loop(R, r.s, p, emitted', fuel - 1))
  {
    var pc := s.procs[p].pc;
    assert ClosedRegion(P, region);
    RegionPc(s, region, p);
    hide Region, AllInRegion, Loop, ExecGroup, Restrict, Emits, End, After, Head;
    SameGoesOn(P, region, pc, emitted, fuel);
    SameGroup(P, region, s, p, pc.block, pc.index);
    LoopUnfolds(P, s, p, emitted, fuel);
    LoopUnfolds(R, s, p, emitted, fuel);
  }

  lemma {:induction false} SameLoop(R: Program, P: Program, region: set<nat>, s: State, p: nat, emitted: bool, fuel: nat)
    requires IsRestriction(R, P, region) && Region(P, region) && p < |s.procs| && AllInRegion(s, region)
    ensures Loop(R, s, p, emitted, fuel) == Loop(P, s, p, emitted, fuel)
    ensures Loop(P, s, p, emitted, fuel).Report? ==> AllInRegion(Loop(P, s, p, emitted, fuel).s, region)
    decreases fuel
  {
    hide *;
    if !GoesOn(P, s.procs[p].pc, emitted, fuel) {
      SameStop(R, P, region, s, p, emitted, fuel);
    } else {
      GoesOnInside(P, s.procs[p].pc, emitted, fuel);
      SameGoingOn(R, P, region, s, p, emitted, fuel);
      var b, i := s.procs[p].pc.block, s.procs[p].pc.index;
      var r, emitted' := ExecGroup(P, s, p, b, i), emitted || Emits(P, b, i, End(P, b, i));
      if r.Next? {
        SameLoop(R, P, region, r.s, p, emitted', fuel - 1);
        AfterKeepsState(r.events, Loop(P, r.s, p, emitted', fuel - 1));
      }
    }
  }

  lemma SameSteps(P: Program, region: set<nat>, s: State, p: nat, s': State, events: seq<Event>)
    requires Region(P, region) && AllInRegion(s, region)
    ensures Steps(Restrict(P, region), s, p, s', events) <==> Steps(P, s, p, s', events)
    ensures Steps(P, s, p, s', events) ==> AllInRegion(s', region)
  {
    hide Loop, Region, AllInRegion;
    if p < |s.procs| {
      forall fuel: nat
        ensures StepProcess(Restrict(P, region), s, p, fuel) == StepProcess(P, s, p, fuel)
        ensures StepProcess(P, s, p, fuel).Report? ==> AllInRegion(StepProcess(P, s, p, fuel).s, region)
      {
        SameLoop(Restrict(P, region), P, region, s, p, false, fuel);
      }
    }
  }

  lemma {:induction false} SameMergedRuns(P: Program, region: set<nat>, s: State, n: nat, t: State)
    requires Region(P, region) && AllInRegion(s, region)
    ensures MergedRuns(Restrict(P, region), s, n, t) <==> MergedRuns(P, s, n, t)
    ensures MergedRuns(P, s, n, t) ==> AllInRegion(t, region)
    decreases n
  {
    hide Steps, Region, AllInRegion;
    if n > 0 {
      forall p: nat, s1, events
        ensures Steps(Restrict(P, region), s, p, s1, events) <==> Steps(P, s, p, s1, events)
        ensures Steps(P, s, p, s1, events) ==>
                  && (MergedRuns(Restrict(P, region), s1, n - 1, t) <==> MergedRuns(P, s1, n - 1, t))
                  && (MergedRuns(P, s1, n - 1, t) ==> AllInRegion(t, region))
      {
        SameSteps(P, region, s, p, s1, events);
        if Steps(P, s, p, s1, events) {
          SameMergedRuns(P, region, s1, n - 1, t);
        }
      }
    }
  }

  lemma SameInstrStep(P: Program, region: set<nat>, s: State, p: nat)
    requires Region(P, region) && AllInRegion(s, region)
    ensures Enabled(Restrict(P, region), s, p) <==> Enabled(P, s, p)
    ensures Enabled(P, s, p) ==>
              && InstrStep(Restrict(P, region), s, p) == InstrStep(P, s, p)
              && (InstrStep(P, s, p).Next? ==> AllInRegion(InstrStep(P, s, p).s, region))
  {
    if p < |s.procs| && s.procs[p].pc.At? {
      assert InRegion(s.procs[p], region);
      var b, i := s.procs[p].pc.block, s.procs[p].pc.index;
      SameGroups(P, region, b, i);
      hide Exec, Region, AllInRegion, Head, End, Emits;
      if Inside(P, b, i) {
        SetPcInRegion(s, region, p, NextPc(P, b, i));
        SameExec(P, region, SetPc(s, p, NextPc(P, b, i)), p, b, i);
      }
    }
  }

  lemma {:induction false} SameInstrRuns(P: Program, region: set<nat>, s: State, schedule: seq<nat>, t: State)
    requires Region(P, region) && AllInRegion(s, region)
    ensures InstrRuns(Restrict(P, region), s, schedule, t) <==> InstrRuns(P, s, schedule, t)
    ensures InstrRuns(P, s, schedule, t) ==> AllInRegion(t, region)
    decreases |schedule|
  {
    hide InstrStep, Region, AllInRegion;
    if schedule != [] {
      SameInstrStep(P, region, s, schedule[0]);
      if Enabled(P, s, schedule[0]) && InstrStep(P, s, schedule[0]).Next? {
        SameInstrRuns(P, region, InstrStep(P, s, schedule[0]).s, schedule[1..], t);
      }
    }
  }

  lemma ClosedInRegion(P: Program, region: set<nat>, s: State)
    requires Region(P, region) && AllInRegion(s, region) && AllClosed(P, s)
    ensures AllClosed(Restrict(P, region), s)
  {
    forall b: nat, i: nat | b in region && b < |P.blocks|
      ensures Head(Restrict(P, region), b, i) <==> Head(P, b, i)
    {
      SameGroups(P, region, b, i);
    }
    hide Head;
    forall p | 0 <= p < |s.procs|
      ensures ProcClosed(Restrict(P, region), s.procs[p])
    {
      assert InRegion(s.procs[p], region) && ProcClosed(P, s.procs[p]);
    }
  }

  // ----- Getting stuck -----

  lemma {:induction false} SameQuietRuns(P: Program, region: set<nat>, s: State, schedule: seq<nat>, t: State)
    requires Region(P, region) && AllInRegion(s, region)
    ensures QuietRuns(Restrict(P, region), s, schedule, t) <==> QuietRuns(P, s, schedule, t)
    ensures QuietRuns(P, s, schedule, t) ==> AllInRegion(t, region)
    decreases |schedule|
  {
    hide InstrStep, Region, Quiet;
    if schedule != [] {
      SameInstrStep(P, region, s, schedule[0]);
      if Enabled(P, s, schedule[0]) {
        RegionPc(s, region, schedule[0]);
        hide AllInRegion;
        if InstrStep(P, s, schedule[0]).Next? {
          SameQuietRuns(P, region, InstrStep(P, s, schedule[0]).s, schedule[1..], t);
        }
      }
    }
  }

  lemma SameStuck(P: Program, region: set<nat>, t: State)
    requires Region(P, region) && AllInRegion(t, region)
    ensures AllStuck(Restrict(P, region), t) <==> AllStuck(P, t)
  {
    hide InstrStep, Region, AllInRegion, Restrict, Enabled;
    forall p: nat | p < |t.procs|
      ensures Waits(Restrict(P, region), t, p) <==> Waits(P, t, p)
    {
      SameInstrStep(P, region, t, p);
    }
  }

  lemma SameNoneSteps(P: Program, region: set<nat>, s: State)
    requires Region(P, region) && AllInRegion(s, region)
    ensures S.NoneSteps(Restrict(P, region), s) <==> S.NoneSteps(P, s)
  {
    hide Loop, Region, AllInRegion, Restrict;
    forall p: nat, fuel: nat | p < |s.procs|
      ensures StepProcess(Restrict(P, region), s, p, fuel) == StepProcess(P, s, p, fuel)
    {
      SameLoop(Restrict(P, region), P, region, s, p, false, fuel);
    }
    hide StepProcess;
    forall p: nat | p < |s.procs|
      ensures CannotStep(Restrict(P, region), s, p) <==> CannotStep(P, s, p)
    {
    }
  }

  lemma SameStuckBefore(P: Program, region: set<nat>, m: State, t: State)
    requires Region(P, region) && AllInRegion(m, region)
    ensures StuckBefore(Restrict(P, region), m, t) <==> StuckBefore(P, m, t)
    ensures StuckBefore(P, m, t) ==> AllInRegion(t, region)
  {
    hide Region, AllInRegion, Restrict, QuietRuns, S.NoneSteps;
    SameNoneSteps(P, region, m);
    forall quiet
      ensures QuietRuns(Restrict(P, region), m, quiet, t) <==> QuietRuns(P, m, quiet, t)
      ensures QuietRuns(P, m, quiet, t) ==> AllInRegion(t, region)
    {
      SameQuietRuns(P, region, m, quiet, t);
    }
  }

  // ----- The theorem -----

  /**
   The reduction preserves outcomes, in any well-formed program. From a state with closed pcs, in which
   no two running processes have the same thread id and all of them are in a region that creates no
   threads, merged model_step runs reach exactly the all-terminated states that interleavings of single
   instructions reach. If the region joins threads, none that runs may have returned under its id before.
   */
  lemma OutcomesPreservedInRegion(P: Program, region: set<nat>, s: State, t: State)
    requires WellFormed(P) && Region(P, region) && AllInRegion(s, region)
    requires AllClosed(P, s) && DistinctRunningIds(s) && AllHalted(t)
    requires RegionHasJoins(P, region) ==> NoneHasReturned(s)
    ensures (exists n :: MergedRuns(P, s, n, t)) <==> (exists schedule :: InstrRuns(P, s, schedule, t))
  {
    var R := Restrict(P, region);
    RestrictedHasFixedThreads(P, region);
    RestrictedJoins(P, region);
    ClosedInRegion(P, region, s);
    hide *;
    AllOutcomesPreserved(R, s, t);
    if n: nat :| MergedRuns(P, s, n, t) {
      SameMergedRuns(P, region, s, n, t);
      var schedule :| InstrRuns(R, s, schedule, t);
      SameInstrRuns(P, region, s, schedule, t);
    }
    if schedule :| InstrRuns(P, s, schedule, t) {
      SameInstrRuns(P, region, s, schedule, t);
      var n: nat :| MergedRuns(R, s, n, t);
      SameMergedRuns(P, region, s, n, t);
    }
  }

  /**
   The reduction preserves deadlocks, in any well-formed program: from such a state, interleavings of single
   instructions get stuck in t exactly if merged model_step runs get stuck before t.
   */
  lemma DeadlocksPreservedInRegion(P: Program, region: set<nat>, s: State, t: State)
    requires WellFormed(P) && Region(P, region) && AllInRegion(s, region)
    requires AllClosed(P, s) && DistinctRunningIds(s) && AllStuck(P, t)
    requires RegionHasJoins(P, region) ==> NoneHasReturned(s)
    ensures (exists schedule :: InstrRuns(P, s, schedule, t)) <==> (exists n, m :: MergedRuns(P, s, n, m) && StuckBefore(P, m, t))
  {
    var R := Restrict(P, region);
    hide *;
    RestrictedHasFixedThreads(P, region);
    RestrictedJoins(P, region);
    ClosedInRegion(P, region, s);
    if schedule :| InstrRuns(P, s, schedule, t) {
      SameInstrRuns(P, region, s, schedule, t);
      SameStuck(P, region, t);
      AllDeadlocksPreserved(R, s, t);
      var n: nat, m :| MergedRuns(R, s, n, m) && StuckBefore(R, m, t);
      SameMergedRuns(P, region, s, n, m);
      SameStuckBefore(P, region, m, t);
    }
    if n: nat, m :| MergedRuns(P, s, n, m) && StuckBefore(P, m, t) {
      SameMergedRuns(P, region, s, n, m);
      SameStuckBefore(P, region, m, t);
      StuckBeforeRuns(R, s, n, m, t);
      var schedule :| InstrRuns(R, s, schedule, t);
      SameInstrRuns(P, region, s, schedule, t);
    }
  }

  /** Where no process can step, there is a deadlock of single instructions, or all processes have terminated. */
  lemma StuckInRegionIsDeadlock(P: Program, region: set<nat>, m: State) returns (t: State)
    requires WellFormed(P) && Region(P, region) && AllInRegion(m, region)
    requires AllClosed(P, m) && DistinctRunningIds(m) && S.NoneSteps(P, m)
    ensures AllStuck(P, t) && StuckBefore(P, m, t)
  {
    hide *;
    RestrictedHasFixedThreads(P, region);
    ClosedInRegion(P, region, m);
    SameNoneSteps(P, region, m);
    t := StuckRunningIsDeadlock(Restrict(P, region), m);
    SameStuckBefore(P, region, m, t);
    SameStuck(P, region, t);
  }
}
