/**
 The reduction theorem for states as they occur: slots that no thread occupies take no step, whatever
 thread ids they were left with. Ids of idle slots can be changed without changing any run.
 */
module IdleSlots {
  import opened Machine
  import opened PcClosure
  import opened Reduction
  import opened Views
  import opened Outcomes
  import opened Deadlocks
  import S = GlobalStatus

  /** No two running processes have the same thread id. */
  predicate DistinctRunningIds(s: State) {
    forall p, q :: 0 <= p < q < |s.procs| && s.procs[p].pc != Halted && s.procs[q].pc != Halted ==>
      s.procs[p].tid != s.procs[q].tid
  }

  function Rename(s: State, ids: seq<nat>): (s': State)
    requires |ids| == |s.procs|
    ensures |s'.procs| == |s.procs|
  {
    s.(procs := seq(|s.procs|, p requires 0 <= p < |s.procs| => s.procs[p].(tid := ids[p])))
  }

  function Ids(s: State): (ids: seq<nat>)
    ensures |ids| == |s.procs| && forall p :: 0 <= p < |ids| ==> ids[p] == s.procs[p].tid
  {
    seq(|s.procs|, p requires 0 <= p < |s.procs| => s.procs[p].tid)
  }

  /** The renaming leaves the ids of running processes alone. */
  predicate KeepsRunning(s: State, ids: seq<nat>) {
    |ids| == |s.procs| && forall p :: 0 <= p < |ids| && s.procs[p].pc != Halted ==> ids[p] == s.procs[p].tid
  }

  lemma RenameBack(s: State, ids: seq<nat>)
    requires |ids| == |s.procs|
    ensures Rename(Rename(s, ids), Ids(s)) == s
  {
  }

  function RenameResult(r: Result, ids: seq<nat>): Result
    requires r.Next? ==> |ids| == |r.s.procs|
  {
    if r.Next? then Next(Rename(r.s, ids), r.events) else r
  }

  function RenameOutcome(o: Outcome, ids: seq<nat>): Outcome
    requires o.Report? ==> |ids| == |o.s.procs|
  {
    if o.Report? then Report(Rename(o.s, ids), o.events) else o
  }

  /** s' differs from s only in p's slot, and not in its id. */
  predicate OnlySlot(s: State, s': State, p: nat) {
    p < |s.procs| == |s'.procs| && s'.procs == s.procs[p := s'.procs[p]] && s'.procs[p].tid == s.procs[p].tid
  }

  lemma SetPcRenames(s: State, p: nat, pc: Pc, ids: seq<nat>)
    requires p < |s.procs| == |ids|
    ensures SetPc(Rename(s, ids), p, pc) == Rename(SetPc(s, p, pc), ids)
    ensures OnlySlot(s, SetPc(s, p, pc), p)
  {
  }

  lemma ExecRenames(P: Program, s: State, p: nat, b: nat, i: nat, ids: seq<nat>)
    requires p < |s.procs| == |ids| && ids[p] == s.procs[p].tid && Inside(P, b, i) && Simple(P.blocks[b][i])
    ensures var r := Exec(P, s, p, b, i);
            (r.Next? ==> OnlySlot(s, r.s, p)) && Exec(P, Rename(s, ids), p, b, i) == RenameResult(r, ids)
  {
    var r := Exec(P, s, p, b, i);
    assert Rename(s, ids).procs[p] == s.procs[p];
    LocalKeepsId(P, p, b, s.procs[p], P.blocks[b][i]);
    hide ExecLocal, ExecMemory;
    if r.Next? {
      assert Rename(r.s, ids).procs == Rename(s, ids).procs[p := r.s.procs[p]];
    }
  }

  lemma LocalKeepsId(P: Program, p: nat, b: nat, q: Proc, instr: Instr)
    ensures IsLocal(instr) ==> ExecLocal(P, p, b, q, instr).proc.tid == q.tid
    ensures instr.Load? || instr.Store? || instr.CmpXchg? ==> forall mem :: ExecMemory(q, mem, instr).0.tid == q.tid
  {
  }

  lemma {:induction false} RangeRenames(P: Program, s: State, p: nat, b: nat, i: nat, e: nat, ids: seq<nat>)
    requires p < |s.procs| == |ids| && ids[p] == s.procs[p].tid && b < |P.blocks| && i <= e <= |P.blocks[b]|
    requires FixedThreads(P)
    ensures var r := ExecRange(P, s, p, b, i, e);
            (r.Next? ==> OnlySlot(s, r.s, p)) && ExecRange(P, Rename(s, ids), p, b, i, e) == RenameResult(r, ids)
    decreases e - i
  {
    if i < e {
      assert Simple(P.blocks[b][i]);
      ExecRenames(P, s, p, b, i, ids);
      hide Exec, Rename, FixedThreads;
      if Exec(P, s, p, b, i).Next? {
        RangeRenames(P, Exec(P, s, p, b, i).s, p, b, i + 1, e, ids);
      }
    }
  }

  lemma GroupRenames(P: Program, s: State, p: nat, b: nat, i: nat, ids: seq<nat>)
    requires p < |s.procs| == |ids| && ids[p] == s.procs[p].tid && Inside(P, b, i) && FixedThreads(P)
    ensures var r := ExecGroup(P, s, p, b, i);
            (r.Next? ==> OnlySlot(s, r.s, p)) && ExecGroup(P, Rename(s, ids), p, b, i) == RenameResult(r, ids)
  {
    hide ExecRange, Rename, End;
    var e := End(P, b, i);
    SetPcRenames(s, p, NextPc(P, b, e - 1), ids);
    RangeRenames(P, SetPc(s, p, NextPc(P, b, e - 1)), p, b, i, e, ids);
  }

  /** Only p's slot changes in a model_step of p. */
  lemma {:induction false} LoopKeepsSlots(P: Program, s: State, p: nat, emitted: bool, fuel: nat)
    requires p < |s.procs| && FixedThreads(P)
    ensures var o := Loop(P, s, p, emitted, fuel); o.Report? ==> OnlySlot(s, o.s, p)
    decreases fuel
  {
    hide ExecGroup, FixedThreads, Emits, End, Head;
    if s.procs[p].pc.At? && Head(P, s.procs[p].pc.block, s.procs[p].pc.index) && fuel > 0 {
      var b, i := s.procs[p].pc.block, s.procs[p].pc.index;
      var emits := Emits(P, b, i, End(P, b, i));
      if !(emits && emitted) {
        GroupRenames(P, s, p, b, i, Ids(s));
        if ExecGroup(P, s, p, b, i).Next? {
          LoopKeepsSlots(P, ExecGroup(P, s, p, b, i).s, p, emitted || emits, fuel - 1);
        }
      }
    }
  }

  /** The loop of model_step runs another group. */
  predicate GoesOn(P: Program, pc: Pc, emitted: bool, fuel: nat) {
    pc.At? && Head(P, pc.block, pc.index) && fuel > 0
    && !(emitted && Emits(P, pc.block, pc.index, End(P, pc.block, pc.index)))
  }

  lemma LoopUnfolds(P: Program, s: State, p: nat, emitted: bool, fuel: nat)
    requires p < |s.procs| && GoesOn(P, s.procs[p].pc, emitted, fuel)
    ensures var b, i := s.procs[p].pc.block, s.procs[p].pc.index;
            var r := ExecGroup(P, s, p, b, i);
            Loop(P, s, p, emitted, fuel) ==
              if r.Blocked? then NoReport else After(r.events, Loop(P, r.s, p, emitted || Emits(P, b, i, End(P, b, i)), fuel - 1))
  {
    hide ExecGroup, FixedThreads, Emits, End, Head, After;
  }

  lemma LoopStopsRename(P: Program, s: State, p: nat, emitted: bool, fuel: nat, ids: seq<nat>)
    requires p < |s.procs| == |ids| && ids[p] == s.procs[p].tid && !GoesOn(P, s.procs[p].pc, emitted, fuel)
    ensures Loop(P, Rename(s, ids), p, emitted, fuel) == RenameOutcome(Loop(P, s, p, emitted, fuel), ids)
  {
    assert Rename(s, ids).procs[p] == s.procs[p];
    hide ExecGroup, FixedThreads, Emits, End, Head, After, Rename;
  }

  lemma GoingOnRenames(P: Program, s: State, p: nat, emitted: bool, fuel: nat, ids: seq<nat>)
    requires p < |s.procs| == |ids| && ids[p] == s.procs[p].tid && FixedThreads(P) && GoesOn(P, s.procs[p].pc, emitted, fuel)
    ensures var b, i := s.procs[p].pc.block, s.procs[p].pc.index;
            var r := ExecGroup(P, s, p, b, i);
            var emitted' := emitted || Emits(P, b, i, End(P, b, i));
            if r.Blocked? then Loop(P, s, p, emitted, fuel) == NoReport == Loop(P, Rename(s, ids), p, emitted, fuel)
            else
              && |r.s.procs| == |ids| && r.s.procs[p].tid == ids[p]
              && Loop(P, s, p, emitted, fuel) == After(r.events, Loop(P, r.s, p, emitted', fuel - 1))
              && Loop(P, Rename(s, ids), p, emitted, fuel) == After(r.events, Loop(P, Rename(r.s, ids), p, emitted', fuel - 1))
  {
    assert Rename(s, ids).procs[p] == s.procs[p];
    hide Loop, ExecGroup, Rename, FixedThreads, Emits, End, After;
    GroupRenames(P, s, p, s.procs[p].pc.block, s.procs[p].pc.index, ids);
    LoopUnfolds(P, s, p, emitted, fuel);
    LoopUnfolds(P, Rename(s, ids), p, emitted, fuel);
  }

  lemma AfterRenames(events: seq<Event>, o: Outcome, ids: seq<nat>)
    requires o.Report? ==> |ids| == |o.s.procs|
    ensures RenameOutcome(After(events, o), ids) == After(events, RenameOutcome(o, ids))
  {
    hide Rename;
  }

  lemma NoReportRenames(ids: seq<nat>)
    ensures RenameOutcome(NoReport, ids) == NoReport
  {
  }

  lemma {:induction false} LoopRenames(P: Program, s: State, p: nat, emitted: bool, fuel: nat, ids: seq<nat>)
    requires p < |s.procs| == |ids| && ids[p] == s.procs[p].tid && FixedThreads(P)
    ensures Loop(P, Rename(s, ids), p, emitted, fuel) == RenameOutcome(Loop(P, s, p, emitted, fuel), ids)
    decreases fuel
  {
    hide *;
    if !GoesOn(P, s.procs[p].pc, emitted, fuel) {
      LoopStopsRename(P, s, p, emitted, fuel, ids);
    } else {
      GoesOnInside(P, s.procs[p].pc, emitted, fuel);
      var b, i := s.procs[p].pc.block, s.procs[p].pc.index;
      var s1, emitted' := ExecGroup(P, s, p, b, i), emitted || Emits(P, b, i, End(P, b, i));
      GoingOnRenames(P, s, p, emitted, fuel, ids);
      if s1.Next? {
        LoopRenames(P, s1.s, p, emitted', fuel - 1, ids);
        AfterRenames(s1.events, Loop(P, s1.s, p, emitted', fuel - 1), ids);
      } else {
        NoReportRenames(ids);
      }
    }
  }

  lemma GoesOnInside(P: Program, pc: Pc, emitted: bool, fuel: nat)
    requires GoesOn(P, pc, emitted, fuel)
    ensures pc.At? && Inside(P, pc.block, pc.index) && pc.block < |P.blocks| && fuel > 0
    ensures pc.index <= End(P, pc.block, pc.index) <= |P.blocks[pc.block]|
  {
  }

  lemma StepsRename(P: Program, s: State, p: nat, s': State, events: seq<Event>, ids: seq<nat>)
    requires FixedThreads(P) && KeepsRunning(s, ids) && Steps(P, s, p, s', events)
    ensures KeepsRunning(s', ids) && Steps(P, Rename(s, ids), p, Rename(s', ids), events)
  {
    hide Loop, FixedThreads;
    var fuel :| StepProcess(P, s, p, fuel) == Report(s', events);
    LoopRenames(P, s, p, false, fuel, ids);
    LoopKeepsSlots(P, s, p, false, fuel);
    assert StepProcess(P, Rename(s, ids), p, fuel) == Report(Rename(s', ids), events);
  }

  lemma {:induction false} MergedRunsRename(P: Program, s: State, n: nat, t: State, ids: seq<nat>)
    requires FixedThreads(P) && KeepsRunning(s, ids) && MergedRuns(P, s, n, t)
    ensures KeepsRunning(t, ids) && MergedRuns(P, Rename(s, ids), n, Rename(t, ids))
    decreases n
  {
    hide Steps, Rename, FixedThreads;
    if n > 0 {
      var p: nat, s1, events :| Steps(P, s, p, s1, events) && MergedRuns(P, s1, n - 1, t);
      StepsRename(P, s, p, s1, events, ids);
      MergedRunsRename(P, s1, n - 1, t, ids);
    }
  }

  lemma InstrStepRenames(P: Program, s: State, p: nat, ids: seq<nat>)
    requires FixedThreads(P) && KeepsRunning(s, ids) && Enabled(P, s, p)
    ensures var r := InstrStep(P, s, p);
            && (r.Next? ==> KeepsRunning(r.s, ids))
            && Enabled(P, Rename(s, ids), p) && InstrStep(P, Rename(s, ids), p) == RenameResult(r, ids)
  {
    var b, i := s.procs[p].pc.block, s.procs[p].pc.index;
    assert Simple(P.blocks[b][i]);
    assert Rename(s, ids).procs[p] == s.procs[p];
    SetPcRenames(s, p, NextPc(P, b, i), ids);
    hide Exec, Rename, FixedThreads;
    ExecRenames(P, SetPc(s, p, NextPc(P, b, i)), p, b, i, ids);
  }

  lemma {:induction false} InstrRunsRename(P: Program, s: State, schedule: seq<nat>, t: State, ids: seq<nat>)
    requires FixedThreads(P) && KeepsRunning(s, ids) && InstrRuns(P, s, schedule, t)
    ensures KeepsRunning(t, ids) && InstrRuns(P, Rename(s, ids), schedule, Rename(t, ids))
    decreases |schedule|
  {
    hide InstrStep, Rename, FixedThreads;
    if schedule != [] {
      InstrStepRenames(P, s, schedule[0], ids);
      InstrRunsRename(P, InstrStep(P, s, schedule[0]).s, schedule[1..], t, ids);
    }
  }

  // ----- Getting stuck -----

  lemma {:induction false} QuietRunsRename(P: Program, s: State, schedule: seq<nat>, t: State, ids: seq<nat>)
    requires FixedThreads(P) && KeepsRunning(s, ids) && QuietRuns(P, s, schedule, t)
    ensures KeepsRunning(t, ids) && QuietRuns(P, Rename(s, ids), schedule, Rename(t, ids))
    decreases |schedule|
  {
    hide InstrStep, FixedThreads, Quiet;
    if schedule != [] {
      assert Rename(s, ids).procs[schedule[0]].pc == s.procs[schedule[0]].pc;
      hide Rename;
      InstrStepRenames(P, s, schedule[0], ids);
      QuietRunsRename(P, InstrStep(P, s, schedule[0]).s, schedule[1..], t, ids);
    }
  }

  lemma StuckRenames(P: Program, t: State, ids: seq<nat>)
    requires FixedThreads(P) && KeepsRunning(t, ids) && AllStuck(P, t)
    ensures AllStuck(P, Rename(t, ids))
  {
    var t' := Rename(t, ids);
    hide InstrStep, FixedThreads;
    forall p: nat | p < |t'.procs| && t'.procs[p].pc != Halted
      ensures Waits(P, t', p)
    {
      assert t.procs[p].pc == t'.procs[p].pc && Waits(P, t, p);
      InstrStepRenames(P, t, p, ids);
    }
  }

  lemma CannotStepRenames(P: Program, s: State, p: nat, ids: seq<nat>)
    requires FixedThreads(P) && KeepsRunning(s, ids) && CannotStep(P, s, p)
    ensures CannotStep(P, Rename(s, ids), p)
  {
    assert Rename(s, ids).procs[p].pc == s.procs[p].pc;
    hide Loop, FixedThreads, Rename;
    if s.procs[p].pc == Halted {
      HaltedCannotStep(P, Rename(s, ids), p);
    } else {
      var fuel: nat :| StepProcess(P, s, p, fuel) == NoReport || StepProcess(P, s, p, fuel).NoSuchPc?;
      LoopRenames(P, s, p, false, fuel, ids);
      assert StepProcess(P, Rename(s, ids), p, fuel) == StepProcess(P, s, p, fuel);
    }
  }

  lemma NoneStepsRenames(P: Program, s: State, ids: seq<nat>)
    requires FixedThreads(P) && KeepsRunning(s, ids) && S.NoneSteps(P, s)
    ensures S.NoneSteps(P, Rename(s, ids))
  {
    hide FixedThreads, CannotStep;
    forall p: nat | p < |s.procs|
      ensures CannotStep(P, Rename(s, ids), p)
    {
      assert CannotStep(P, s, p);
      CannotStepRenames(P, s, p, ids);
    }
  }

  lemma StuckBeforeRenames(P: Program, m: State, t: State, ids: seq<nat>)
    requires FixedThreads(P) && KeepsRunning(m, ids) && StuckBefore(P, m, t)
    ensures KeepsRunning(t, ids) && StuckBefore(P, Rename(m, ids), Rename(t, ids))
  {
    var quiet :| QuietRuns(P, m, quiet, t);
    assert forall p :: 0 <= p < |m.procs| ==> Rename(m, ids).procs[p].pc == m.procs[p].pc;
    hide FixedThreads, QuietRuns, S.NoneSteps;
    QuietRunsRename(P, m, quiet, t, ids);
    NoneStepsRenames(P, m, ids);
  }

  // ----- Fresh ids for idle slots -----

  function Above(procs: seq<Proc>): (m: nat)
    ensures forall p :: 0 <= p < |procs| ==> procs[p].tid < m
  {
    if procs == [] then 0
    else
      var last := |procs| - 1;
      var m := Above(procs[..last]);
      if procs[last].tid < m then m else procs[last].tid + 1
  }

  function FreshIds(s: State): (ids: seq<nat>)
    ensures KeepsRunning(s, ids)
  {
    seq(|s.procs|, p requires 0 <= p < |s.procs| =>
      if s.procs[p].pc == Halted then Above(s.procs) + p else s.procs[p].tid)
  }

  lemma FreshIdsDistinct(P: Program, s: State)
    requires DistinctRunningIds(s) && AllClosed(P, s)
    ensures DistinctIds(Rename(s, FreshIds(s))) && AllClosed(P, Rename(s, FreshIds(s)))
    ensures NoneHasReturned(s) ==> NoneHasReturned(Rename(s, FreshIds(s)))
  {
    hide Closed;
    var s', ids := Rename(s, FreshIds(s)), FreshIds(s);
    forall p: nat | p < |s.procs|
      ensures ProcClosed(P, s'.procs[p])
    {
      assert ProcClosed(P, s.procs[p]);
    }
  }

  // ----- The theorem -----

  /**
   The reduction preserves outcomes. From a state with closed pcs in which no two running processes have
   the same thread id, merged model_step runs reach exactly the all-terminated states that
   interleavings of single instructions reach.
   */
  lemma AllOutcomesPreserved(P: Program, s: State, t: State)
    requires FixedThreads(P) && AllClosed(P, s) && DistinctRunningIds(s) && AllHalted(t)
    requires HasJoins(P) ==> NoneHasReturned(s)
    ensures (exists n :: MergedRuns(P, s, n, t)) <==> (exists schedule :: InstrRuns(P, s, schedule, t))
  {
    hide MergedRuns, InstrRuns, AllClosed, FixedThreads, DistinctRunningIds, DistinctIds, HasJoins, NoneHasReturned, AllHalted;
    if n: nat :| MergedRuns(P, s, n, t) {
      FixedIsWellFormed(P);
      var schedule := MergedRunsAreInstrRuns(P, s, n, t);
    }
    if schedule :| InstrRuns(P, s, schedule, t) {
      var ids := FreshIds(s);
      InstrRunsRename(P, s, schedule, t, ids);
      FreshIdsDistinct(P, s);
      HaltedRenames(t, ids);
      ReductionPreservesOutcomes(P, Rename(s, ids), Rename(t, ids));
      var n: nat :| MergedRuns(P, Rename(s, ids), n, Rename(t, ids));
      MergedRunsRename(P, Rename(s, ids), n, Rename(t, ids), Ids(s));
      RenameBack(s, ids);
      IdsStay(P, s, schedule, t);
      RenameBack(t, ids);
    }
  }

  lemma HaltedRenames(t: State, ids: seq<nat>)
    requires AllHalted(t) && |ids| == |t.procs|
    ensures AllHalted(Rename(t, ids))
  {
  }

  /**
   The reduction preserves deadlocks. From such a state, interleavings of single instructions get stuck in t
   exactly if merged model_step runs get stuck before t.
   */
  lemma AllDeadlocksPreserved(P: Program, s: State, t: State)
    requires FixedThreads(P) && AllClosed(P, s) && DistinctRunningIds(s) && AllStuck(P, t)
    requires HasJoins(P) ==> NoneHasReturned(s)
    ensures (exists schedule :: InstrRuns(P, s, schedule, t)) <==> (exists n, m :: MergedRuns(P, s, n, m) && StuckBefore(P, m, t))
  {
    hide *;
    if schedule :| InstrRuns(P, s, schedule, t) {
      var ids := FreshIds(s);
      InstrRunsRename(P, s, schedule, t, ids);
      FreshIdsDistinct(P, s);
      StuckRenames(P, t, ids);
      KeepsRunningSlots(s, ids);
      KeepsRunningSlots(t, ids);
      DeadlocksPreserved(P, Rename(s, ids), Rename(t, ids));
      var n: nat, m :| MergedRuns(P, Rename(s, ids), n, m) && StuckBefore(P, m, Rename(t, ids));
      IdsKeepRunning(s, ids);
      MergedRunsRename(P, Rename(s, ids), n, m, Ids(s));
      KeepsRunningSlots(m, Ids(s));
      StuckBeforeRenames(P, m, Rename(t, ids), Ids(s));
      RenameBack(s, ids);
      IdsStay(P, s, schedule, t);
      RenameBack(t, ids);
    }
    if n: nat, m :| MergedRuns(P, s, n, m) && StuckBefore(P, m, t) {
      StuckBeforeRuns(P, s, n, m, t);
    }
  }

  lemma KeepsRunningSlots(s: State, ids: seq<nat>)
    requires KeepsRunning(s, ids)
    ensures |ids| == |s.procs|
  {
  }

  lemma IdsKeepRunning(s: State, ids: seq<nat>)
    requires KeepsRunning(s, ids)
    ensures KeepsRunning(Rename(s, ids), Ids(s))
  {
  }

  /** Where no process can step, there is a deadlock of single instructions, or all processes have terminated. */
  lemma StuckRunningIsDeadlock(P: Program, m: State) returns (t: State)
    requires FixedThreads(P) && AllClosed(P, m) && DistinctRunningIds(m) && S.NoneSteps(P, m)
    ensures AllStuck(P, t) && StuckBefore(P, m, t)
  {
    var ids := FreshIds(m);
    hide *;
    FreshIdsDistinct(P, m);
    KeepsRunningSlots(m, ids);
    NoneStepsRenames(P, m, ids);
    var t' := StuckIsDeadlock(P, Rename(m, ids));
    IdsKeepRunning(m, ids);
    StuckBeforeRenames(P, Rename(m, ids), t', Ids(m));
    KeepsRunningSlots(t', Ids(m));
    StuckRenames(P, t', Ids(m));
    t := Rename(t', Ids(m));
    RenameBack(m, ids);
  }

  /** No process's id changes along a run. */
  lemma {:induction false} IdsStay(P: Program, s: State, schedule: seq<nat>, t: State)
    requires FixedThreads(P) && InstrRuns(P, s, schedule, t)
    ensures Ids(t) == Ids(s)
    decreases |schedule|
  {
    hide InstrStep, FixedThreads;
    if schedule != [] {
      var p := schedule[0];
      InstrStepKeepsIds(P, s, p);
      IdsStay(P, InstrStep(P, s, p).s, schedule[1..], t);
    }
  }

  lemma InstrStepKeepsIds(P: Program, s: State, p: nat)
    requires FixedThreads(P) && Enabled(P, s, p) && InstrStep(P, s, p).Next?
    ensures Ids(InstrStep(P, s, p).s) == Ids(s)
  {
    var b, i := s.procs[p].pc.block, s.procs[p].pc.index;
    assert Simple(P.blocks[b][i]);
    hide Exec, FixedThreads;
    ExecRenames(P, SetPc(s, p, NextPc(P, b, i)), p, b, i, Ids(s));
  }
}
