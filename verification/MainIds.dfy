/**
 Programs whose static constructors create no threads: main has thread id 0, no id returns twice, and a
 join that is enabled reads the same value for ever.
 */
module MainIds {
  import opened Machine
  import opened PcClosure
  import opened GlobalStatus
  import opened RunInvariants
  import opened Threads
  import opened ThreadIds
  import opened IdleSlots
  import opened Regions

  /** A process that is in the region stays there and creates no threads. */
  predicate CreateFree(P: Program, region: set<nat>) {
    && ClosedRegion(P, region)
    && forall b, i {:trigger P.blocks[b][i]} :: b in region && b < |P.blocks| && 0 <= i < |P.blocks[b]| ==>
         !P.blocks[b][i].ThreadCreate?
  }

  /** There are no constructors, or they stay in blocks without pthread_create. */
  predicate ConstructorsCreateNone(M: Model, region: set<nat>) {
    M.constructors.Some? ==> M.constructors.value in region && CreateFree(M.program, region)
  }

  predicate Stays(s: State, s': State, p: nat, region: set<nat>) {
    OnlySlot(s, s', p) && InRegion(s'.procs[p], region)
  }

  lemma ExecStays(P: Program, region: set<nat>, s: State, p: nat, b: nat, i: nat)
    requires CreateFree(P, region) && b in region && Inside(P, b, i) && p < |s.procs| && InRegion(s.procs[p], region)
    ensures var r := Exec(P, s, p, b, i); r.Next? ==> Stays(s, r.s, p, region)
  {
    var instr := P.blocks[b][i];
    assert TargetsInside(instr, region) && !instr.ThreadCreate?;
    if IsLocal(instr) {
      LocalStays(P, region, p, b, s.procs[p], instr);
      LocalKeepsId(P, p, b, s.procs[p], instr);
    }
    hide ExecLocal;
  }

  lemma {:induction false} RangeStays(P: Program, region: set<nat>, s: State, p: nat, b: nat, i: nat, e: nat)
    requires CreateFree(P, region) && b in region && b < |P.blocks| && i <= e <= |P.blocks[b]|
    requires p < |s.procs| && InRegion(s.procs[p], region)
    ensures var r := ExecRange(P, s, p, b, i, e); r.Next? ==> Stays(s, r.s, p, region)
    decreases e - i
  {
    if i == e {
      EmptyRange(P, s, p, b, e);
    } else if ExecRange(P, s, p, b, i, e).Next? {
      hide Exec, ExecRange, CreateFree, InRegion;
      RangeUnfolds(P, s, p, b, i, e);
      ExecStays(P, region, s, p, b, i);
      RangeStays(P, region, Exec(P, s, p, b, i).s, p, b, i + 1, e);
    }
  }

  lemma GroupStays(P: Program, region: set<nat>, s: State, p: nat, b: nat, i: nat)
    requires CreateFree(P, region) && b in region && Inside(P, b, i) && p < |s.procs| && InRegion(s.procs[p], region)
    ensures var r := ExecGroup(P, s, p, b, i); r.Next? ==> Stays(s, r.s, p, region)
  {
    hide ExecRange, CreateFree, End;
    var e := End(P, b, i);
    var s0 := SetPc(s, p, NextPc(P, b, e - 1));
    assert Stays(s, s0, p, region);
    hide InRegion;
    RangeStays(P, region, s0, p, b, i, e);
  }

  lemma {:induction false} LoopStays(P: Program, region: set<nat>, s: State, p: nat, emitted: bool, fuel: nat)
    requires CreateFree(P, region) && p < |s.procs| && InRegion(s.procs[p], region)
    ensures var o := Loop(P, s, p, emitted, fuel); o.Report? ==> Stays(s, o.s, p, region)
    decreases fuel
  {
    hide ExecGroup, CreateFree, Emits, End, Head;
    if s.procs[p].pc.At? && fuel > 0 {
      var b, i := s.procs[p].pc.block, s.procs[p].pc.index;
      assert b in region;
      hide InRegion;
      if Head(P, b, i) {
        GroupStays(P, region, s, p, b, i);
        var emits := Emits(P, b, i, End(P, b, i));
        var r := ExecGroup(P, s, p, b, i);
        if r.Next? && !(emits && emitted) {
          LoopStays(P, region, r.s, p, emitted || emits, fuel - 1);
        }
      }
    }
  }

  lemma StepStays(P: Program, region: set<nat>, s: State, p: nat, s': State, events: seq<Event>)
    requires CreateFree(P, region) && Steps(P, s, p, s', events) && InRegion(s.procs[p], region)
    ensures Stays(s, s', p, region) && s.procs[p].pc != Halted
  {
    hide Loop, CreateFree, InRegion;
    var fuel :| StepProcess(P, s, p, fuel) == Report(s', events);
    LoopStays(P, region, s, p, false, fuel);
  }

  // ----- Until main starts -----

  predicate MainIsZero(log: seq<Event>) {
    forall e :: e in log && e.MainStarted? ==> e.tid == 0
  }

  /** Before main starts, only process 0 is alive; it is in the region and has id 0. */
  predicate OnlyConstructor(s: State, region: set<nat>) {
    s.status <= STARTING_MAIN ==>
      && |s.procs| > 0 && s.procs[0].tid == 0
      && (s.status != STARTING_MAIN ==> InRegion(s.procs[0], region))
      && forall q :: 0 < q < |s.procs| ==> s.procs[q].pc == Halted
  }

  ghost function KeepsMain(): Invariant {
    (s: State, log: seq<Event>, p: int) => MainIsZero(log)
  }

  lemma StepKeepsMain(P: Program, s: State, log: seq<Event>, p: nat, s': State, events: seq<Event>)
    requires WellFormed(P) && MainIsZero(log) && Steps(P, s, p, s', events)
    ensures MainIsZero(log + events)
  {
    hide Steps, WellFormed;
    assert KeptByInstructions(P, KeepsMain()) by {
      forall s: State, log, p: int, b: int, i: int
        | 0 <= p < |s.procs| && 0 <= b && 0 <= i && Inside(P, b, i) && Exec(P, s, p, b, i).Next? && KeepsMain()(s, log, p)
        ensures var r := Exec(P, s, p, b, i); KeepsMain()(r.s, log + r.events, p) && KeepsMain()(r.s, log + r.events, -1)
      {
        NoMainInside(P, s, p, b, i);
        hide Exec;
        assert forall e :: e in log + Exec(P, s, p, b, i).events <==> e in log || e in Exec(P, s, p, b, i).events;
      }
    }
    assert KeptByPc(KeepsMain());
    hide KeptByInstructions, KeptByPc;
    StepKeeps(P, KeepsMain(), s, log, p, s', events);
  }

  lemma NoMainInside(P: Program, s: State, p: nat, b: nat, i: nat)
    requires p < |s.procs| && Inside(P, b, i)
    ensures var r := Exec(P, s, p, b, i); r.Next? ==> forall e :: e in r.events ==> !e.MainStarted?
  {
    if IsLocal(P.blocks[b][i]) {
      LocalIsSilent(P, p, b, s.procs[p], P.blocks[b][i]);
    }
    hide ExecLocal, ExecMemory, FreeSlot;
  }

  /** Without constructors nothing is alive in their phase. */
  predicate NoneAlive(M: Model, s: State) {
    s.status == RUNNING_CONSTRUCTORS && M.constructors.None? ==> |s.procs| > 0 && s.procs[0].pc == Halted
  }

  lemma SuccessorKeepsMain(M: Model, region: set<nat>, s: State, log: seq<Event>, s': State, events: seq<Event>)
    requires ValidModel(M) && ConstructorsCreateNone(M, region) && Successor(M, s, s', events)
    requires MainIsZero(log) && OnlyConstructor(s, region) && NoneAlive(M, s)
    requires s.status == START ==> s == InitialState(M)
    ensures MainIsZero(log + events) && OnlyConstructor(s', region) && NoneAlive(M, s')
  {
    hide Steps, NoneSteps, WellFormed, ConstructorsCreateNone, OnlyConstructor, MainIsZero;
    if p: nat :| Steps(M.program, s, p, s', events) {
      StatusMonotone(M, s, s', events);
      StepKeepsMain(M.program, s, log, p, s', events);
      StepKeepsConstructor(M, region, s, p, s', events);
    } else {
      StartKeepsMain(M, region, s, log, s', events);
    }
  }

  lemma StepKeepsConstructor(M: Model, region: set<nat>, s: State, p: nat, s': State, events: seq<Event>)
    requires ValidModel(M) && ConstructorsCreateNone(M, region) && Successor(M, s, s', events)
    requires OnlyConstructor(s, region) && NoneAlive(M, s) && Steps(M.program, s, p, s', events)
    ensures OnlyConstructor(s', region) && NoneAlive(M, s')
  {
    hide Steps, NoneSteps, CreateFree, InRegion, WellFormed;
    StepKeepsStatus(M.program, s, p, s', events);
    StepIsAlive(M.program, s, p, s', events);
    hide Successor;
    if s.status == RUNNING_CONSTRUCTORS {
      StepStays(M.program, region, s, p, s', events);
    } else {
      OtherStatusSteps(M, s, s', events);
    }
  }

  lemma OtherStatusSteps(M: Model, s: State, s': State, events: seq<Event>)
    requires Successor(M, s, s', events) && s'.status == s.status && s.status != RUNNING_CONSTRUCTORS
    ensures s.status == RUNNING_MAIN
  {
    hide Steps, NoneSteps;
  }

  lemma StartKeepsMain(M: Model, region: set<nat>, s: State, log: seq<Event>, s': State, events: seq<Event>)
    requires ValidModel(M) && ConstructorsCreateNone(M, region) && Successor(M, s, s', events)
    requires !exists p: nat :: Steps(M.program, s, p, s', events)
    requires MainIsZero(log) && OnlyConstructor(s, region) && NoneAlive(M, s)
    requires s.status == START ==> s == InitialState(M)
    ensures MainIsZero(log + events) && OnlyConstructor(s', region) && NoneAlive(M, s')
  {
    hide Steps, NoneSteps, WellFormed, CreateFree;
    assert forall e :: e in log + events <==> e in log || e in events;
  }

  lemma StepIsAlive(P: Program, s: State, p: nat, s': State, events: seq<Event>)
    requires Steps(P, s, p, s', events)
    ensures p < |s.procs| && s.procs[p].pc != Halted
  {
    hide Loop;
  }

  lemma {:induction false} UntilMain(M: Model, region: set<nat>, n: nat, s: State, log: seq<Event>)
    requires ValidModel(M) && ConstructorsCreateNone(M, region) && Reachable(M, n, s, log)
    ensures MainIsZero(log) && OnlyConstructor(s, region) && NoneAlive(M, s)
  {
    hide Successor, ValidModel, ConstructorsCreateNone;
    if n > 0 {
      hide MainIsZero, OnlyConstructor, NoneAlive;
      var s0, log0, events :| Reachable(M, n - 1, s0, log0) && Successor(M, s0, s, events) && log == log0 + events;
      UntilMain(M, region, n - 1, s0, log0);
      OnlyInitialIsStart(M, n - 1, s0, log0);
      OnlyInitialIsStart(M, n, s, log);
      SuccessorKeepsMain(M, region, s0, log0, s, events);
    }
  }

  // ----- Theorems -----

  /** main starts with id 0. */
  lemma MainHasIdZero(M: Model, region: set<nat>, n: nat, s: State, log: seq<Event>, t: nat)
    requires ValidModel(M) && ConstructorsCreateNone(M, region) && Reachable(M, n, s, log)
    requires MainStarted(t) in log
    ensures t == 0
  {
    UntilMain(M, region, n, s, log);
  }

  lemma {:induction false} ZeroNeverReplaces(log: seq<Event>, tid: nat)
    requires MainIsZero(log) && tid != 0
    ensures !Restarted(log, tid)
  {
    if log != [] {
      var front := log[..|log| - 1];
      assert forall e :: e in front ==> e in log;
      ZeroNeverReplaces(front, tid);
    }
  }

  /** Every thread id other than 0 returns at most once. */
  lemma EveryIdReturnsOnce(M: Model, region: set<nat>, n: nat, s: State, log: seq<Event>)
    requires ValidModel(M) && ConstructorsCreateNone(M, region) && Reachable(M, n, s, log) && NoWrap(log)
    ensures ReturnsOnce(log)
  {
    UntilMain(M, region, n, s, log);
    ReturnsOnceIff(M, n, s, log);
    hide Reachable, ValidModel, Restarted, ReturnsOnce;
    forall j: nat | j < |log| && log[j].Returned? && log[j].tid != 0
      ensures !Restarted(log[..j], log[j].tid)
    {
      assert forall e :: e in log[..j] ==> e in log;
      ZeroNeverReplaces(log[..j], log[j].tid);
    }
  }

  /** The value of an enabled join is the one value that its thread returns, and stays along every continuation. */
  lemma JoinValueStays(M: Model, region: set<nat>, n: nat, s: State, log: seq<Event>, k: nat, s': State, more: seq<Event>, tid: int)
    requires ValidModel(M) && ConstructorsCreateNone(M, region)
    requires Reachable(M, n, s, log) && RunsTo(M, s, k, s', more) && NoWrap(log + more)
    requires ReadResult(s.tres, tid).status != 0
    ensures ReadResult(s'.tres, tid) == ReadResult(s.tres, tid)
    ensures forall v :: HasReturned(log + more, tid, v) <==> v == ReadResult(s.tres, tid).value
  {
    hide RunsTo, ValidModel, ConstructorsCreateNone, NoWrap;
    RunsCompose(M, InitialState(M), n, s, log, k, s', more);
    EveryIdReturnsOnce(M, region, n + k, s', log + more);
    JoinEnabledIffReturned(M, n, s, log, tid);
    JoinValueStaysIff(M, n, s, log, k, s', more, tid);
    OneReturnValue(log, more, tid, ReadResult(s.tres, tid).value);
  }

  lemma OneReturnValue(log: seq<Event>, more: seq<Event>, tid: int, value: int)
    requires ReturnsOnce(log + more) && tid != 0 && HasReturned(log, tid, value)
    ensures LastReturn(more, tid).None?
    ensures forall v :: HasReturned(log + more, tid, v) <==> v == value
  {
    var all := log + more;
    var i :| 0 <= i < |log| && log[i] == Returned(tid, value);
    assert all[i] == log[i];
    forall j, v | 0 <= j < |more|
      ensures more[j] != Returned(tid, v)
    {
      assert all[|log| + j] == more[j];
    }
    forall v | HasReturned(all, tid, v)
      ensures v == value
    {
      var j :| 0 <= j < |all| && all[j] == Returned(tid, v);
    }
  }
}
