/**
 The reduction theorem for reachable states: wherever a run has come to the point that no more threads
 are created, merged stepping loses no outcome.
 */
module RunningIds {
  import opened Machine
  import opened PcClosure
  import opened GlobalStatus
  import opened RunInvariants
  import Threads
  import opened ThreadIds
  import opened Reduction
  import opened Deadlocks
  import opened IdleSlots
  import opened Regions
  import opened MainIds

  /** In every reachable state no two running threads have the same id. */
  lemma RunningIdsDiffer(M: Model, n: nat, s: State, log: seq<Event>)
    requires ValidModel(M) && Reachable(M, n, s, log) && NoWrap(log)
    ensures DistinctRunningIds(s)
  {
    hide Reachable, ValidModel, NoWrap;
    forall p: nat, q: nat | p < q < |s.procs| && s.procs[p].pc != Halted && s.procs[q].pc != Halted
      ensures s.procs[p].tid != s.procs[q].tid
    {
      LiveIdsDiffer(M, n, s, log, p, q);
    }
  }

  /** No running thread is main with the id of a thread that had returned. */
  predicate NoneRestarted(s: State, log: seq<Event>) {
    forall p :: 0 <= p < |s.procs| && s.procs[p].pc != Halted && s.procs[p].tid != 0 ==> !Restarted(log, s.procs[p].tid)
  }

  lemma ReturnedIffRestarted(M: Model, n: nat, s: State, log: seq<Event>, p: nat)
    requires ValidModel(M) && Reachable(M, n, s, log) && NoWrap(log) && p < |s.procs| && s.procs[p].pc != Halted
    ensures ReadResult(s.tres, s.procs[p].tid).status != 0 <==> s.procs[p].tid != 0 && Restarted(log, s.procs[p].tid)
  {
    var tid := s.procs[p].tid;
    hide Reachable, ValidModel, CreatedInOrder, ReturnsFit, Restarted, NumbersFit, NoWrap, Threads.JoinsFit, Threads.LastReturn;
    ReachableIds(M, n, s, log);
    assert Live(s, -1, p);
    Threads.ReachableFits(M, n, s, log);
    if Restarted(log, tid) {
      var i := RestartedHasEnded(log, tid);
      assert Threads.HasReturned(log, tid, log[i].value);
      Threads.HasLastReturn(log, tid, log[i].value);
    }
  }

  /** A running thread's id has a result in a reachable state only if it is main with a borrowed id. */
  lemma NoneHasReturnedIff(M: Model, n: nat, s: State, log: seq<Event>)
    requires ValidModel(M) && Reachable(M, n, s, log) && NoWrap(log)
    ensures NoneHasReturned(s) <==> NoneRestarted(s, log)
  {
    hide Reachable, ValidModel, Restarted, NoWrap, ReadResult;
    forall p: nat | p < |s.procs| && s.procs[p].pc != Halted
      ensures ReadResult(s.tres, s.procs[p].tid).status != 0 <==> s.procs[p].tid != 0 && Restarted(log, s.procs[p].tid)
    {
      ReturnedIffRestarted(M, n, s, log, p);
    }
  }

  /**
   From every reachable state whose threads run in a region that creates no more threads, merged model_step
   runs reach exactly the all-terminated states that interleavings of single instructions reach. Threads may
   join each other, unless main runs with the id of a thread that had returned.
   */
  lemma ReachableOutcomesPreserved(M: Model, n: nat, s: State, log: seq<Event>, region: set<nat>, t: State)
    requires ValidModel(M) && Reachable(M, n, s, log) && NoWrap(log)
    requires Region(M.program, region) && AllInRegion(s, region) && AllHalted(t)
    requires RegionHasJoins(M.program, region) ==> NoneRestarted(s, log)
    ensures (exists n :: MergedRuns(M.program, s, n, t)) <==> (exists schedule :: InstrRuns(M.program, s, schedule, t))
  {
    assert WellFormed(M.program);
    hide *;
    ReachableIsClosed(M, n, s, log);
    RunningIdsDiffer(M, n, s, log);
    NoneHasReturnedIff(M, n, s, log);
    OutcomesPreservedInRegion(M.program, region, s, t);
  }

  /** The same of deadlocks: single instructions get stuck in t exactly if merged stepping gets stuck before t. */
  lemma ReachableDeadlocksPreserved(M: Model, n: nat, s: State, log: seq<Event>, region: set<nat>, t: State)
    requires ValidModel(M) && Reachable(M, n, s, log) && NoWrap(log)
    requires Region(M.program, region) && AllInRegion(s, region) && AllStuck(M.program, t)
    requires RegionHasJoins(M.program, region) ==> NoneRestarted(s, log)
    ensures (exists schedule :: InstrRuns(M.program, s, schedule, t))
            <==> (exists n, m :: MergedRuns(M.program, s, n, m) && StuckBefore(M.program, m, t))
  {
    assert WellFormed(M.program);
    hide *;
    ReachableIsClosed(M, n, s, log);
    RunningIdsDiffer(M, n, s, log);
    NoneHasReturnedIff(M, n, s, log);
    DeadlocksPreservedInRegion(M.program, region, s, t);
  }

  /**
   Whenever a reachable state lets the phase end because no process can step, there is such a t: all processes
   have terminated, or single instructions run into a deadlock as well.
   */
  lemma ReachableStuckIsDeadlock(M: Model, n: nat, m: State, log: seq<Event>, region: set<nat>) returns (t: State)
    requires ValidModel(M) && Reachable(M, n, m, log) && NoWrap(log)
    requires Region(M.program, region) && AllInRegion(m, region) && NoneSteps(M.program, m)
    ensures AllStuck(M.program, t) && StuckBefore(M.program, m, t)
  {
    assert WellFormed(M.program);
    hide *;
    ReachableIsClosed(M, n, m, log);
    RunningIdsDiffer(M, n, m, log);
    t := StuckInRegionIsDeadlock(M.program, region, m);
  }

  /** If static constructors create no threads, main never has the id of another thread. */
  lemma NoneIsRestarted(M: Model, before: set<nat>, n: nat, s: State, log: seq<Event>)
    requires ValidModel(M) && ConstructorsCreateNone(M, before) && Reachable(M, n, s, log)
    ensures NoneRestarted(s, log)
  {
    UntilMain(M, before, n, s, log);
    hide Reachable, ValidModel, MainIsZero, Restarted;
    forall p: nat | p < |s.procs| && s.procs[p].pc != Halted && s.procs[p].tid != 0
      ensures !Restarted(log, s.procs[p].tid)
    {
      ZeroNeverReplaces(log, s.procs[p].tid);
    }
  }

  /** Then nothing has to be known about the run. */
  lemma JoiningOutcomesPreserved(M: Model, before: set<nat>, n: nat, s: State, log: seq<Event>, region: set<nat>, t: State)
    requires ValidModel(M) && ConstructorsCreateNone(M, before) && Reachable(M, n, s, log) && NoWrap(log)
    requires Region(M.program, region) && AllInRegion(s, region) && AllStuck(M.program, t)
    ensures AllHalted(t) ==>
              ((exists n :: MergedRuns(M.program, s, n, t)) <==> (exists schedule :: InstrRuns(M.program, s, schedule, t)))
    ensures (exists n, m :: MergedRuns(M.program, s, n, m) && StuckBefore(M.program, m, t))
            <==> (exists schedule :: InstrRuns(M.program, s, schedule, t))
  {
    hide *;
    NoneIsRestarted(M, before, n, s, log);
    if AllHalted(t) {
      ReachableOutcomesPreserved(M, n, s, log, region, t);
    }
    ReachableDeadlocksPreserved(M, n, s, log, region, t);
  }
}
