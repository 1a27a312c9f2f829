/**
 The top of the next-state function: initial state, the global status machine, and runs.
 */
module GlobalStatus {
  import Ir
  import opened Machine
  import opened PcClosure

  const MAX_THREADS: nat := 6

  const START: nat := 0
  const RUNNING_CONSTRUCTORS: nat := 1
  const STARTING_MAIN: nat := 2
  const RUNNING_MAIN: nat := 3
  const ENDED: nat := 4
  const ENDED_FAILURE: nat := 5

  /** A program, the entry blocks of its static constructor and of main if it has them, its globals. */
  datatype Model = Model(program: Program, constructors: Ir.Option<nat>, main: Ir.Option<nat>,
                         globals: map<int, int>, globalsSize: nat)

  ghost predicate ValidModel(M: Model) {
    && WellFormed(M.program)
    && (M.constructors.Some? ==> IsEntry(M.program, M.constructors.value))
    && (M.main.Some? ==> IsEntry(M.program, M.main.value))
    && M.globalsSize < TWO32
  }

  function InitialState(M: Model): (s: State)
    ensures |s.procs| == MAX_THREADS
  {
    var idle := Proc(Halted, map[], [], 0, 0);
    State(START, 1, map[], M.globals, [idle.(msize := M.globalsSize)] + seq(MAX_THREADS - 1, _ => idle))
  }

  /** The setup call of a function without a call site: an empty stack, and the pc at its entry. */
  function StartFunction(s: State, entry: Ir.Option<nat>): (s': State)
    requires |s.procs| > 0
    ensures |s'.procs| == |s.procs|
  {
    if entry.None? then s
    else s.(procs := s.procs[0 := s.procs[0].(stack := [], pc := At(entry.value, 0))])
  }

  ghost predicate NoneSteps(P: Program, s: State) {
    forall p :: 0 <= p < |s.procs| ==> CannotStep(P, s, p)
  }

  /** dmc_nextstates produces s' from s, doing `events`. */
  ghost predicate Successor(M: Model, s: State, s': State, events: seq<Event>) {
    && |s.procs| > 0
    && if s.status == START then
         s' == StartFunction(s, M.constructors).(status := RUNNING_CONSTRUCTORS) && events == []
       else if s.status == STARTING_MAIN then
         && s' == StartFunction(s, M.main).(status := RUNNING_MAIN)
         && events == (if M.main.Some? then [MainStarted(s.procs[0].tid)] else [])
       else if s.status == RUNNING_CONSTRUCTORS || s.status == RUNNING_MAIN then
         || (exists p: nat :: Steps(M.program, s, p, s', events))
         || (NoneSteps(M.program, s) && s' == s.(status := s.status + 1) && events == [])
       else
         false
  }

  ghost predicate IsSuccessor(M: Model, s: State, s': State) {
    exists events :: Successor(M, s, s', events)
  }

  /** n calls of dmc_nextstates lead from s to s' and together do `log`. */
  ghost predicate RunsTo(M: Model, s: State, n: nat, s': State, log: seq<Event>) {
    if n == 0 then s' == s && log == []
    else exists s1, log1, events ::
           RunsTo(M, s, n - 1, s1, log1) && Successor(M, s1, s', events) && log == log1 + events
  }

  ghost predicate Reachable(M: Model, n: nat, s: State, log: seq<Event>) {
    RunsTo(M, InitialState(M), n, s, log)
  }

  lemma RunExtends(M: Model, s: State, n: nat, s1: State, log: seq<Event>, s2: State, events: seq<Event>)
    requires RunsTo(M, s, n, s1, log) && Successor(M, s1, s2, events)
    ensures RunsTo(M, s, n + 1, s2, log + events)
  {
    hide Successor;
  }

  lemma {:induction false} RunsCompose(M: Model, s: State, n: nat, s1: State, log1: seq<Event>, k: nat, s2: State, log2: seq<Event>)
    requires RunsTo(M, s, n, s1, log1) && RunsTo(M, s1, k, s2, log2)
    ensures RunsTo(M, s, n + k, s2, log1 + log2)
    decreases k
  {
    hide Successor;
    if k == 0 {
      assert log1 + [] == log1;
    } else {
      var t, log, events :| RunsTo(M, s1, k - 1, t, log) && Successor(M, t, s2, events) && log2 == log + events;
      RunsCompose(M, s, n, s1, log1, k - 1, t, log);
      assert log1 + log2 == log1 + log + events;
    }
  }

  // ----- dmc_nextstates as emitted -----

  /** model_step comes to an end for every process. */
  ghost predicate StepsEnd(M: Model, s: State, fuel: nat) {
    forall p :: 0 <= p < |s.procs| ==> StepProcess(M.program, s, p, fuel) != OutOfFuel
  }

  method NextStates(M: Model, s: State, ghost fuel: nat) returns (successors: seq<State>)
    requires |s.procs| == MAX_THREADS
    requires s.status == RUNNING_CONSTRUCTORS || s.status == RUNNING_MAIN ==> StepsEnd(M, s, fuel)
    ensures forall s' :: s' in successors <==> IsSuccessor(M, s, s')
  {
    hide StepProcess, Steps;
    successors := [];
    if s.status == START {
      successors := [StartFunction(s, M.constructors).(status := RUNNING_CONSTRUCTORS)];
      assert Successor(M, s, successors[0], []);
    } else if s.status == STARTING_MAIN {
      successors := [StartFunction(s, M.main).(status := RUNNING_MAIN)];
      assert Successor(M, s, successors[0], if M.main.Some? then [MainStarted(s.procs[0].tid)] else []);
    } else if s.status == RUNNING_CONSTRUCTORS || s.status == RUNNING_MAIN {
      var p: nat := 0;
      while p < MAX_THREADS
        invariant p <= MAX_THREADS
        invariant forall s' :: s' in successors <==> ReportedBefore(M.program, s, p, fuel, s')
      {
        ReportedBeforeNext(M.program, s, p, fuel);
        var o := ModelStep(M.program, s, p, fuel);
        ghost var before := successors;
        if o.Report? {
          successors := successors + [o.s];
        }
        assert forall s' :: s' in successors <==> s' in before || Reported(M.program, s, p, fuel, s');
        p := p + 1;
      }
      ReportsAreSteps(M, s, fuel);
      RunningSuccessors(M, s);
      if successors == [] {
        successors := [s.(status := s.status + 1)];
      } else {
        assert ReportedBefore(M.program, s, MAX_THREADS, fuel, successors[0]);
      }
    }
  }

  lemma RunningSuccessors(M: Model, s: State)
    requires |s.procs| > 0 && (s.status == RUNNING_CONSTRUCTORS || s.status == RUNNING_MAIN)
    ensures forall s' :: IsSuccessor(M, s, s') <==>
              || (exists p: nat, events :: Steps(M.program, s, p, s', events))
              || (NoneSteps(M.program, s) && s' == s.(status := s.status + 1))
  {
    hide Steps, NoneSteps;
    forall s', p: nat, events | Steps(M.program, s, p, s', events)
      ensures Successor(M, s, s', events)
    {
    }
    if NoneSteps(M.program, s) {
      assert Successor(M, s, s.(status := s.status + 1), []);
    }
  }

  ghost predicate Reported(P: Program, s: State, p: nat, fuel: nat, s': State)
    requires p < |s.procs|
  {
    StepProcess(P, s, p, fuel).Report? && StepProcess(P, s, p, fuel).s == s'
  }

  /** One of the processes before p reports s'. */
  ghost predicate ReportedBefore(P: Program, s: State, p: nat, fuel: nat, s': State)
    requires p <= |s.procs|
  {
    exists q :: 0 <= q < p && Reported(P, s, q, fuel, s')
  }

  lemma ReportedBeforeNext(P: Program, s: State, p: nat, fuel: nat)
    requires p < |s.procs|
    ensures forall s' :: ReportedBefore(P, s, p + 1, fuel, s')
                         <==> ReportedBefore(P, s, p, fuel, s') || Reported(P, s, p, fuel, s')
  {
    hide Reported;
  }

  lemma ReportIsStep(M: Model, s: State, p: nat, fuel: nat)
    requires p < |s.procs| && StepProcess(M.program, s, p, fuel) != OutOfFuel
    ensures forall s' :: Reported(M.program, s, p, fuel, s') <==> exists events :: Steps(M.program, s, p, s', events)
    ensures CannotStep(M.program, s, p) <==> !StepProcess(M.program, s, p, fuel).Report?
  {
    hide StepProcess;
    var P, o := M.program, StepProcess(M.program, s, p, fuel);
    forall s', events | Steps(P, s, p, s', events)
      ensures o == Report(s', events)
    {
      var f :| StepProcess(P, s, p, f) == Report(s', events);
      StepFuel(P, s, p, f, fuel);
    }
    if o.Report? {
      assert Steps(P, s, p, o.s, o.events);
    }
    if CannotStep(P, s, p) {
      var f :| StepProcess(P, s, p, f) == NoReport || StepProcess(P, s, p, f).NoSuchPc?;
      StepFuel(P, s, p, f, fuel);
    }
  }

  /** What the processes report is what they can step to; when none reports, none can step. */
  lemma ReportsAreSteps(M: Model, s: State, fuel: nat)
    requires |s.procs| == MAX_THREADS && StepsEnd(M, s, fuel)
    ensures forall s' :: ReportedBefore(M.program, s, MAX_THREADS, fuel, s')
                         <==> exists p: nat, events :: Steps(M.program, s, p, s', events)
    ensures NoneSteps(M.program, s) <==> forall s' :: !ReportedBefore(M.program, s, MAX_THREADS, fuel, s')
  {
    hide StepProcess, CannotStep;
    var P := M.program;
    forall p: nat | p < |s.procs|
      ensures forall s' :: Reported(P, s, p, fuel, s') <==> exists events :: Steps(P, s, p, s', events)
      ensures CannotStep(P, s, p) <==> !StepProcess(P, s, p, fuel).Report?
    {
      ReportIsStep(M, s, p, fuel);
    }
    forall s', p: nat, events | Steps(P, s, p, s', events)
      ensures ReportedBefore(P, s, MAX_THREADS, fuel, s')
    {
      assert Reported(P, s, p, fuel, s');
    }
    if !NoneSteps(P, s) {
      var p :| 0 <= p < |s.procs| && !CannotStep(P, s, p);
      assert Reported(P, s, p, fuel, StepProcess(P, s, p, fuel).s);
    }
  }
}
