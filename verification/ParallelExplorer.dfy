/**
 The multi-worker explorer: any number of workers on one store and one queue. A worker stops as soon as
 it finds the queue empty, even if others are still expanding.

 Storing a reported state and queueing it are two steps, and so is every access to the queue.
 */
module ParallelExplorer {
  import opened HashConsing
  import opened Explorer
  import opened Schedules

  /** `rest` are the successors of `state` still to be reported; `found` is stored, but not queued yet. */
  datatype Worker =
    | Idle
    | Expanding(state: Bytes, rest: seq<Bytes>)
    | Queueing(found: Bytes, state: Bytes, rest: seq<Bytes>)
    | Stopped

  /** `log` are the states taken from the queue so far, in order. No step reads it. */
  datatype System = System(contents: seq<Bytes>, queue: seq<Bytes>, workers: seq<Worker>, log: seq<Bytes>)

  function Step(m: Lts, sys: System, i: nat): (sys': System)
    requires i < |sys.workers|
    ensures |sys'.workers| == |sys.workers|
  {
    match sys.workers[i]
    case Idle =>
      if sys.queue == [] then sys.(workers := sys.workers[i := Stopped])
      else
        var s := sys.queue[0];
        sys.(queue := sys.queue[1..], log := sys.log + [s], workers := sys.workers[i := Expanding(s, m.next(s))])
    case Expanding(s, rest) =>
      if rest == [] then sys.(workers := sys.workers[i := Idle])
      else
        var isNew := rest[0] !in sys.contents;
        var worker := if isNew then Queueing(rest[0], s, rest[1..]) else Expanding(s, rest[1..]);
        sys.(contents := Intern(sys.contents, rest[0]).0, workers := sys.workers[i := worker])
    case Queueing(found, s, rest) =>
      sys.(queue := sys.queue + [found], workers := sys.workers[i := Expanding(s, rest)])
    case Stopped => sys
  }

  function Start(m: Lts, n: nat): (sys: System)
    ensures |sys.workers| == n
  {
    System([m.init], [m.init], seq(n, _ => Idle), [])
  }

  function Run(m: Lts, n: nat, schedule: seq<nat>): (sys: System)
    requires Schedule(n, schedule)
    ensures |sys.workers| == n
  {
    if schedule == [] then Start(m, n)
    else
      var last := |schedule| - 1;
      assert Schedule(n, schedule[..last]);
      Step(m, Run(m, n, schedule[..last]), schedule[last])
  }

  // ----- The invariant -----

  /** A worker that expands s and has yet to report x. */
  predicate Carries(w: Worker, s: Bytes, x: Bytes) {
    (w.Expanding? || w.Queueing?) && w.state == s && x in w.rest
  }

  predicate Pending(workers: seq<Worker>, s: Bytes, x: Bytes) {
    exists i :: 0 <= i < |workers| && Carries(workers[i], s, x)
  }

  predicate Holds(w: Worker, x: Bytes) {
    w.Queueing? && w.found == x
  }

  predicate Held(workers: seq<Worker>, x: Bytes) {
    exists i :: 0 <= i < |workers| && Holds(workers[i], x)
  }

  /** Every successor of a state taken is stored, or will be reported. */
  ghost predicate Covered(m: Lts, sys: System) {
    forall s, x :: s in sys.log && x in m.next(s) ==> x in sys.contents || Pending(sys.workers, s, x)
  }

  /** Every stored state was taken, is queued, or is about to be queued, and only one of these, once. */
  ghost predicate PlacedOnce(sys: System) {
    && (forall x :: x in sys.contents <==> x in sys.log + sys.queue || Held(sys.workers, x))
    && Distinct(sys.log + sys.queue)
    && (forall i :: 0 <= i < |sys.workers| && sys.workers[i].Queueing? ==> sys.workers[i].found !in sys.log + sys.queue)
    && (forall i, j :: 0 <= i < j < |sys.workers| && sys.workers[i].Queueing? && sys.workers[j].Queueing? ==>
          sys.workers[i].found != sys.workers[j].found)
  }

  ghost predicate WorkerFits(m: Lts, w: Worker) {
    w.Expanding? || w.Queueing? ==> forall x :: x in w.rest ==> Reachable(m, x)
  }

  ghost predicate OnlyReachable(m: Lts, sys: System) {
    && m.init in sys.contents
    && (forall s :: s in sys.contents ==> Reachable(m, s))
    && (forall i :: 0 <= i < |sys.workers| ==> WorkerFits(m, sys.workers[i]))
  }

  predicate AllStopped(sys: System) {
    forall i :: 0 <= i < |sys.workers| ==> sys.workers[i] == Stopped
  }

  ghost predicate Fits(m: Lts, sys: System) {
    && Covered(m, sys) && PlacedOnce(sys) && OnlyReachable(m, sys)
    && (AllStopped(sys) ==> sys.queue == [])
  }

  // ----- Preservation -----

  lemma StepCovers(m: Lts, sys: System, i: nat)
    requires Covered(m, sys) && i < |sys.workers|
    ensures Covered(m, Step(m, sys, i))
  {
    var sys' := Step(m, sys, i);
    var w, w' := sys.workers[i], sys'.workers[i];
    InternMembers(sys.contents, if w.Expanding? && w.rest != [] then w.rest[0] else m.init);
    hide Intern;
    forall s, x | s in sys'.log && x in m.next(s)
      ensures x in sys'.contents || Pending(sys'.workers, s, x)
    {
      if s !in sys.log {
        assert Carries(w', s, x);
      } else if x !in sys'.contents {
        assert Pending(sys.workers, s, x);
        var j :| 0 <= j < |sys.workers| && Carries(sys.workers[j], s, x);
        if j == i && w.Expanding? && w.rest != [] {
          assert w.rest == [w.rest[0]] + w.rest[1..];
        }
        assert Carries(sys'.workers[j], s, x);
      }
    }
  }

  /** What the step of a worker does to where stored states are. */
  lemma StepPlaces(m: Lts, sys: System, i: nat)
    requires PlacedOnce(sys) && i < |sys.workers|
    ensures PlacedOnce(Step(m, sys, i))
  {
    match sys.workers[i]
    case Idle => TakePlaces(m, sys, i);
    case Expanding(s, rest) => ReportPlaces(m, sys, i);
    case Queueing(found, s, rest) => QueuePlaces(m, sys, i);
    case Stopped => assert sys.workers[i := Stopped] == sys.workers;
  }

  /** The held states after worker i has changed. */
  lemma HeldAfter(workers: seq<Worker>, i: nat, w': Worker, x: Bytes)
    requires i < |workers|
    ensures Held(workers[i := w'], x) ==> Held(workers, x) || Holds(w', x)
    ensures Held(workers, x) ==> Held(workers[i := w'], x) || Holds(workers[i], x)
    ensures Holds(w', x) ==> Held(workers[i := w'], x)
  {
    var workers' := workers[i := w'];
    if Held(workers', x) {
      var j :| 0 <= j < |workers'| && Holds(workers'[j], x);
      assert j != i ==> Holds(workers[j], x);
    }
    if Held(workers, x) {
      var j :| 0 <= j < |workers| && Holds(workers[j], x);
      assert j != i ==> Holds(workers'[j], x);
    }
    assert Holds(w', x) ==> Holds(workers'[i], x);
  }

  lemma TakePlaces(m: Lts, sys: System, i: nat)
    requires PlacedOnce(sys) && i < |sys.workers| && sys.workers[i].Idle?
    ensures PlacedOnce(Step(m, sys, i))
  {
    var sys' := Step(m, sys, i);
    assert sys'.log + sys'.queue == sys.log + sys.queue by {
      if sys.queue != [] {
        assert sys.queue == [sys.queue[0]] + sys.queue[1..];
      }
    }
    forall x
      ensures Held(sys'.workers, x) <==> Held(sys.workers, x)
    {
      HeldAfter(sys.workers, i, sys'.workers[i], x);
    }
    hide Held, Distinct;
  }

  lemma ReportPlaces(m: Lts, sys: System, i: nat)
    requires PlacedOnce(sys) && i < |sys.workers| && sys.workers[i].Expanding?
    ensures PlacedOnce(Step(m, sys, i))
  {
    var sys' := Step(m, sys, i);
    var w, w' := sys.workers[i], sys'.workers[i];
    InternMembers(sys.contents, if w.rest != [] then w.rest[0] else []);
    forall x
      ensures Held(sys'.workers, x) <==> Held(sys.workers, x) || Holds(w', x)
    {
      HeldAfter(sys.workers, i, w', x);
    }
    hide Intern, Distinct;
    forall j | 0 <= j < |sys.workers| && sys.workers[j].Queueing?
      ensures sys.workers[j].found in sys.contents
    {
      assert Holds(sys.workers[j], sys.workers[j].found);
      assert Held(sys.workers, sys.workers[j].found);
    }
    hide Held;
  }

  lemma QueuePlaces(m: Lts, sys: System, i: nat)
    requires PlacedOnce(sys) && i < |sys.workers| && sys.workers[i].Queueing?
    ensures PlacedOnce(Step(m, sys, i))
  {
    var sys' := Step(m, sys, i);
    var w, w' := sys.workers[i], sys'.workers[i];
    assert sys'.log + sys'.queue == (sys.log + sys.queue) + [w.found];
    forall x
      ensures Held(sys.workers, x) <==> Held(sys'.workers, x) || x == w.found
    {
      HeldAfter(sys.workers, i, w', x);
      assert x == w.found ==> Holds(sys.workers[i], x);
    }
    hide Held;
  }

  lemma ReachableStep(m: Lts, s: Bytes, x: Bytes)
    requires Reachable(m, s) && x in m.next(s)
    ensures Reachable(m, x)
  {
    var k: nat :| ReachedIn(m, s, k);
    assert ReachedIn(m, x, k + 1);
  }

  lemma StepReaches(m: Lts, sys: System, i: nat)
    requires PlacedOnce(sys) && OnlyReachable(m, sys) && i < |sys.workers|
    ensures OnlyReachable(m, Step(m, sys, i))
  {
    var sys' := Step(m, sys, i);
    var w, w' := sys.workers[i], sys'.workers[i];
    InternMembers(sys.contents, if w.Expanding? && w.rest != [] then w.rest[0] else m.init);
    assert WorkerFits(m, w);
    hide Intern, Reachable;
    if w.Idle? && sys.queue != [] {
      var s := sys.queue[0];
      assert s in sys.log + sys.queue;
      forall x | x in m.next(s)
        ensures Reachable(m, x)
      {
        ReachableStep(m, s, x);
      }
    }
    hide PlacedOnce;
    assert WorkerFits(m, w') by {
      if w.Expanding? && w.rest != [] {
        assert forall x :: x in w.rest[1..] ==> x in w.rest;
      }
    }
    if w.Expanding? && w.rest != [] {
      assert w.rest[0] in w.rest;
    }
    hide WorkerFits;
  }

  lemma StepFits(m: Lts, sys: System, i: nat)
    requires Fits(m, sys) && i < |sys.workers|
    ensures Fits(m, Step(m, sys, i))
  {
    hide Covered, PlacedOnce, OnlyReachable;
    StepCovers(m, sys, i);
    StepPlaces(m, sys, i);
    StepReaches(m, sys, i);
    var sys' := Step(m, sys, i);
    if AllStopped(sys') {
      assert sys'.workers[i] == Stopped;
      if sys.workers[i].Stopped? {
        assert sys' == sys;
      }
    }
  }

  lemma StartFits(m: Lts, n: nat)
    requires n > 0
    ensures Fits(m, Start(m, n))
  {
    assert ReachedIn(m, m.init, 0);
    assert Start(m, n).workers[0] == Idle;
  }

  lemma {:induction false} RunFits(m: Lts, n: nat, schedule: seq<nat>)
    requires n > 0 && Schedule(n, schedule)
    ensures Fits(m, Run(m, n, schedule))
  {
    hide Fits, Step, Start;
    if schedule == [] {
      StartFits(m, n);
    } else {
      var last := |schedule| - 1;
      RunFits(m, n, schedule[..last]);
      StepFits(m, Run(m, n, schedule[..last]), schedule[last]);
    }
  }

  // ----- Whole runs -----

  lemma {:induction false} ReachedIsTaken(m: Lts, sys: System, s: Bytes, k: nat)
    requires Fits(m, sys) && AllStopped(sys) && ReachedIn(m, s, k)
    ensures s in sys.log
    decreases k
  {
    hide OnlyReachable;
    if k == 0 {
      assert m.init in sys.contents by { InitStored(m, sys); }
    } else {
      var p :| ReachedIn(m, p, k - 1) && s in m.next(p);
      ReachedIsTaken(m, sys, p, k - 1);
      assert s in sys.contents || Pending(sys.workers, p, s);
    }
    assert s in sys.contents;
    assert sys.log + sys.queue == sys.log;
  }

  lemma InitStored(m: Lts, sys: System)
    requires Fits(m, sys)
    ensures m.init in sys.contents
  {
  }

  /**
   Once all workers have stopped, whatever their number and the interleaving, the store is exactly the
   set of reachable states and each of them was expanded exactly once.
   */
  lemma StoppedMeansComplete(m: Lts, n: nat, schedule: seq<nat>)
    requires n > 0 && Schedule(n, schedule) && AllStopped(Run(m, n, schedule))
    ensures var sys := Run(m, n, schedule);
            && (forall s :: s in sys.contents <==> Reachable(m, s))
            && (forall s :: s in sys.log <==> Reachable(m, s))
            && Distinct(sys.log)
  {
    RunFits(m, n, schedule);
    var sys := Run(m, n, schedule);
    hide Run;
    assert sys.log + sys.queue == sys.log;
    forall s
      ensures s in sys.log <==> Reachable(m, s)
      ensures s in sys.contents <==> Reachable(m, s)
    {
      if Reachable(m, s) {
        var k: nat :| ReachedIn(m, s, k);
        ReachedIsTaken(m, sys, s, k);
      }
    }
  }

  /** Even before that, no state is ever expanded twice or without being reachable. */
  lemma NeverTwice(m: Lts, n: nat, schedule: seq<nat>)
    requires n > 0 && Schedule(n, schedule)
    ensures var sys := Run(m, n, schedule);
            Distinct(sys.log) && forall s :: s in sys.log ==> Reachable(m, s)
  {
    RunFits(m, n, schedule);
    var sys := Run(m, n, schedule);
    hide Run;
    forall i, j | 0 <= i < j < |sys.log|
      ensures sys.log[i] != sys.log[j]
    {
      assert (sys.log + sys.queue)[i] == sys.log[i] && (sys.log + sys.queue)[j] == sys.log[j];
    }
    assert forall s :: s in sys.log ==> s in sys.log + sys.queue;
  }

  // ----- Termination -----

  /** Steps that taking a state leads to: storing and queueing each successor, taking, and finishing. */
  function Cost(m: Lts, s: Bytes): nat { 2 * |m.next(s)| + 2 }

  /** The cost of the states of a universe that were not taken yet. */
  function Left(m: Lts, universe: seq<Bytes>, log: seq<Bytes>): nat {
    if universe == [] then 0
    else (if universe[0] in log then 0 else Cost(m, universe[0])) + Left(m, universe[1..], log)
  }

  function Work(w: Worker): nat {
    match w
    case Idle => 1
    case Expanding(_, rest) => 2 * |rest| + 2
    case Queueing(_, _, rest) => 2 * |rest| + 3
    case Stopped => 0
  }

  function AllWork(workers: seq<Worker>): nat {
    if workers == [] then 0 else AllWork(workers[..|workers| - 1]) + Work(workers[|workers| - 1])
  }

  function StepsLeft(m: Lts, universe: seq<Bytes>, sys: System): nat {
    Left(m, universe, sys.log) + AllWork(sys.workers)
  }

  lemma {:induction false} WorkUpdate(workers: seq<Worker>, i: nat, w: Worker)
    requires i < |workers|
    ensures AllWork(workers[i := w]) + Work(workers[i]) == AllWork(workers) + Work(w)
  {
    var last := |workers| - 1;
    if i < last {
      WorkUpdate(workers[..last], i, w);
      assert workers[i := w][..last] == workers[..last][i := w];
    } else {
      assert workers[i := w][..last] == workers[..last];
    }
  }

  lemma {:induction false} TakingReduces(m: Lts, universe: seq<Bytes>, log: seq<Bytes>, s: Bytes)
    requires s !in log
    ensures Left(m, universe, log + [s]) + (if s in universe then Cost(m, s) else 0) <= Left(m, universe, log)
  {
    if universe != [] {
      TakingReduces(m, universe[1..], log, s);
      assert universe == [universe[0]] + universe[1..];
    }
  }

  lemma QueuedIsNew(m: Lts, sys: System)
    requires Fits(m, sys) && sys.queue != []
    ensures Reachable(m, sys.queue[0]) && sys.queue[0] !in sys.log
  {
    var placed := sys.log + sys.queue;
    assert placed[|sys.log|] == sys.queue[0];
    forall i | 0 <= i < |sys.log|
      ensures sys.log[i] != sys.queue[0]
    {
      assert placed[i] == sys.log[i];
    }
    assert sys.queue[0] in placed;
    hide Reachable;
  }

  lemma StepReduces(m: Lts, universe: seq<Bytes>, sys: System, i: nat)
    requires Fits(m, sys) && i < |sys.workers| && sys.workers[i] != Stopped
    requires forall s :: Reachable(m, s) ==> s in universe
    ensures StepsLeft(m, universe, Step(m, sys, i)) < StepsLeft(m, universe, sys)
  {
    var sys' := Step(m, sys, i);
    WorkUpdate(sys.workers, i, sys'.workers[i]);
    if sys.workers[i].Idle? && sys.queue != [] {
      QueuedIsNew(m, sys);
      TakingReduces(m, universe, sys.log, sys.queue[0]);
    }
    hide Fits, Reachable, AllWork, Left, Intern;
  }

  /** Every step of the run is one of a worker that has not stopped. */
  predicate Active(m: Lts, n: nat, schedule: seq<nat>)
    requires Schedule(n, schedule)
  {
    schedule == []
    || (var last := |schedule| - 1;
        assert Schedule(n, schedule[..last]);
        Active(m, n, schedule[..last]) && Run(m, n, schedule[..last]).workers[schedule[last]] != Stopped)
  }

  /** On a finite space all workers stop: no run has more active steps than this. */
  lemma {:induction false} RunsEnd(m: Lts, n: nat, schedule: seq<nat>, universe: seq<Bytes>)
    requires n > 0 && Schedule(n, schedule) && Active(m, n, schedule)
    requires forall s :: Reachable(m, s) ==> s in universe
    ensures |schedule| + StepsLeft(m, universe, Run(m, n, schedule)) <= StepsLeft(m, universe, Start(m, n))
  {
    hide StepsLeft, Step, Start, Reachable;
    if schedule != [] {
      var last := |schedule| - 1;
      RunsEnd(m, n, schedule[..last], universe);
      RunFits(m, n, schedule[..last]);
      StepReduces(m, universe, Run(m, n, schedule[..last]), schedule[last]);
    }
  }
}
