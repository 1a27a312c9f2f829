/**
 Progress in the hash map of the hashmap benchmark. Apart from waiting for the value of a key that another call has
 claimed, every call takes boundedly many steps, and whoever waits, the call it waits for does not.
 */
module HashMapProgress {
  import opened Schedules
  import opened Counting
  import opened HashMap

  predicate Finished(c: Call) { c.pc in {Inserted, Found} }

  /** The call would load the value of its key again. */
  predicate Waits(s: Shared, c: Call)
    requires InBounds(s, c)
  {
    c.pc == LoadValue && s.values[c.slot] == 0
  }

  // ----- Steps made -----

  /** How many steps a call has made at least: two for every slot passed, and those at the slot it has come to. */
  function Made(c: Call): (n: nat)
    ensures n <= 2 * c.probes + 3
  {
    2 * c.probes
    + match c.pc
      case LoadKey => 0
      case CasKey => 1
      case StoreValue => 2
      case LoadValue => 2
      case Inserted => 3
      case Found => 3
  }

  function AllMade(calls: seq<Call>): (ks: seq<nat>)
    ensures |ks| == |calls| && forall i :: 0 <= i < |ks| ==> ks[i] == Made(calls[i])
  {
    seq(|calls|, i requires 0 <= i < |calls| => Made(calls[i]))
  }

  /** A call that does not wait comes nearer to its return: a failed cmpxchg leaves nothing to be loaded again. */
  lemma StepMakes(s: Shared, c: Call)
    requires InBounds(s, c) && CallFits(s, c)
    ensures var c' := StepCall(s, c).1;
            if Finished(c) || Waits(s, c) then Made(c') == Made(c) else Made(c') > Made(c)
  {
    hide Passed, Probe;
  }

  lemma StepMakesInAll(sys: System, i: nat)
    requires AllInBounds(sys) && Fits(sys) && i < |sys.calls|
    ensures var before, after, c := Sum(AllMade(sys.calls)), Sum(AllMade(Step(sys, i).calls)), sys.calls[i];
            if Finished(c) || Waits(sys.shared, c) then after == before else after > before
  {
    assert CallFits(sys.shared, sys.calls[i]);
    var sys' := Step(sys, i);
    hide Fits, CallFits, StepCall, Made, Waits, Finished;
    StepMakes(sys.shared, sys.calls[i]);
    var made, made' := AllMade(sys.calls), AllMade(sys'.calls);
    assert made' == made[i := made'[i]];
    SumUpdate(made, i, made'[i]);
  }

  lemma MadeIsBounded(sys: System, schedule: seq<nat>)
    requires Initial(sys) && AllInBounds(sys) && Schedule(|sys.calls|, schedule)
    requires |CallKeys(sys.calls)| <= |sys.shared.keys|
    ensures Sum(AllMade(Run(sys, schedule).calls)) <= (2 * |sys.shared.keys| + 1) * |sys.calls|
  {
    var made := AllMade(Run(sys, schedule).calls);
    forall i | 0 <= i < |made|
      ensures made[i] <= 2 * |sys.shared.keys| + 1
    {
      ProbesNeverGoRound(sys, schedule, i);
    }
    hide *;
    SumBound(made, 2 * |sys.shared.keys| + 1);
  }

  // ----- Runs -----

  /** How many steps of a run are by calls that have neither returned nor wait. */
  function BusySteps(sys: System, schedule: seq<nat>): nat
    requires AllInBounds(sys) && Schedule(|sys.calls|, schedule)
  {
    if schedule == [] then 0
    else
      var last := |schedule| - 1;
      assert Schedule(|sys.calls|, schedule[..last]);
      var sys1 := Run(sys, schedule[..last]);
      var c := sys1.calls[schedule[last]];
      BusySteps(sys, schedule[..last]) + if Finished(c) || Waits(sys1.shared, c) then 0 else 1
  }

  lemma {:induction false} BusyStepsAreMade(sys: System, schedule: seq<nat>)
    requires Initial(sys) && AllInBounds(sys) && Schedule(|sys.calls|, schedule)
    ensures BusySteps(sys, schedule) <= Sum(AllMade(Run(sys, schedule).calls))
  {
    hide Initial, Fits, Step, Waits, Finished, AllMade;
    if schedule != [] {
      var last := |schedule| - 1;
      BusyStepsAreMade(sys, schedule[..last]);
      RunFits(sys, schedule[..last]);
      StepMakesInAll(Run(sys, schedule[..last]), schedule[last]);
    }
  }

  /**
   With at least as many slots as distinct keys, and whatever the schedule: the calls make at most 2 * n + 1 steps
   each besides waiting, where n is the number of slots.
   */
  lemma BusyStepsAreBounded(sys: System, schedule: seq<nat>)
    requires Initial(sys) && AllInBounds(sys) && Schedule(|sys.calls|, schedule)
    requires |CallKeys(sys.calls)| <= |sys.shared.keys|
    ensures BusySteps(sys, schedule) <= (2 * |sys.shared.keys| + 1) * |sys.calls|
  {
    hide *;
    BusyStepsAreMade(sys, schedule);
    MadeIsBounded(sys, schedule);
  }

  // ----- Waiting -----

  /** A call that waits, waits for one that is about to store the value, or for ever, because the value stored is 0. */
  lemma WaitsForOwner(sys: System, i: nat) returns (j: nat)
    requires AllInBounds(sys) && Fits(sys) && i < |sys.calls| && Waits(sys.shared, sys.calls[i])
    ensures j < |sys.calls| && sys.calls[j].key == sys.calls[i].key
    ensures sys.calls[j].pc == StoreValue || (sys.calls[j].pc == Inserted && sys.calls[j].value == 0)
  {
    assert CallFits(sys.shared, sys.calls[i]);
    j := OwnerOf(sys, sys.calls[i].slot);
    assert CallFits(sys.shared, sys.calls[j]);
  }

  predicate ValuesNonzero(calls: seq<Call>) {
    forall i :: 0 <= i < |calls| ==> calls[i].value != 0
  }

  /** As long as a call has not returned, some call has not and does not wait. */
  lemma SomeCallIsBusy(sys: System) returns (i: nat)
    requires AllInBounds(sys) && Fits(sys) && ValuesNonzero(sys.calls) && !Returned(sys)
    ensures i < |sys.calls| && !Finished(sys.calls[i]) && !Waits(sys.shared, sys.calls[i])
  {
    i :| i < |sys.calls| && !Finished(sys.calls[i]);
    hide Fits;
    if Waits(sys.shared, sys.calls[i]) {
      i := WaitsForOwner(sys, i);
    }
  }

  function StepsMade(sys: System, schedule: seq<nat>): nat
    requires AllInBounds(sys) && Schedule(|sys.calls|, schedule)
  {
    Sum(AllMade(Run(sys, schedule).calls))
  }

  lemma OneMoreStep(sys: System, before: seq<nat>) returns (i: nat)
    requires Initial(sys) && AllInBounds(sys) && Schedule(|sys.calls|, before) && ValuesNonzero(sys.calls)
    requires !Returned(Run(sys, before))
    ensures i < |sys.calls| && StepsMade(sys, before + [i]) > StepsMade(sys, before)
  {
    var now := Run(sys, before);
    RunFits(sys, before);
    assert ValuesNonzero(now.calls);
    hide Initial, Fits, AllMade, Returned, Waits, Finished, ValuesNonzero;
    i := SomeCallIsBusy(now);
    var next := before + [i];
    assert next[..|next| - 1] == before;
    hide Step;
    StepMakesInAll(now, i);
  }

  lemma {:induction false} CallsCanReturn(sys: System, before: seq<nat>) returns (more: seq<nat>)
    requires Initial(sys) && AllInBounds(sys) && Schedule(|sys.calls|, before) && ValuesNonzero(sys.calls)
    requires |CallKeys(sys.calls)| <= |sys.shared.keys|
    ensures Schedule(|sys.calls|, before + more) && Returned(Run(sys, before + more))
    decreases (2 * |sys.shared.keys| + 1) * |sys.calls| - StepsMade(sys, before)
  {
    hide Initial, CallKeys, Run, Returned, ValuesNonzero, AllInBounds, Sum;
    if Returned(Run(sys, before)) {
      more := [];
      assert before + more == before;
    } else {
      var i := OneMoreStep(sys, before);
      MadeIsBounded(sys, before + [i]);
      var rest := CallsCanReturn(sys, before + [i]);
      more := [i] + rest;
      assert before + more == before + [i] + rest;
    }
  }

  ghost predicate CanReturn(sys: System, before: seq<nat>)
    requires AllInBounds(sys)
  {
    exists more :: Schedule(|sys.calls|, before + more) && Returned(Run(sys, before + more))
  }

  /**
   Wherever a run of calls with nonzero values has come to, it can still go on until all calls have returned, exactly
   if there are at least as many slots as distinct keys.
   */
  lemma AllCanReturnIff(sys: System, before: seq<nat>)
    requires Initial(sys) && AllInBounds(sys) && Schedule(|sys.calls|, before) && ValuesNonzero(sys.calls)
    ensures CanReturn(sys, before) <==> |CallKeys(sys.calls)| <= |sys.shared.keys|
  {
    hide Initial, CallKeys, Run, Returned, ValuesNonzero, AllInBounds;
    if |CallKeys(sys.calls)| <= |sys.shared.keys| {
      var more := CallsCanReturn(sys, before);
    }
    if CanReturn(sys, before) {
      var more :| Schedule(|sys.calls|, before + more) && Returned(Run(sys, before + more));
      ReturningTakesRoom(sys, before + more);
    }
  }
}
