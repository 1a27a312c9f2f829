/**
 Completeness of the reduction: every outcome of the interleaving of single instructions is reached
 by merged stepping.

 The proof follows an instruction run and lets the merged run keep each process either ahead of it by
 local instructions, or behind it by quiet ones. When a process accesses memory or terminates, the merged
 run catches up with it by as many model_steps as it passes joins.
 */
module Outcomes {
  import Ir
  import opened Machine
  import opened PcClosure
  import opened Reduction
  import opened Views

  // ----- The loop of model_step -----

  ghost predicate LoopReports(P: Program, s: State, p: nat, emitted: bool, s': State) {
    p < |s.procs| && exists fuel: nat, events :: Loop(P, s, p, emitted, fuel) == Report(s', events)
  }

  /** The loop does not run the group at p's pc. */
  predicate Stops(P: Program, s: State, p: nat, emitted: bool)
    requires p < |s.procs|
  {
    s.procs[p].pc.At? ==>
      && Head(P, s.procs[p].pc.block, s.procs[p].pc.index) && emitted
      && Emits(P, s.procs[p].pc.block, s.procs[p].pc.index, End(P, s.procs[p].pc.block, s.procs[p].pc.index))
  }

  lemma LoopStops(P: Program, s: State, p: nat, emitted: bool)
    requires p < |s.procs| && Stops(P, s, p, emitted)
    ensures LoopReports(P, s, p, emitted, s)
  {
    hide ExecGroup, Head, Emits, End;
    assert Loop(P, s, p, emitted, 0) == Report(s, []);
  }

  lemma LoopUnroll(P: Program, s: State, p: nat, emitted: bool, b: nat, i: nat, s': State)
    requires p < |s.procs| && s.procs[p].pc == At(b, i) && Head(P, b, i) && !(emitted && Emits(P, b, i, End(P, b, i)))
    requires ExecGroup(P, s, p, b, i).Next?
    requires LoopReports(P, ExecGroup(P, s, p, b, i).s, p, emitted || Emits(P, b, i, End(P, b, i)), s')
    ensures LoopReports(P, s, p, emitted, s')
  {
    hide ExecGroup, Head, Emits, End;
    var r, emitted' := ExecGroup(P, s, p, b, i), emitted || Emits(P, b, i, End(P, b, i));
    var fuel: nat, events :| Loop(P, r.s, p, emitted', fuel) == Report(s', events);
    assert Loop(P, s, p, emitted, fuel + 1) == Report(s', r.events + events);
  }

  lemma ReportIsStep(P: Program, s: State, p: nat, s': State)
    requires p < |s.procs| && s.procs[p].pc.At? && LoopReports(P, s, p, false, s')
    ensures exists events :: Steps(P, s, p, s', events)
  {
    hide Loop;
    var fuel: nat, events :| Loop(P, s, p, false, fuel) == Report(s', events);
    assert StepProcess(P, s, p, fuel) == Report(s', events);
    assert Steps(P, s, p, s', events);
  }

  lemma ClosedPc(P: Program, s: State, p: nat)
    requires AllClosed(P, s) && p < |s.procs|
    ensures s.procs[p].pc.At? ==>
              Head(P, s.procs[p].pc.block, s.procs[p].pc.index) && Inside(P, s.procs[p].pc.block, s.procs[p].pc.index)
  {
    assert ProcClosed(P, s.procs[p]);
  }

  /** From s the loop runs local instructions to s'. */
  ghost predicate Drains(P: Program, s: State, p: nat, s': State, k: nat) {
    && LoopReports(P, s, p, true, s') && Framed(s, s', p) && AllClosed(P, s') && s'.mem == s.mem
    && LocalRun(P, p, ViewOf(s, p), k) == Ir.Some(ViewOf(s', p))
  }

  lemma DrainsAtOnce(P: Program, s: State, p: nat)
    requires p < |s.procs| && AllClosed(P, s) && Stops(P, s, p, true)
    ensures Drains(P, s, p, s, 0)
  {
    hide Stops, AllClosed, LoopReports;
    LoopStops(P, s, p, true);
    FrameReflexive(s, p);
  }

  lemma DrainsFurther(P: Program, s: State, p: nat, b: nat, i: nat, s': State, k: nat)
    requires p < |s.procs| && s.procs[p].pc == At(b, i) && Head(P, b, i) && Inside(P, b, i) && !Emits(P, b, i, End(P, b, i))
    requires LocalGroupRun(P, s, p, b, i)
    requires Drains(P, ExecGroup(P, s, p, b, i).s, p, s', k)
    ensures Drains(P, s, p, s', End(P, b, i) - i + k)
  {
    hide ExecGroup, Head, Emits, End, AllClosed, LoopReports, LocalRun, Framed, ViewOf;
    var s1 := ExecGroup(P, s, p, b, i).s;
    LoopUnroll(P, s, p, true, b, i, s');
    FrameTransitive(s, s1, s', p);
    LocalRunSplit(P, p, ViewOf(s, p), End(P, b, i) - i, k);
  }

  /** After the memory access the loop ends, at the latest where p's local run settles. */
  lemma {:induction false} LoopDrains(P: Program, s: State, p: nat, n: nat) returns (s': State, k: nat)
    requires FixedThreads(P) && AllClosed(P, s) && p < |s.procs|
    requires LocalRun(P, p, ViewOf(s, p), n).Some? && Settled(P, LocalRun(P, p, ViewOf(s, p), n).value)
    ensures Drains(P, s, p, s', k)
    decreases n
  {
    hide *;
    ClosedPc(P, s, p);
    s', k := s, 0;
    if s.procs[p].pc == Halted {
      StopsWhenHalted(P, s, p, true);
      DrainsAtOnce(P, s, p);
    } else {
      var b, i := s.procs[p].pc.block, s.procs[p].pc.index;
      EndIsInside(P, b, i);
      if Emits(P, b, i, End(P, b, i)) {
        StopsAtEmitting(P, s, p, b, i);
        DrainsAtOnce(P, s, p);
      } else {
        var len := End(P, b, i) - i;
        LocalGroupRuns(P, s, p, b, i);
        LocalGroupParts(P, s, p, b, i);
        SettledIsLongest(P, p, ViewOf(s, p), len, n);
        s', k := LoopDrains(P, ExecGroup(P, s, p, b, i).s, p, n - len);
        DrainsFurther(P, s, p, b, i, s', k);
        k := len + k;
      }
    }
  }

  lemma EndIsInside(P: Program, b: nat, i: nat)
    requires Inside(P, b, i)
    ensures b < |P.blocks| && i < End(P, b, i) <= |P.blocks[b]| && Inside(P, b, End(P, b, i) - 1)
  {
  }

  lemma StopsWhenHalted(P: Program, s: State, p: nat, emitted: bool)
    requires p < |s.procs| && s.procs[p].pc == Halted
    ensures Stops(P, s, p, emitted)
  {
  }

  lemma StopsAtEmitting(P: Program, s: State, p: nat, b: nat, i: nat)
    requires p < |s.procs| && s.procs[p].pc == At(b, i) && Head(P, b, i) && Emits(P, b, i, End(P, b, i))
    ensures Stops(P, s, p, true)
  {
  }

  // ----- On the way to a target -----

  /**
   p is k quiet instructions before the target c, which it has terminated at, or at which it will access
   memory without blocking and then settle after n local instructions.
   */
  ghost predicate Aim(P: Program, s: State, p: nat, k: nat, c: Config, n: nat) {
    && p < |s.procs| && c.mem == s.mem && Target(P, c.view)
    && QuietRun(P, p, ViewOf(s, p), k, s.tres) == Ir.Some(c.view)
    && (c.view.proc.pc != Halted ==> CanAccess(P, p, c, s.tres, n))
  }

  /** The instruction at c does not block, and n local instructions after it the process settles. */
  ghost predicate CanAccess(P: Program, p: nat, c: Config, env: Results, n: nat) {
    && Runnable(P, c.view) && Simple(InstrAt(P, c.view)) && Ready(env, c.view.proc, InstrAt(P, c.view))
    && LocalRun(P, p, MicroStep(P, p, c, env).view, n).Some? && Settled(P, LocalRun(P, p, MicroStep(P, p, c, env).view, n).value)
  }

  /** The loop brings p nearer to the target. */
  ghost predicate Advances(P: Program, s: State, p: nat, emitted: bool, k: nat, c: Config, n: nat, s': State, k': nat) {
    && LoopReports(P, s, p, emitted, s') && Framed(s, s', p) && AllClosed(P, s') && s'.mem == s.mem
    && Aim(P, s', p, k', c, n) && k' <= k && (c.view.proc.pc != Halted ==> s'.tres == s.tres)
  }

  /** The loop takes p through the access c to s'. */
  ghost predicate Performs(P: Program, s: State, p: nat, c: Config, s': State, j: nat) {
    && LoopReports(P, s, p, false, s') && Accessed(P, s, p, c, s', j)
  }

  /** s' is s after p's access c and j local instructions. */
  ghost predicate Accessed(P: Program, s: State, p: nat, c: Config, s': State, j: nat) {
    && Runnable(P, c.view) && Simple(InstrAt(P, c.view))
    && Framed(s, s', p) && AllClosed(P, s') && s'.mem == MicroStep(P, p, c, s.tres).mem
    && LocalRun(P, p, MicroStep(P, p, c, s.tres).view, j) == Ir.Some(ViewOf(s', p))
  }

  lemma AdvancesNot(P: Program, s: State, p: nat, emitted: bool, k: nat, c: Config, n: nat)
    requires Aim(P, s, p, k, c, n) && AllClosed(P, s) && p < |s.procs| && Stops(P, s, p, emitted)
    ensures Advances(P, s, p, emitted, k, c, n, s, k)
  {
    hide Stops, AllClosed, LoopReports, Aim;
    LoopStops(P, s, p, emitted);
    FrameReflexive(s, p);
    AimParts(P, s, p, k, c, n);
  }

  lemma AimParts(P: Program, s: State, p: nat, k: nat, c: Config, n: nat)
    requires Aim(P, s, p, k, c, n)
    ensures p < |s.procs| && c.mem == s.mem && Target(P, c.view)
    ensures QuietRun(P, p, ViewOf(s, p), k, s.tres) == Ir.Some(c.view)
    ensures c.view.proc.pc != Halted ==> CanAccess(P, p, c, s.tres, n)
  {
  }

  /** A group without an access on the way to the target. */
  lemma QuietGroupAims(P: Program, s: State, p: nat, b: nat, i: nat, k: nat, c: Config, n: nat)
    requires FixedThreads(P) && AllClosed(P, s) && Aim(P, s, p, k, c, n) && s.procs[p].pc == At(b, i) && Head(P, b, i)
    requires QuietGroup(P, b, i)
    ensures var r, len := ExecGroup(P, s, p, b, i), End(P, b, i) - i;
            && 0 < len <= k && r.Next? && Framed(s, r.s, p) && AllClosed(P, r.s) && r.s.mem == s.mem
            && Aim(P, r.s, p, k - len, c, n) && (c.view.proc.pc != Halted ==> r.s.tres == s.tres)
  {
    hide ExecGroup, Head, Emits, End, AllClosed, QuietRun, CanAccess, ViewOf, Framed, Target, QuietPart, Quiet, FixedThreads;
    ViewHasPc(s, p);
    QuietGroupParts(P, b, i);
    PassesGroup(P, p, b, i, End(P, b, i), ViewOf(s, p), k, s.tres);
    QuietGroupRuns(P, s, p, b, i, k);
    var r, len := ExecGroup(P, s, p, b, i), End(P, b, i) - i;
    ViewHasPc(r.s, p);
    HaltedIsThere(P, p, ViewOf(r.s, p), k - len, s.tres, r.s.tres);
  }

  /** No instruction is left for a terminated view. */
  lemma HaltedIsThere(P: Program, p: nat, v: View, k: nat, env: Results, env': Results)
    requires QuietRun(P, p, v, k, env).Some?
    ensures v.proc.pc == Halted ==> k == 0 && QuietRun(P, p, v, k, env) == Ir.Some(v) == QuietRun(P, p, v, k, env')
  {
  }

  lemma AdvancesFurther(P: Program, s: State, p: nat, emitted: bool, b: nat, i: nat, k1: nat, k: nat, c: Config, n: nat,
                        s': State, k': nat)
    requires k1 <= k && p < |s.procs| && s.procs[p].pc == At(b, i) && Head(P, b, i) && !(emitted && Emits(P, b, i, End(P, b, i)))
    requires var r := ExecGroup(P, s, p, b, i);
             && r.Next? && Framed(s, r.s, p) && r.s.mem == s.mem && (c.view.proc.pc != Halted ==> r.s.tres == s.tres)
             && Advances(P, r.s, p, emitted || Emits(P, b, i, End(P, b, i)), k1, c, n, s', k')
    ensures k' <= k1 && Advances(P, s, p, emitted, k, c, n, s', k')
  {
    hide ExecGroup, Head, Emits, End, AllClosed, LoopReports, Framed, Aim;
    LoopUnroll(P, s, p, emitted, b, i, s');
    FrameTransitive(s, ExecGroup(P, s, p, b, i).s, s', p);
  }

  lemma PerformsFurther(P: Program, s: State, p: nat, b: nat, i: nat, c: Config, s': State, j: nat)
    requires p < |s.procs| && s.procs[p].pc == At(b, i) && Head(P, b, i) && !Emits(P, b, i, End(P, b, i))
    requires var r := ExecGroup(P, s, p, b, i);
             r.Next? && Framed(s, r.s, p) && r.s.tres == s.tres && Performs(P, r.s, p, c, s', j)
    ensures Performs(P, s, p, c, s', j)
  {
    hide ExecGroup, Head, Emits, End, AllClosed, LoopReports, Framed, LocalRun, MicroStep;
    LoopUnroll(P, s, p, false, b, i, s');
    FrameTransitive(s, ExecGroup(P, s, p, b, i).s, s', p);
  }

  /** The group with the access. */
  lemma AccessGroupPerforms(P: Program, s: State, p: nat, b: nat, i: nat, x: nat, k: nat, c: Config, n: nat)
    returns (s': State, j: nat)
    requires FixedThreads(P) && AllClosed(P, s) && Aim(P, s, p, k, c, n) && s.procs[p].pc == At(b, i) && Head(P, b, i)
    requires AccessPart(P, b, i, x, End(P, b, i)) && Emits(P, b, i, End(P, b, i))
    ensures c.view.proc.pc != Halted && Performs(P, s, p, c, s', j)
  {
    hide *;
    AimIsAtGroup(P, s, p, b, i, x, k, c, n);
    AccessGroupRuns(P, s, p, b, i, x, k, c);
    var after, s1 := End(P, b, i) - x - 1, ExecGroup(P, s, p, b, i).s;
    ThroughParts(P, s, p, c, after, s1);
    CanAccessParts(P, p, c, s.tres, n);
    var v := MicroStep(P, p, c, s.tres).view;
    SettledIsLongest(P, p, v, after, n);
    FrameSlots(s, s1, p);
    var k2;
    s', k2 := LoopDrains(P, s1, p, n - after);
    j := after + k2;
    ThroughAndDrain(P, s, p, b, i, c, after, s', k2);
  }

  lemma AimIsAtGroup(P: Program, s: State, p: nat, b: nat, i: nat, x: nat, k: nat, c: Config, n: nat)
    requires Aim(P, s, p, k, c, n) && s.procs[p].pc == At(b, i) && Head(P, b, i)
    requires AccessPart(P, b, i, x, End(P, b, i))
    ensures p < |s.procs| && c.view.proc.pc != Halted && CanAccess(P, p, c, s.tres, n)
    ensures AtAccessGroup(P, s, p, b, i, x, k, c)
  {
    hide Head, End, QuietRun, LocalRun, MicroStep, Settled, LocalBetween, QuietPart, Access, Plain, Ready, Simple;
    ViewHasPc(s, p);
    AccessGroupView(P, p, b, i, x, ViewOf(s, p), k, s.tres);
  }

  lemma CanAccessParts(P: Program, p: nat, c: Config, env: Results, n: nat)
    requires CanAccess(P, p, c, env, n)
    ensures Runnable(P, c.view) && Simple(InstrAt(P, c.view))
    ensures LocalRun(P, p, MicroStep(P, p, c, env).view, n).Some? && Settled(P, LocalRun(P, p, MicroStep(P, p, c, env).view, n).value)
  {
  }

  lemma ThroughParts(P: Program, s: State, p: nat, c: Config, after: nat, s1: State)
    requires p < |s.procs| && ThroughAccess(P, s, p, c, after, s1)
    ensures Runnable(P, c.view) && Simple(InstrAt(P, c.view)) && Framed(s, s1, p) && AllClosed(P, s1) && p < |s1.procs|
    ensures LocalRun(P, p, MicroStep(P, p, c, s.tres).view, after) == Ir.Some(ViewOf(s1, p))
  {
  }

  lemma ThroughAndDrain(P: Program, s: State, p: nat, b: nat, i: nat, c: Config, after: nat, s': State, k: nat)
    requires p < |s.procs| && s.procs[p].pc == At(b, i) && Head(P, b, i) && Emits(P, b, i, End(P, b, i))
    requires ExecGroup(P, s, p, b, i).Next? && ThroughAccess(P, s, p, c, after, ExecGroup(P, s, p, b, i).s)
    requires Drains(P, ExecGroup(P, s, p, b, i).s, p, s', k)
    ensures Performs(P, s, p, c, s', after + k)
  {
    hide ExecGroup, Head, Emits, End, AllClosed, LoopReports, LocalRun, MicroStep, Framed, ViewOf;
    var s1 := ExecGroup(P, s, p, b, i).s;
    LoopUnroll(P, s, p, false, b, i, s');
    FrameTransitive(s, s1, s', p);
    LocalRunSplit(P, p, MicroStep(P, p, c, s.tres).view, after, k);
  }

  /** One run of the loop: it takes p through the access or brings it nearer to the target. */
  lemma {:induction false} LoopAdvances(P: Program, s: State, p: nat, emitted: bool, k: nat, c: Config, n: nat)
    returns (performs: bool, s': State, j: nat)
    requires FixedThreads(P) && AllClosed(P, s) && Aim(P, s, p, k, c, n)
    ensures performs ==> !emitted && c.view.proc.pc != Halted && Performs(P, s, p, c, s', j)
    ensures !performs ==> Advances(P, s, p, emitted, k, c, n, s', j)
    ensures !performs && !emitted && s.procs[p].pc != Halted ==> j < k
    decreases k
  {
    hide *;
    AimParts(P, s, p, k, c, n);
    ClosedPc(P, s, p);
    performs, s', j := false, s, k;
    if s.procs[p].pc == Halted {
      StopsWhenHalted(P, s, p, emitted);
      AdvancesNot(P, s, p, emitted, k, c, n);
    } else {
      var b, i := s.procs[p].pc.block, s.procs[p].pc.index;
      EndIsInside(P, b, i);
      var emits := Emits(P, b, i, End(P, b, i));
      var access, x := GroupKind(P, b, i);
      if emits && emitted {
        StopsAtEmitting(P, s, p, b, i);
        AdvancesNot(P, s, p, emitted, k, c, n);
      } else if access {
        s', j := AccessGroupPerforms(P, s, p, b, i, x, k, c, n);
        performs := true;
      } else {
        QuietGroupAims(P, s, p, b, i, k, c, n);
        var s1, len := ExecGroup(P, s, p, b, i).s, End(P, b, i) - i;
        performs, s', j := LoopAdvances(P, s1, p, emitted || emits, k - len, c, n);
        if performs {
          PerformsFurther(P, s, p, b, i, c, s', j);
        } else {
          AdvancesFurther(P, s, p, emitted, b, i, k - len, k, c, n, s', j);
        }
      }
    }
  }

  /** s' is s after p has come to the target c, and through it by j local instructions if it is an access. */
  ghost predicate Reached(P: Program, s: State, p: nat, c: Config, s': State, j: nat) {
    if c.view.proc.pc == Halted then Framed(s, s', p) && AllClosed(P, s') && s'.mem == s.mem && ViewOf(s', p) == c.view
    else Accessed(P, s, p, c, s', j)
  }

  lemma {:induction false} MergedRunsAppend(P: Program, s: State, n: nat, s1: State, m: nat, t: State)
    requires MergedRuns(P, s, n, s1) && MergedRuns(P, s1, m, t)
    ensures MergedRuns(P, s, n + m, t)
    decreases n
  {
    hide Steps;
    if n > 0 {
      var p: nat, s2, events :| Steps(P, s, p, s2, events) && MergedRuns(P, s2, n - 1, s1);
      MergedRunsAppend(P, s2, n - 1, s1, m, t);
      assert MergedRuns(P, s2, n - 1 + m, t);
    }
  }

  lemma OneMergedRun(P: Program, s: State, p: nat, s': State, events: seq<Event>)
    requires Steps(P, s, p, s', events)
    ensures MergedRuns(P, s, 1, s')
  {
    hide Steps;
    assert MergedRuns(P, s', 0, s');
  }

  lemma NoMergedRun(P: Program, s: State)
    ensures MergedRuns(P, s, 0, s)
  {
  }

  /** As many model_steps of p as it takes. */
  lemma {:induction false} CatchesUp(P: Program, s: State, p: nat, k: nat, c: Config, n: nat)
    returns (steps: nat, s': State, j: nat)
    requires FixedThreads(P) && AllClosed(P, s) && Aim(P, s, p, k, c, n)
    ensures MergedRuns(P, s, steps, s') && Reached(P, s, p, c, s', j) && (s.procs[p].pc == Halted ==> s' == s)
    decreases k
  {
    hide *;
    AimParts(P, s, p, k, c, n);
    steps, s', j := 0, s, 0;
    if s.procs[p].pc == Halted {
      NoMergedRun(P, s);
      ReachedAlready(P, s, p, k, c, n);
    } else {
      var performs, s1, j1 := LoopAdvances(P, s, p, false, k, c, n);
      PerformsOrAdvances(P, s, p, performs, k, c, n, s1, j1);
      ReportIsStep(P, s, p, s1);
      var events :| Steps(P, s, p, s1, events);
      OneMergedRun(P, s, p, s1, events);
      if performs {
        steps, s', j := 1, s1, j1;
      } else {
        steps, s', j := CatchesUp(P, s1, p, j1, c, n);
        MergedRunsAppend(P, s, 1, s1, steps, s');
        ReachedFurther(P, s, p, k, c, n, s1, j1, s', j);
        steps := 1 + steps;
      }
    }
  }

  lemma ReachedAlready(P: Program, s: State, p: nat, k: nat, c: Config, n: nat)
    requires Aim(P, s, p, k, c, n) && AllClosed(P, s) && s.procs[p].pc == Halted
    ensures Reached(P, s, p, c, s, 0)
  {
    hide AllClosed, QuietRun, CanAccess, Target;
    ViewHasPc(s, p);
    HaltedIsThere(P, p, ViewOf(s, p), k, s.tres, s.tres);
    FrameReflexive(s, p);
  }

  lemma PerformsOrAdvances(P: Program, s: State, p: nat, performs: bool, k: nat, c: Config, n: nat, s': State, j: nat)
    requires if performs then c.view.proc.pc != Halted && Performs(P, s, p, c, s', j)
             else Advances(P, s, p, false, k, c, n, s', j)
    ensures LoopReports(P, s, p, false, s') && AllClosed(P, s')
    ensures performs ==> Reached(P, s, p, c, s', j)
    ensures !performs ==> Aim(P, s', p, j, c, n)
  {
    hide AllClosed, LoopReports, Framed, LocalRun, MicroStep, Aim;
  }

  lemma ReachedFurther(P: Program, s: State, p: nat, k: nat, c: Config, n: nat, s1: State, k1: nat, s': State, j: nat)
    requires Advances(P, s, p, false, k, c, n, s1, k1) && Reached(P, s1, p, c, s', j)
    ensures Reached(P, s, p, c, s', j)
  {
    hide AllClosed, LoopReports, Framed, LocalRun, MicroStep, Aim;
    FrameTransitive(s, s1, s', p);
  }

  // ----- The simulation -----

  /** The merged view is some local instructions ahead of the instruction view, or some quiet ones behind it. */
  ghost predicate RelView(P: Program, p: nat, cv: View, mv: View, env: Results) {
    || (exists n :: LocalRun(P, p, cv, n) == Ir.Some(mv))
    || (cv.proc.pc != Halted && exists k :: QuietRun(P, p, mv, k, env) == Ir.Some(cv))
  }

  /** The two states agree outside the processes' views. */
  ghost predicate SameElsewhere(c: State, m: State) {
    && |c.procs| == |m.procs| && c.mem == m.mem && c.status == m.status && c.threadsStarted == m.threadsStarted
    && (forall p :: 0 <= p < |c.procs| ==> c.procs[p].tid == m.procs[p].tid)
    && (forall t: int {:trigger t in c.tres} {:trigger t in m.tres} ::
          (forall p :: 0 <= p < |c.procs| ==> c.procs[p].tid != t) ==>
            (t in c.tres <==> t in m.tres) && (t in c.tres ==> c.tres[t] == m.tres[t]))
  }

  ghost predicate AllRelated(P: Program, c: State, m: State)
    requires |c.procs| == |m.procs|
  {
    forall p: nat :: p < |c.procs| ==> RelView(P, p, ViewOf(c, p), ViewOf(m, p), m.tres)
  }

  ghost predicate Rel(P: Program, c: State, m: State) {
    && DistinctIds(c) && SameElsewhere(c, m) && AllClosed(P, m) && (HasJoins(P) ==> NoneHasReturned(c))
    && AllRelated(P, c, m)
  }

  // ----- Results of running processes -----

  /** As long as a process runs it has not returned a result. */
  lemma StepKeepsResult(P: Program, p: nat, v: View)
    requires Runnable(P, v) && Quiet(InstrAt(P, v))
    ensures var v' := QuietStep(P, p, v); v'.proc.pc != Halted ==> v'.result == v.result
  {
    hide EnterBlock, PassArgs;
  }

  lemma {:induction false} QuietRunKeepsResult(P: Program, p: nat, v: View, n: nat, env: Results)
    requires QuietRun(P, p, v, n, env).Some?
    ensures var w := QuietRun(P, p, v, n, env).value;
            w.proc.pc != Halted ==> w.result == v.result && v.proc.pc != Halted
    decreases n
  {
    if n > 0 {
      StepKeepsResult(P, p, v);
      hide QuietStep;
      QuietRunKeepsResult(P, p, QuietStep(P, p, v), n - 1, env);
    }
  }

  lemma StatusInView(s: State, p: nat)
    requires p < |s.procs|
    ensures ReadResult(s.tres, s.procs[p].tid).status == 0 <==>
              ViewOf(s, p).result.None? || ViewOf(s, p).result.value.status == 0
  {
  }

  /** If the merged process runs, so does the other, and neither has returned. */
  lemma RunningViews(P: Program, p: nat, cv: View, mv: View, env: Results)
    requires RelView(P, p, cv, mv, env) && mv.proc.pc != Halted
    ensures cv.proc.pc != Halted && mv.result == cv.result
  {
    if n: nat :| LocalRun(P, p, cv, n) == Ir.Some(mv) {
      LocalRunIsQuiet(P, p, cv, n, env);
      QuietRunKeepsResult(P, p, cv, n, env);
    } else {
      var k: nat :| QuietRun(P, p, mv, k, env) == Ir.Some(cv);
      QuietRunKeepsResult(P, p, mv, k, env);
    }
  }

  lemma NoneHasReturnedEither(P: Program, c: State, m: State)
    requires Rel(P, c, m) && NoneHasReturned(c)
    ensures NoneHasReturned(m)
  {
    hide RelView, AllClosed, ReadResult, ViewOf;
    forall p: nat | p < |m.procs| && m.procs[p].pc != Halted
      ensures ReadResult(m.tres, m.procs[p].tid).status == 0
    {
      assert RelView(P, p, ViewOf(c, p), ViewOf(m, p), m.tres);
      ViewHasPc(c, p);
      ViewHasPc(m, p);
      RunningViews(P, p, ViewOf(c, p), ViewOf(m, p), m.tres);
      StatusInView(c, p);
      StatusInView(m, p);
    }
  }

  /** A terminated view of the instruction run is reached by the merged run. */
  lemma HaltedViewsAgree(P: Program, p: nat, cv: View, mv: View, env: Results)
    requires RelView(P, p, cv, mv, env) && cv.proc.pc == Halted
    ensures mv == cv
  {
    var n: nat :| LocalRun(P, p, cv, n) == Ir.Some(mv);
  }

  /** Every result that the instruction run has, the merged run has too. */
  lemma ResultsAgree(P: Program, c: State, m: State, t: int)
    requires Rel(P, c, m) && NoneHasReturned(c) && ReadResult(c.tres, t).status != 0
    ensures ReadResult(m.tres, t) == ReadResult(c.tres, t)
  {
    hide RelView, AllClosed;
    if p: nat :| p < |c.procs| && c.procs[p].tid == t {
      assert RelView(P, p, ViewOf(c, p), ViewOf(m, p), m.tres);
      HaltedViewsAgree(P, p, ViewOf(c, p), ViewOf(m, p), m.tres);
    }
  }

  /** A step of p lets results grow if p had not returned before. */
  lemma FrameGrows(P: Program, s: State, s': State, p: nat)
    requires HasJoins(P) ==> NoneHasReturned(s)
    requires s' == s || (Framed(s, s', p) && s.procs[p].pc != Halted)
    ensures Grows(P, s.tres, s'.tres)
  {
    hide HasJoins;
  }

  lemma StepKeepsNone(P: Program, c: State, p: nat)
    requires FixedThreads(P) && DistinctIds(c) && Enabled(P, c, p) && InstrStep(P, c, p).Next?
    requires NoneHasReturned(c)
    ensures NoneHasReturned(InstrStep(P, c, p).s)
  {
    var b, i, c' := c.procs[p].pc.block, c.procs[p].pc.index, InstrStep(P, c, p).s;
    InstrStepIsMicro(P, c, p);
    ResultMeansHalted(P, SetPc(c, p, NextPc(P, b, i)), p, b, i);
    hide Exec, Micro, FixedThreads, MicroStep;
    assert c'.tres == c.tres || c'.procs[p].pc == Halted;
    forall q: nat | q < |c'.procs| && c'.procs[q].pc != Halted
      ensures ReadResult(c'.tres, c'.procs[q].tid).status == 0
    {
      if q != p {
        assert c'.procs[q] == c.procs[q];
      }
    }
  }

  // ----- The relation is kept -----

  lemma FrameKeepsElsewhere(c: State, m: State, p: nat, c': State, m': State)
    requires SameElsewhere(c, m) && Framed(c, c', p) && Framed(m, m', p) && c'.mem == m'.mem
    ensures SameElsewhere(c', m')
  {
    forall t: int | forall q :: 0 <= q < |c'.procs| ==> c'.procs[q].tid != t
      ensures (t in c'.tres <==> t in m'.tres) && (t in c'.tres ==> c'.tres[t] == m'.tres[t])
    {
      assert c'.procs[p].tid != t;
      assert forall q :: 0 <= q < |c.procs| ==> c'.procs[q].tid == c.procs[q].tid;
      assert t in c.tres <==> t in m.tres;
      assert t in c'.tres <==> t in c.tres;
      assert t in m'.tres <==> t in m.tres;
    }
  }

  lemma RelViewGrows(P: Program, p: nat, cv: View, mv: View, env: Results, env': Results)
    requires RelView(P, p, cv, mv, env) && Grows(P, env, env')
    ensures RelView(P, p, cv, mv, env')
  {
    hide QuietRun, LocalRun, Grows;
    if n: nat :| LocalRun(P, p, cv, n) == Ir.Some(mv) {
    } else {
      var k: nat :| QuietRun(P, p, mv, k, env) == Ir.Some(cv);
      QuietRunGrows(P, p, mv, k, env, env');
    }
  }

  /** Both runs may move p, if its views are related afterwards. */
  lemma BothMove(P: Program, c: State, m: State, p: nat, c': State, m': State)
    requires Rel(P, c, m) && Framed(c, c', p) && Framed(m, m', p) && c'.mem == m'.mem && AllClosed(P, m')
    requires (HasJoins(P) ==> NoneHasReturned(c')) && Grows(P, m.tres, m'.tres)
    requires RelView(P, p, ViewOf(c', p), ViewOf(m', p), m'.tres)
    ensures Rel(P, c', m')
  {
    hide AllClosed, RelView, Grows, HasJoins, NoneHasReturned, ViewOf;
    FrameKeepsElsewhere(c, m, p, c', m');
    DistinctBoth(c, m);
    forall q: nat | q < |c.procs|
      ensures RelView(P, q, ViewOf(c', q), ViewOf(m', q), m'.tres) && DistinctIds(c')
    {
      if q != p {
        assert RelView(P, q, ViewOf(c, q), ViewOf(m, q), m.tres);
        FrameKeepsViews(c, c', p, q);
        FrameKeepsViews(m, m', p, q);
        RelViewGrows(P, q, ViewOf(c, q), ViewOf(m, q), m.tres, m'.tres);
      } else {
        DistinctStays(c, c', p);
      }
    }
  }

  lemma DistinctStays(s: State, s': State, p: nat)
    requires DistinctIds(s) && Framed(s, s', p)
    ensures DistinctIds(s')
  {
  }

  lemma DistinctBoth(c: State, m: State)
    requires DistinctIds(c) && SameElsewhere(c, m)
    ensures DistinctIds(m)
  {
  }

  /** After a quiet instruction the views are related again, or the merged one has to catch up with termination. */
  lemma RelAfterQuiet(P: Program, p: nat, cv: View, mv: View, env: Results) returns (k: nat)
    requires AtQuiet(P, cv, env) && RelView(P, p, cv, mv, env)
    ensures var cv' := QuietStep(P, p, cv);
            RelView(P, p, cv', mv, env) || (cv'.proc.pc == Halted && QuietRun(P, p, mv, k, env) == Ir.Some(cv'))
  {
    hide QuietStep;
    var cv' := QuietStep(P, p, cv);
    k := 0;
    if n: nat :| n > 0 && LocalRun(P, p, cv, n) == Ir.Some(mv) {
      assert LocalRun(P, p, cv', n - 1) == Ir.Some(mv);
    } else {
      var k0 := Behind(P, p, cv, mv, env);
      QuietRunSplit(P, p, mv, k0, 1, env);
      OneQuiet(P, p, cv, env);
      k := k0 + 1;
    }
  }

  /** A view that is not ahead is behind. */
  lemma Behind(P: Program, p: nat, cv: View, mv: View, env: Results) returns (k: nat)
    requires RelView(P, p, cv, mv, env) && forall n: nat :: n > 0 ==> LocalRun(P, p, cv, n) != Ir.Some(mv)
    ensures QuietRun(P, p, mv, k, env) == Ir.Some(cv)
  {
    ZeroRun(P, p, cv, env);
    hide LocalRun, QuietRun;
    if mv == cv {
      k := 0;
    } else {
      k :| QuietRun(P, p, mv, k, env) == Ir.Some(cv);
    }
  }

  lemma OneQuiet(P: Program, p: nat, v: View, env: Results)
    requires AtQuiet(P, v, env)
    ensures QuietRun(P, p, v, 1, env) == Ir.Some(QuietStep(P, p, v))
  {
    ZeroRun(P, p, QuietStep(P, p, v), env);
  }

  // ----- The steps of the instruction run -----

  lemma RelParts(P: Program, c: State, m: State, p: nat)
    requires Rel(P, c, m) && p < |c.procs|
    ensures p < |m.procs| && c.mem == m.mem && DistinctIds(c) && AllClosed(P, m) && (HasJoins(P) ==> NoneHasReturned(c))
    ensures RelView(P, p, ViewOf(c, p), ViewOf(m, p), m.tres)
  {
    hide RelView;
  }

  lemma MergedGrows(P: Program, c: State, m: State, m': State, p: nat)
    requires Rel(P, c, m) && (m' == m || (Framed(m, m', p) && m.procs[p].pc != Halted))
    ensures Grows(P, m.tres, m'.tres)
  {
    hide Rel, Framed, Grows, HasJoins, NoneHasReturned;
    if HasJoins(P) && NoneHasReturned(c) {
      NoneHasReturnedEither(P, c, m);
    }
    RelNone(P, c, m);
    FrameGrows(P, m, m', p);
  }

  lemma RelNone(P: Program, c: State, m: State)
    requires Rel(P, c, m)
    ensures HasJoins(P) ==> NoneHasReturned(c)
  {
  }

  /** What a ready join of the instruction run finds, it finds in the merged run. */
  lemma JoinedAgrees(P: Program, c: State, m: State, p: nat)
    requires Rel(P, c, m) && Enabled(P, c, p)
    requires var instr := P.blocks[c.procs[p].pc.block][c.procs[p].pc.index]; Ready(c.tres, c.procs[p], instr)
    ensures var instr := P.blocks[c.procs[p].pc.block][c.procs[p].pc.index];
            Ready(m.tres, c.procs[p], instr) && (instr.ThreadJoin? ==> FoundByJoin(m.tres, c.procs[p], instr) == FoundByJoin(c.tres, c.procs[p], instr))
  {
    var b, i := c.procs[p].pc.block, c.procs[p].pc.index;
    var instr := P.blocks[b][i];
    if instr.ThreadJoin? {
      assert HasJoins(P);
      RelNone(P, c, m);
      hide Rel, ReadResult, NoneHasReturned, HasJoins;
      ResultsAgree(P, c, m, Eval(c.procs[p].regs[instr.dst := 0], instr.tid));
    }
  }

  lemma MicroStepAgrees(P: Program, p: nat, c: Config, env: Results, env': Results)
    requires Runnable(P, c.view) && Simple(InstrAt(P, c.view))
    requires InstrAt(P, c.view).ThreadJoin? ==> FoundByJoin(env, c.view.proc, InstrAt(P, c.view)) == FoundByJoin(env', c.view.proc, InstrAt(P, c.view))
    ensures MicroStep(P, p, c, env) == MicroStep(P, p, c, env')
  {
    hide ExecLocal, ExecMemory;
  }

  /** A quiet instruction of p: the merged run waits, or catches up with p's termination. */
  lemma QuietStepFollowed(P: Program, c: State, m: State, p: nat) returns (steps: nat, m': State)
    requires FixedThreads(P) && Rel(P, c, m) && Enabled(P, c, p) && InstrStep(P, c, p).Next?
    requires AtQuiet(P, ViewOf(c, p), m.tres)
    ensures MergedRuns(P, m, steps, m') && Rel(P, InstrStep(P, c, p).s, m')
  {
    hide *;
    EnabledParts(P, c, p);
    QuietInstrStep(P, c, p, m.tres);
    RelParts(P, c, m, p);
    var c' := InstrStep(P, c, p).s;
    var k := RelAfterQuiet(P, p, ViewOf(c, p), ViewOf(m, p), m.tres);
    steps, m' := 0, m;
    if RelView(P, p, ViewOf(c', p), ViewOf(m, p), m.tres) {
      NoMergedRun(P, m);
      FrameReflexive(m, p);
    } else {
      AimAtHalted(P, m, p, k, ViewOf(c', p));
      var j;
      steps, m', j := CatchesUp(P, m, p, k, Config(ViewOf(c', p), m.mem), 0);
      ReachedHalted(P, m, p, ViewOf(c', p), m', j);
    }
    MergedGrows(P, c, m, m', p);
    NoneStays(P, c, m, p);
    BothMove(P, c, m, p, c', m');
  }

  lemma EnabledParts(P: Program, c: State, p: nat)
    requires Enabled(P, c, p)
    ensures p < |c.procs| && c.procs[p].pc.At? && Inside(P, c.procs[p].pc.block, c.procs[p].pc.index)
    ensures c.procs[p].pc.block < |P.blocks| && c.procs[p].pc.index < |P.blocks[c.procs[p].pc.block]|
    ensures Runnable(P, ViewOf(c, p)) && InstrAt(P, ViewOf(c, p)) == P.blocks[c.procs[p].pc.block][c.procs[p].pc.index]
  {
  }

  lemma QuietInstrStep(P: Program, c: State, p: nat, env: Results)
    requires FixedThreads(P) && Enabled(P, c, p) && InstrStep(P, c, p).Next? && AtQuiet(P, ViewOf(c, p), env)
    ensures Runnable(P, ViewOf(c, p)) && Quiet(InstrAt(P, ViewOf(c, p)))
    ensures var c' := InstrStep(P, c, p).s;
            Framed(c, c', p) && c'.mem == c.mem && ViewOf(c', p) == QuietStep(P, p, ViewOf(c, p))
  {
    InstrStepIsMicro(P, c, p);
    QuietStepIsMicro(P, p, ConfigOf(c, p), c.tres);
    hide InstrStep, MicroStep, QuietStep, FixedThreads, Framed;
  }

  lemma AimAtHalted(P: Program, m: State, p: nat, k: nat, v: View)
    requires p < |m.procs| && v.proc.pc == Halted && QuietRun(P, p, ViewOf(m, p), k, m.tres) == Ir.Some(v)
    ensures Aim(P, m, p, k, Config(v, m.mem), 0)
  {
    hide QuietRun;
  }

  lemma ReachedHalted(P: Program, m: State, p: nat, v: View, m': State, j: nat)
    requires v.proc.pc == Halted && Reached(P, m, p, Config(v, m.mem), m', j)
    ensures Framed(m, m', p) && AllClosed(P, m') && m'.mem == m.mem && p < |m'.procs| && ViewOf(m', p) == v
    ensures RelView(P, p, v, ViewOf(m', p), m'.tres)
  {
    hide AllClosed;
    ZeroRun(P, p, v, m'.tres);
  }

  lemma NoneStays(P: Program, c: State, m: State, p: nat)
    requires FixedThreads(P) && Rel(P, c, m) && Enabled(P, c, p) && InstrStep(P, c, p).Next?
    ensures HasJoins(P) ==> NoneHasReturned(InstrStep(P, c, p).s)
  {
    hide InstrStep, FixedThreads, AllRelated, SameElsewhere, AllClosed, HasJoins, NoneHasReturned;
    if HasJoins(P) {
      StepKeepsNone(P, c, p);
    }
  }

  /** A memory access of p: the merged run catches up and performs it. */
  lemma AccessStepFollowed(P: Program, c: State, m: State, p: nat, n: nat) returns (steps: nat, m': State)
    requires FixedThreads(P) && Rel(P, c, m) && Enabled(P, c, p) && InstrStep(P, c, p).Next? && AtAccess(P, ViewOf(c, p))
    requires var v := LocalRun(P, p, ViewOf(InstrStep(P, c, p).s, p), n); v.Some? && Settled(P, v.value)
    ensures MergedRuns(P, m, steps, m') && Rel(P, InstrStep(P, c, p).s, m')
  {
    hide *;
    EnabledParts(P, c, p);
    RelParts(P, c, m, p);
    var c', target := InstrStep(P, c, p).s, ConfigOf(c, p);
    AccessInstrStep(P, c, m, p);
    ConfigParts(c, p);
    var k := AccessIsAhead(P, p, ViewOf(c, p), ViewOf(m, p), m.tres);
    AimAtAccess(P, c, m, p, k, n);
    var j;
    steps, m', j := CatchesUp(P, m, p, k, target, n);
    ReachedAccess(P, m, p, target, m', j);
    MergedGrows(P, c, m, m', p);
    NoneStays(P, c, m, p);
    BothMove(P, c, m, p, c', m');
  }

  /** The access does in the merged state what it does in the other one. */
  lemma AccessInstrStep(P: Program, c: State, m: State, p: nat)
    requires FixedThreads(P) && Rel(P, c, m) && Enabled(P, c, p) && InstrStep(P, c, p).Next?
    ensures Runnable(P, ViewOf(c, p)) && Simple(InstrAt(P, ViewOf(c, p))) && Ready(m.tres, c.procs[p], InstrAt(P, ViewOf(c, p)))
    ensures var c' := InstrStep(P, c, p).s;
            Framed(c, c', p) && Config(ViewOf(c', p), c'.mem) == MicroStep(P, p, ConfigOf(c, p), m.tres)
  {
    InstrStepIsMicro(P, c, p);
    JoinedAgrees(P, c, m, p);
    hide InstrStep, MicroStep, FixedThreads, Framed, Rel, Ready, FoundByJoin, Simple;
    MicroStepAgrees(P, p, ConfigOf(c, p), c.tres, m.tres);
  }

  lemma AccessIsAhead(P: Program, p: nat, cv: View, mv: View, env: Results) returns (k: nat)
    requires RelView(P, p, cv, mv, env) && AtAccess(P, cv)
    ensures QuietRun(P, p, mv, k, env) == Ir.Some(cv)
  {
    forall n: nat | n > 0
      ensures LocalRun(P, p, cv, n) != Ir.Some(mv)
    {
      LocalIsNotAccess(InstrAt(P, cv));
    }
    hide RelView, LocalRun, QuietRun, Access;
    k := Behind(P, p, cv, mv, env);
  }

  lemma AimAtAccess(P: Program, c: State, m: State, p: nat, k: nat, n: nat)
    requires p < |c.procs| && p < |m.procs| && c.mem == m.mem && AtAccess(P, ViewOf(c, p))
    requires QuietRun(P, p, ViewOf(m, p), k, m.tres) == Ir.Some(ViewOf(c, p))
    requires Runnable(P, ViewOf(c, p)) && Simple(InstrAt(P, ViewOf(c, p))) && Ready(m.tres, c.procs[p], InstrAt(P, ViewOf(c, p)))
    requires var v := LocalRun(P, p, MicroStep(P, p, ConfigOf(c, p), m.tres).view, n); v.Some? && Settled(P, v.value)
    ensures Aim(P, m, p, k, ConfigOf(c, p), n)
  {
    hide QuietRun, LocalRun, AtAccess, MicroStep, Settled, Simple, Ready;
  }

  lemma ReachedAccess(P: Program, m: State, p: nat, c: Config, m': State, j: nat)
    requires AtAccess(P, c.view) && Reached(P, m, p, c, m', j)
    ensures Runnable(P, c.view) && Simple(InstrAt(P, c.view))
    ensures Framed(m, m', p) && AllClosed(P, m') && m'.mem == MicroStep(P, p, c, m.tres).mem && p < |m'.procs|
    ensures RelView(P, p, MicroStep(P, p, c, m.tres).view, ViewOf(m', p), m'.tres)
  {
    hide AllClosed, MicroStep, LocalRun, QuietRun;
  }

  ghost predicate AllSettled(P: Program, s: State) {
    forall p: nat :: p < |s.procs| ==> Settled(P, ViewOf(s, p))
  }

  /** On the way to a state in which all have settled, every view settles after finitely many local instructions. */
  lemma {:induction false} EveryViewSettles(P: Program, c: State, schedule: seq<nat>, t: State, p: nat) returns (n: nat)
    requires FixedThreads(P) && DistinctIds(c) && InstrRuns(P, c, schedule, t) && AllSettled(P, t) && p < |c.procs|
    ensures var v := LocalRun(P, p, ViewOf(c, p), n); v.Some? && Settled(P, v.value)
    decreases |schedule|
  {
    hide InstrStep, QuietStep, FixedThreads, MicroStep, Framed;
    var v := ViewOf(c, p);
    n := 0;
    if schedule != [] {
      var q := schedule[0];
      InstrStepIsMicro(P, c, q);
      var c' := InstrStep(P, c, q).s;
      DistinctStays(c, c', q);
      FrameSlots(c, c', q);
      if q != p {
        FrameKeepsViews(c, c', q, p);
        n := EveryViewSettles(P, c', schedule[1..], t, p);
      } else if AtLocal(P, v) {
        LocalIsQuiet(P, v, c.tres);
        QuietInstrStep(P, c, p, c.tres);
        n := EveryViewSettles(P, c', schedule[1..], t, p);
        n := n + 1;
      }
    }
  }

  /** When the instruction run has terminated, the merged run is where it is. */
  lemma TerminatedIsSame(P: Program, t: State, m: State)
    requires Rel(P, t, m) && AllHalted(t)
    ensures m == t
  {
    hide RelView, AllClosed, HasJoins, NoneHasReturned;
    forall p: nat | p < |t.procs|
      ensures m.procs[p] == t.procs[p] && ViewOf(m, p) == ViewOf(t, p)
    {
      assert RelView(P, p, ViewOf(t, p), ViewOf(m, p), m.tres);
      HaltedViewsAgree(P, p, ViewOf(t, p), ViewOf(m, p), m.tres);
    }
    assert t.procs == m.procs;
    forall k: int
      ensures (k in t.tres <==> k in m.tres) && (k in t.tres ==> t.tres[k] == m.tres[k])
    {
      if p: nat :| p < |t.procs| && t.procs[p].tid == k {
        assert ViewOf(m, p) == ViewOf(t, p);
      }
    }
    assert t.tres == m.tres;
  }

  lemma HaltedIsSettled(P: Program, t: State)
    requires AllHalted(t)
    ensures AllSettled(P, t)
  {
  }

  // ----- The theorem -----

  /** A run of single instructions to a state in which all have settled is matched from every related state. */
  lemma {:induction false} Simulate(P: Program, c: State, m: State, schedule: seq<nat>, t: State) returns (n: nat, m': State)
    requires FixedThreads(P) && Rel(P, c, m) && InstrRuns(P, c, schedule, t) && AllSettled(P, t)
    ensures MergedRuns(P, m, n, m') && Rel(P, t, m')
    decreases |schedule|
  {
    hide Rel, InstrStep, FixedThreads, Steps, LocalRun, MergedRuns, AtAccess, AtQuiet, Settled, AllSettled, ViewOf, Enabled;
    if schedule == [] {
      NoMergedRun(P, m);
      n, m' := 0, m;
    } else {
      var p := schedule[0];
      EnabledParts(P, c, p);
      var c' := InstrStep(P, c, p).s;
      var m1;
      QuietOrAccess(P, c, m, p);
      if AtQuiet(P, ViewOf(c, p), m.tres) {
        n, m1 := QuietStepFollowed(P, c, m, p);
      } else {
        var settle := EveryViewSettles(P, c', schedule[1..], t, p);
        n, m1 := AccessStepFollowed(P, c, m, p, settle);
      }
      var rest;
      rest, m' := Simulate(P, c', m1, schedule[1..], t);
      MergedRunsAppend(P, m, n, m1, rest, m');
      n := n + rest;
    }
  }

  lemma QuietOrAccess(P: Program, c: State, m: State, p: nat)
    requires FixedThreads(P) && Rel(P, c, m) && Enabled(P, c, p) && InstrStep(P, c, p).Next?
    ensures p < |c.procs| && (AtQuiet(P, ViewOf(c, p), m.tres) || AtAccess(P, ViewOf(c, p)))
    ensures DistinctIds(InstrStep(P, c, p).s)
  {
    AccessInstrStep(P, c, m, p);
    hide InstrStep, MicroStep, FixedThreads, Ready, Access, AllRelated, AllClosed, SameElsewhere;
    DistinctStays(c, InstrStep(P, c, p).s, p);
  }

  lemma RelReflexive(P: Program, s: State)
    requires DistinctIds(s) && AllClosed(P, s) && (HasJoins(P) ==> NoneHasReturned(s))
    ensures Rel(P, s, s)
  {
    hide AllClosed, HasJoins, NoneHasReturned;
    forall p: nat | p < |s.procs|
      ensures RelView(P, p, ViewOf(s, p), ViewOf(s, p), s.tres)
    {
      ZeroRun(P, p, ViewOf(s, p), s.tres);
    }
  }

  /**
   The reduction preserves outcomes: from a state with closed pcs and distinct thread ids, merged
   model_step runs reach exactly the all-terminated states that interleavings of single instructions
   reach. Where threads join each other, no thread that runs may have returned under its id before.
   */
  lemma ReductionPreservesOutcomes(P: Program, s: State, t: State)
    requires FixedThreads(P) && AllClosed(P, s) && DistinctIds(s) && AllHalted(t)
    requires HasJoins(P) ==> NoneHasReturned(s)
    ensures (exists n :: MergedRuns(P, s, n, t)) <==> (exists schedule :: InstrRuns(P, s, schedule, t))
  {
    hide *;
    if n: nat :| MergedRuns(P, s, n, t) {
      FixedIsWellFormed(P);
      var schedule := MergedRunsAreInstrRuns(P, s, n, t);
    }
    if schedule :| InstrRuns(P, s, schedule, t) {
      RelReflexive(P, s);
      HaltedIsSettled(P, t);
      var n, m := Simulate(P, s, s, schedule, t);
      TerminatedIsSame(P, t, m);
    }
  }

  lemma FixedIsWellFormed(P: Program)
    requires FixedThreads(P)
    ensures WellFormed(P)
  {
  }
}
