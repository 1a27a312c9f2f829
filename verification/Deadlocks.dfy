/**
 The reduction keeps deadlocks, too: states in which every process has terminated or waits in a join.

 A process that waits in the middle of a group has run the group's first instructions in the reference
 semantics, and nothing of the group in the merged one. Up to these quiet instructions, both semantics get
 stuck in the same states.
 */
module Deadlocks {
  import Ir
  import opened Counting
  import opened Machine
  import opened PcClosure
  import S = GlobalStatus
  import opened Reduction
  import opened Views
  import opened Outcomes

  // ----- One process -----

  /** The view is at a join that blocks. */
  predicate AtBlocked(P: Program, v: View, env: Results) {
    Runnable(P, v) && InstrAt(P, v).ThreadJoin? && !Ready(env, v.proc, InstrAt(P, v))
  }

  /** p is k quiet instructions before v, where it waits. */
  ghost predicate WaitsBehind(P: Program, s: State, p: nat, k: nat, v: View) {
    && p < |s.procs| && QuietRun(P, p, ViewOf(s, p), k, s.tres) == Ir.Some(v)
    && AtBlocked(P, v, s.tres)
  }

  lemma WaitsBehindParts(P: Program, s: State, p: nat, k: nat, v: View)
    requires WaitsBehind(P, s, p, k, v)
    ensures p < |s.procs| && QuietRun(P, p, ViewOf(s, p), k, s.tres) == Ir.Some(v) && AtBlocked(P, v, s.tres)
    ensures s.procs[p].pc.At?
  {
    hide QuietRun, AtBlocked;
    ViewHasPc(s, p);
    HaltedIsThere(P, p, ViewOf(s, p), k, s.tres, s.tres);
    assert v.proc.pc.At? by { BlockedIsRunning(P, v, s.tres); }
  }

  lemma BlockedIsRunning(P: Program, v: View, env: Results)
    requires AtBlocked(P, v, env)
    ensures v.proc.pc.At? && Settled(P, v) && !AtQuiet(P, v, env)
  {
  }

  lemma {:induction false} RangeBlocked(P: Program, s: State, p: nat, b: nat, i: nat, y: nat, e: nat)
    requires p < |s.procs| && b < |P.blocks| && i <= y < e <= |P.blocks[b]|
    requires ExecRange(P, s, p, b, i, y).Next? && Exec(P, ExecRange(P, s, p, b, i, y).s, p, b, y).Blocked?
    ensures ExecRange(P, s, p, b, i, e).Blocked?
    decreases y - i
  {
    hide Exec;
    if i == y {
      EmptyRange(P, s, p, b, y);
    } else {
      RangeUnfolds(P, s, p, b, i, y);
      RangeBlocked(P, Exec(P, s, p, b, i).s, p, b, i + 1, y, e);
    }
  }

  lemma BlockedExec(P: Program, s: State, p: nat, b: nat, y: nat, v: View)
    requires p < |s.procs| && Inside(P, b, y) && AtPc(ViewOf(s, p), At(b, y)) == v && AtBlocked(P, v, s.tres)
    ensures Exec(P, s, p, b, y).Blocked? && !IsLocal(P.blocks[b][y])
  {
    assert v.proc.regs == s.procs[p].regs;
    ExecIsMicro(P, s, p, b, y);
    hide Exec, Micro, Framed;
  }

  lemma ShorterQuietPart(P: Program, b: nat, i: nat, y: nat, x: nat)
    requires QuietPart(P, b, i, x) && (i <= y <= x || y == x)
    ensures QuietPart(P, b, i, y) && Inside(P, b, y) && b < |P.blocks| && i <= y
  {
  }

  /** Instructions i..e, with the pc already behind them, and p waiting at y. */
  lemma RangeRunsIntoJoin(P: Program, s: State, p: nat, b: nat, i: nat, y: nat, e: nat, v: View)
    requires p < |s.procs| && QuietPart(P, b, i, y) && y < e <= |P.blocks[b]| && AtBlocked(P, v, s.tres)
    requires QuietRun(P, p, AtPc(ViewOf(s, p), At(b, i)), y - i, s.tres) == Ir.Some(v)
    ensures ExecRange(P, s, p, b, i, e).Blocked? && !IsLocal(P.blocks[b][y])
  {
    ShorterQuietPart(P, b, i, y, y);
    hide *;
    QuietRange(P, s, p, b, i, y);
    var s1 := ExecRange(P, s, p, b, i, y).s;
    FrameSlots(s, s1, p);
    BlockedExec(P, s1, p, b, y, v);
    RangeBlocked(P, s, p, b, i, y, e);
  }

  /** A group in which p waits blocks as a whole. */
  lemma GroupBlocks(P: Program, s: State, p: nat, b: nat, i: nat, x: nat, k: nat, v: View)
    requires WaitsBehind(P, s, p, k, v) && s.procs[p].pc == At(b, i) && Head(P, b, i)
    requires QuietPart(P, b, i, x) && i + k <= x < End(P, b, i)
    ensures Inside(P, b, i) && ExecGroup(P, s, p, b, i).Blocked? && Emits(P, b, i, End(P, b, i))
  {
    hide *;
    var e := End(P, b, i);
    WaitsBehindParts(P, s, p, k, v);
    GroupStart(P, s, p, b, i);
    ShorterQuietPart(P, b, i, i + k, x);
    RangeRunsIntoJoin(P, SetPc(s, p, NextPc(P, b, e - 1)), p, b, i, i + k, e, v);
    NonLocalEmits(P, b, i, i + k, e);
  }

  lemma NonLocalEmits(P: Program, b: nat, i: nat, y: nat, e: nat)
    requires b < |P.blocks| && i <= y < e <= |P.blocks[b]| && !IsLocal(P.blocks[b][y])
    ensures Emits(P, b, i, e)
  {
    hide Emits, IsLocal;
    EmitsIff(P, b, i, e);
  }

  /** A quiet run does not go past a memory access. */
  lemma NotPastAccess(P: Program, p: nat, b: nat, i: nat, x: nat, v: View, k: nat, env: Results)
    requires QuietPart(P, b, i, x) && Access(P.blocks[b][x]) && v.proc.pc == At(b, i) && QuietRun(P, p, v, k, env).Some?
    ensures i + k <= x
  {
    hide QuietRun, QuietPart, Access;
    ShorterQuietPart(P, b, i, x, x);
    if i + k > x {
      QuietRunPrefix(P, p, v, k, x - i, env);
      QuietRunPc(P, p, b, i, x, v, env);
      AccessStops(P, p, b, x, QuietRun(P, p, v, x - i, env).value, k - (x - i), env);
    }
  }

  lemma AccessStops(P: Program, p: nat, b: nat, x: nat, w: View, n: nat, env: Results)
    requires Inside(P, b, x) && Access(P.blocks[b][x]) && w.proc.pc == At(b, x) && QuietRun(P, p, w, n, env).Some?
    ensures n == 0
  {
  }

  // ----- The loop of model_step -----

  ghost predicate LoopBlocks(P: Program, s: State, p: nat, emitted: bool) {
    p < |s.procs| && exists fuel: nat :: Loop(P, s, p, emitted, fuel) == NoReport
  }

  lemma BlocksHere(P: Program, s: State, p: nat, emitted: bool, b: nat, i: nat)
    requires p < |s.procs| && s.procs[p].pc == At(b, i) && Head(P, b, i) && !(emitted && Emits(P, b, i, End(P, b, i)))
    requires ExecGroup(P, s, p, b, i).Blocked?
    ensures LoopBlocks(P, s, p, emitted)
  {
    hide ExecGroup, Head, Emits, End;
    assert Loop(P, s, p, emitted, 1) == NoReport;
  }

  lemma BlocksFurther(P: Program, s: State, p: nat, emitted: bool, b: nat, i: nat)
    requires p < |s.procs| && s.procs[p].pc == At(b, i) && Head(P, b, i) && !(emitted && Emits(P, b, i, End(P, b, i)))
    requires ExecGroup(P, s, p, b, i).Next?
    requires LoopBlocks(P, ExecGroup(P, s, p, b, i).s, p, emitted || Emits(P, b, i, End(P, b, i)))
    ensures LoopBlocks(P, s, p, emitted)
  {
    hide ExecGroup, Head, Emits, End;
    var r, emitted' := ExecGroup(P, s, p, b, i), emitted || Emits(P, b, i, End(P, b, i));
    var fuel: nat :| Loop(P, r.s, p, emitted', fuel) == NoReport;
    assert Loop(P, s, p, emitted, fuel + 1) == NoReport;
  }

  /** The loop brings p nearer to where it waits. */
  ghost predicate Nears(P: Program, s: State, p: nat, emitted: bool, k: nat, v: View, s': State, j: nat) {
    && LoopReports(P, s, p, emitted, s') && Framed(s, s', p) && AllClosed(P, s') && s'.mem == s.mem && s'.tres == s.tres
    && WaitsBehind(P, s', p, j, v) && j <= k
  }

  lemma NearsNot(P: Program, s: State, p: nat, emitted: bool, k: nat, v: View)
    requires p < |s.procs| && WaitsBehind(P, s, p, k, v) && AllClosed(P, s) && Stops(P, s, p, emitted)
    ensures Nears(P, s, p, emitted, k, v, s, k)
  {
    hide Stops, AllClosed, LoopReports, WaitsBehind;
    LoopStops(P, s, p, emitted);
    FrameReflexive(s, p);
  }

  lemma NearsFurther(P: Program, s: State, p: nat, emitted: bool, b: nat, i: nat, k1: nat, k: nat, v: View, s': State, j: nat)
    requires p < |s.procs| && s.procs[p].pc == At(b, i) && Head(P, b, i) && !(emitted && Emits(P, b, i, End(P, b, i))) && k1 <= k
    requires var r := ExecGroup(P, s, p, b, i);
             && r.Next? && Framed(s, r.s, p) && r.s.mem == s.mem && r.s.tres == s.tres
             && Nears(P, r.s, p, emitted || Emits(P, b, i, End(P, b, i)), k1, v, s', j)
    ensures j <= k1 && Nears(P, s, p, emitted, k, v, s', j)
  {
    hide ExecGroup, Head, Emits, End, AllClosed, LoopReports, Framed, WaitsBehind;
    LoopUnroll(P, s, p, emitted, b, i, s');
    FrameTransitive(s, ExecGroup(P, s, p, b, i).s, s', p);
  }

  /** A group that p passes on the way to where it waits. */
  lemma GroupNears(P: Program, s: State, p: nat, b: nat, i: nat, k: nat, v: View)
    requires FixedThreads(P) && AllClosed(P, s) && WaitsBehind(P, s, p, k, v) && s.procs[p].pc == At(b, i) && Head(P, b, i)
    requires QuietGroup(P, b, i) && End(P, b, i) - i <= k
    ensures var r, len := ExecGroup(P, s, p, b, i), End(P, b, i) - i;
            && len > 0 && r.Next? && Framed(s, r.s, p) && AllClosed(P, r.s) && r.s.mem == s.mem && r.s.tres == s.tres
            && WaitsBehind(P, r.s, p, k - len, v)
  {
    hide ExecGroup, Head, Emits, End, AllClosed, QuietRun, ViewOf, Framed, AtBlocked, QuietPart, Quiet, FixedThreads, QuietGroup;
    QuietGroupRuns(P, s, p, b, i, k);
    var r, len := ExecGroup(P, s, p, b, i), End(P, b, i) - i;
    FrameSlots(s, r.s, p);
    ViewHasPc(r.s, p);
    HaltedIsThere(P, p, ViewOf(r.s, p), k - len, s.tres, s.tres);
    BlockedIsRunning(P, v, s.tres);
  }

  /** One run of the loop: it brings p nearer to where it waits, or blocks. */
  lemma {:induction false} LoopWaits(P: Program, s: State, p: nat, emitted: bool, k: nat, v: View)
    returns (blocks: bool, s': State, j: nat)
    requires FixedThreads(P) && AllClosed(P, s) && WaitsBehind(P, s, p, k, v)
    ensures blocks ==> !emitted && LoopBlocks(P, s, p, emitted)
    ensures !blocks ==> Nears(P, s, p, emitted, k, v, s', j) && (!emitted ==> j < k)
    decreases k
  {
    hide *;
    WaitsBehindParts(P, s, p, k, v);
    ClosedPc(P, s, p);
    blocks, s', j := false, s, k;
    var b, i := s.procs[p].pc.block, s.procs[p].pc.index;
    EndIsInside(P, b, i);
    var emits := Emits(P, b, i, End(P, b, i));
    var access, x := GroupKind(P, b, i);
    if emits && emitted {
      StopsAtEmitting(P, s, p, b, i);
      NearsNot(P, s, p, emitted, k, v);
    } else if !access && End(P, b, i) - i <= k {
      GroupNears(P, s, p, b, i, k, v);
      var s1, len := ExecGroup(P, s, p, b, i).s, End(P, b, i) - i;
      blocks, s', j := LoopWaits(P, s1, p, emitted || emits, k - len, v);
      if blocks {
        BlocksFurther(P, s, p, emitted, b, i);
      } else {
        NearsFurther(P, s, p, emitted, b, i, k - len, k, v, s', j);
      }
    } else {
      WaitsInGroup(P, s, p, b, i, access, x, k, v);
      BlocksHere(P, s, p, emitted, b, i);
      blocks := true;
    }
  }

  /** p waits in the group at its pc. */
  lemma WaitsInGroup(P: Program, s: State, p: nat, b: nat, i: nat, access: bool, x: nat, k: nat, v: View)
    requires WaitsBehind(P, s, p, k, v) && s.procs[p].pc == At(b, i) && Head(P, b, i)
    requires if access then AccessPart(P, b, i, x, End(P, b, i)) else QuietGroup(P, b, i) && k < End(P, b, i) - i
    ensures Inside(P, b, i) && ExecGroup(P, s, p, b, i).Blocked? && Emits(P, b, i, End(P, b, i))
  {
    hide *;
    HeadIsInside(P, b, i);
    if access {
      AccessPartParts(P, b, i, x, End(P, b, i));
      WaitsBehindParts(P, s, p, k, v);
      ViewHasPc(s, p);
      NotPastAccess(P, p, b, i, x, ViewOf(s, p), k, s.tres);
      GroupBlocks(P, s, p, b, i, x, k, v);
    } else {
      QuietGroupParts(P, b, i);
      GroupBlocks(P, s, p, b, i, End(P, b, i) - 1, k, v);
    }
  }

  lemma BlocksCannotStep(P: Program, s: State, p: nat)
    requires p < |s.procs| && s.procs[p].pc.At? && LoopBlocks(P, s, p, false)
    ensures CannotStep(P, s, p)
  {
    hide Loop;
    var fuel: nat :| Loop(P, s, p, false, fuel) == NoReport;
    assert StepProcess(P, s, p, fuel) == NoReport;
  }

  // ----- All processes -----

  /** p has terminated alike in m and t, or is k quiet instructions before where it waits in t. */
  ghost predicate OneNear(P: Program, t: State, m: State, p: nat, k: nat)
    requires p < |t.procs| == |m.procs|
  {
    || (m.procs[p].pc == Halted && ViewOf(m, p) == ViewOf(t, p) && k == 0)
    || WaitsBehind(P, m, p, k, ViewOf(t, p))
  }

  ghost predicate NearViews(P: Program, t: State, m: State, ks: seq<nat>) {
    && SameElsewhere(t, m) && DistinctIds(m) && m.tres == t.tres && |ks| == |m.procs|
    && forall p: nat :: p < |ks| ==> OneNear(P, t, m, p, ks[p])
  }

  /** p moves on, and nobody else notices. */
  lemma NearMoves(P: Program, t: State, m: State, ks: seq<nat>, p: nat, m': State, j: nat)
    requires NearViews(P, t, m, ks) && p < |ks| && Framed(m, m', p) && m'.mem == m.mem && m'.tres == m.tres
    requires p < |t.procs| == |m'.procs| && OneNear(P, t, m', p, j)
    ensures NearViews(P, t, m', ks[p := j])
  {
    hide QuietRun, AtBlocked;
    FrameReflexive(t, p);
    FrameKeepsElsewhere(t, m, p, t, m');
    DistinctStays(m, m', p);
    forall q: nat | q < |ks|
      ensures OneNear(P, t, m', q, if q == p then j else ks[q])
    {
      if q != p {
        assert OneNear(P, t, m, q, ks[q]);
        FrameKeepsViews(m, m', p, q);
        ViewHasPc(m, q);
        ViewHasPc(m', q);
      }
    }
  }

  /** As long as its process has not returned, a step leaves all results alone. */
  lemma SameResults(s: State, s': State, p: nat)
    requires Framed(s, s', p) && ViewOf(s', p).result == ViewOf(s, p).result
    ensures s'.tres == s.tres
  {
    forall t: int
      ensures (t in s.tres <==> t in s'.tres) && (t in s.tres ==> s'.tres[t] == s.tres[t])
    {
    }
    assert s'.tres == s.tres;
  }

  lemma WaitingView(P: Program, t: State, p: nat)
    requires FixedThreads(P) && Waits(P, t, p)
    ensures AtBlocked(P, ViewOf(t, p), t.tres)
  {
    InstrStepIsMicro(P, t, p);
    hide InstrStep, FixedThreads, MicroStep;
  }

  lemma BlockedWaits(P: Program, t: State, p: nat)
    requires FixedThreads(P) && p < |t.procs| && AtBlocked(P, ViewOf(t, p), t.tres)
    ensures Waits(P, t, p)
  {
    InstrStepIsMicro(P, t, p);
    hide InstrStep, FixedThreads, MicroStep;
  }

  lemma StuckIsSettled(P: Program, t: State)
    requires FixedThreads(P) && AllStuck(P, t)
    ensures AllSettled(P, t)
  {
    hide FixedThreads, Waits, Settled, AtBlocked;
    forall p: nat | p < |t.procs|
      ensures Settled(P, ViewOf(t, p))
    {
      ViewHasPc(t, p);
      if t.procs[p].pc == Halted {
        HaltedSettles(P, ViewOf(t, p));
      } else {
        WaitingView(P, t, p);
        BlockedIsRunning(P, ViewOf(t, p), t.tres);
      }
    }
  }

  lemma HaltedSettles(P: Program, v: View)
    requires v.proc.pc == Halted
    ensures Settled(P, v)
  {
  }

  /** Where the instruction run waits, the merged run has not been yet. */
  lemma BlockedIsBehind(P: Program, p: nat, tv: View, mv: View, env: Results, env': Results) returns (k: nat)
    requires RelView(P, p, tv, mv, env) && AtBlocked(P, tv, env')
    ensures QuietRun(P, p, mv, k, env) == Ir.Some(tv) && mv.result == tv.result
  {
    forall n: nat | n > 0
      ensures LocalRun(P, p, tv, n) != Ir.Some(mv)
    {
    }
    hide RelView, LocalRun, QuietRun;
    k := Behind(P, p, tv, mv, env);
    BlockedIsRunning(P, tv, env');
    QuietRunKeepsResult(P, p, mv, k, env);
  }

  lemma RelatedResults(P: Program, t: State, m: State, p: nat)
    requires FixedThreads(P) && AllStuck(P, t) && Rel(P, t, m) && p < |t.procs|
    ensures p < |m.procs| && ViewOf(m, p).result == ViewOf(t, p).result
  {
    hide RelView, FixedThreads, Waits, AtBlocked, ViewOf, AllClosed;
    RelParts(P, t, m, p);
    ViewHasPc(t, p);
    if t.procs[p].pc == Halted {
      HaltedViewsAgree(P, p, ViewOf(t, p), ViewOf(m, p), m.tres);
    } else {
      WaitingView(P, t, p);
      var k := BlockedIsBehind(P, p, ViewOf(t, p), ViewOf(m, p), m.tres, t.tres);
    }
  }

  lemma AllResultsAgree(P: Program, t: State, m: State)
    requires FixedThreads(P) && AllStuck(P, t) && Rel(P, t, m)
    ensures m.tres == t.tres
  {
    forall p: nat | p < |t.procs|
      ensures p < |m.procs| && ViewOf(m, p).result == ViewOf(t, p).result
    {
      RelatedResults(P, t, m, p);
    }
    hide FixedThreads, AllStuck, AllRelated, AllClosed, HasJoins, NoneHasReturned;
    forall k: int
      ensures (k in t.tres <==> k in m.tres) && (k in t.tres ==> t.tres[k] == m.tres[k])
    {
      if p: nat :| p < |t.procs| && t.procs[p].tid == k {
        assert ViewOf(m, p).result == ViewOf(t, p).result;
      }
    }
    assert t.tres == m.tres;
  }

  lemma NearOne(P: Program, t: State, m: State, p: nat) returns (k: nat)
    requires FixedThreads(P) && AllStuck(P, t) && Rel(P, t, m) && p < |t.procs| == |m.procs| && m.tres == t.tres
    ensures OneNear(P, t, m, p, k)
  {
    hide RelView, FixedThreads, Waits, AtBlocked, ViewOf, AllClosed, QuietRun;
    RelParts(P, t, m, p);
    ViewHasPc(t, p);
    ViewHasPc(m, p);
    k := 0;
    if t.procs[p].pc == Halted {
      HaltedViewsAgree(P, p, ViewOf(t, p), ViewOf(m, p), m.tres);
    } else {
      WaitingView(P, t, p);
      k := BlockedIsBehind(P, p, ViewOf(t, p), ViewOf(m, p), m.tres, t.tres);
    }
  }

  lemma {:induction false} NearUpTo(P: Program, t: State, m: State, n: nat) returns (ks: seq<nat>)
    requires FixedThreads(P) && AllStuck(P, t) && Rel(P, t, m) && n <= |t.procs| == |m.procs| && m.tres == t.tres
    ensures |ks| == n && forall p: nat :: p < n ==> OneNear(P, t, m, p, ks[p])
  {
    hide FixedThreads, AllStuck, Rel, OneNear;
    ks := [];
    if n > 0 {
      ks := NearUpTo(P, t, m, n - 1);
      var k := NearOne(P, t, m, n - 1);
      ks := ks + [k];
    }
  }

  lemma RelIsNear(P: Program, t: State, m: State) returns (ks: seq<nat>)
    requires FixedThreads(P) && AllStuck(P, t) && Rel(P, t, m)
    ensures NearViews(P, t, m, ks)
  {
    AllResultsAgree(P, t, m);
    hide FixedThreads, AllStuck, AllRelated, AllClosed, OneNear;
    ks := NearUpTo(P, t, m, |t.procs|);
    DistinctBoth(t, m);
  }

  // ----- The merged run gets stuck -----

  lemma HaltedCannotStep(P: Program, s: State, p: nat)
    requires p < |s.procs| && s.procs[p].pc == Halted
    ensures CannotStep(P, s, p)
  {
    hide Loop;
    assert StepProcess(P, s, p, 0) == NoReport;
  }

  /** A process that can step does, and comes nearer to where it waits. */
  lemma StepsNearer(P: Program, t: State, m: State, ks: seq<nat>, p: nat) returns (m': State, j: nat)
    requires FixedThreads(P) && AllClosed(P, m) && NearViews(P, t, m, ks) && p < |m.procs| && !CannotStep(P, m, p)
    ensures (exists events :: Steps(P, m, p, m', events)) && AllClosed(P, m')
    ensures j < ks[p] && NearViews(P, t, m', ks[p := j])
  {
    assert OneNear(P, t, m, p, ks[p]);
    var v := ViewOf(t, p);
    hide QuietRun, AtBlocked, FixedThreads, AllClosed, CannotStep, Steps, LoopBlocks, LoopReports, ViewOf;
    if m.procs[p].pc == Halted {
      HaltedCannotStep(P, m, p);
    }
    WaitsBehindParts(P, m, p, ks[p], v);
    var blocks;
    blocks, m', j := LoopWaits(P, m, p, false, ks[p], v);
    if blocks {
      BlocksCannotStep(P, m, p);
    }
    ReportIsStep(P, m, p, m');
    NearMoves(P, t, m, ks, p, m', j);
  }

  lemma {:induction false} RunsUntilStuck(P: Program, t: State, m: State, ks: seq<nat>) returns (n: nat, m': State, ks': seq<nat>)
    requires FixedThreads(P) && AllClosed(P, m) && NearViews(P, t, m, ks)
    ensures MergedRuns(P, m, n, m') && S.NoneSteps(P, m') && NearViews(P, t, m', ks')
    decreases Sum(ks)
  {
    hide FixedThreads, AllClosed, CannotStep, Steps, MergedRuns, OneNear;
    NoMergedRun(P, m);
    n, m', ks' := 0, m, ks;
    if !S.NoneSteps(P, m) {
      var p: nat :| p < |m.procs| && !CannotStep(P, m, p);
      var m1, j := StepsNearer(P, t, m, ks, p);
      var events :| Steps(P, m, p, m1, events);
      SumUpdate(ks, p, j);
      OneMergedRun(P, m, p, m1, events);
      n, m', ks' := RunsUntilStuck(P, t, m1, ks[p := j]);
      MergedRunsAppend(P, m, 1, m1, n, m');
      n := 1 + n;
    }
  }

  // ----- Quiet runs -----

  lemma {:induction false} QuietRunsAppend(P: Program, s: State, schedule: seq<nat>, s1: State, more: seq<nat>, t: State)
    requires QuietRuns(P, s, schedule, s1) && QuietRuns(P, s1, more, t)
    ensures QuietRuns(P, s, schedule + more, t)
    decreases |schedule|
  {
    hide InstrStep, Enabled;
    if schedule == [] {
      assert schedule + more == more;
    } else {
      assert Enabled(P, s, schedule[0]);
      EnabledParts(P, s, schedule[0]);
      QuietRunsAppend(P, InstrStep(P, s, schedule[0]).s, schedule[1..], s1, more, t);
      assert (schedule + more)[1..] == schedule[1..] + more;
    }
  }

  lemma {:induction false} QuietRunsAreInstrRuns(P: Program, s: State, schedule: seq<nat>, t: State)
    requires QuietRuns(P, s, schedule, t)
    ensures InstrRuns(P, s, schedule, t)
    decreases |schedule|
  {
    hide InstrStep;
    if schedule != [] {
      QuietRunsAreInstrRuns(P, InstrStep(P, s, schedule[0]).s, schedule[1..], t);
    }
  }

  /** The quiet instructions before v as a run of p alone. */
  lemma {:induction false} RunsQuietly(P: Program, s: State, p: nat, k: nat, v: View) returns (schedule: seq<nat>, s': State)
    requires FixedThreads(P) && p < |s.procs| && QuietRun(P, p, ViewOf(s, p), k, s.tres) == Ir.Some(v) && v.proc.pc != Halted
    ensures QuietRuns(P, s, schedule, s') && Framed(s, s', p) && s'.mem == s.mem && s'.tres == s.tres && ViewOf(s', p) == v
    decreases k
  {
    if k == 0 {
      FrameReflexive(s, p);
      schedule, s' := [], s;
    } else {
      hide QuietRuns, InstrStep, FixedThreads, Framed, Enabled, ViewOf;
      var s1 := QuietInstrOf(P, s, p, k, v);
      var rest;
      rest, s' := RunsQuietly(P, s1, p, k - 1, v);
      FrameTransitive(s, s1, s', p);
      OneQuietMore(P, s, p, rest, s');
      schedule := [p] + rest;
    }
  }

  lemma OneQuietMore(P: Program, s: State, p: nat, rest: seq<nat>, t: State)
    requires Enabled(P, s, p) && Quiet(P.blocks[s.procs[p].pc.block][s.procs[p].pc.index]) && InstrStep(P, s, p).Next?
    requires QuietRuns(P, InstrStep(P, s, p).s, rest, t)
    ensures QuietRuns(P, s, [p] + rest, t)
  {
    hide InstrStep;
    assert ([p] + rest)[1..] == rest;
  }

  /** The first of them. */
  lemma QuietInstrOf(P: Program, s: State, p: nat, k: nat, v: View) returns (s': State)
    requires FixedThreads(P) && p < |s.procs| && k > 0
    requires QuietRun(P, p, ViewOf(s, p), k, s.tres) == Ir.Some(v) && v.proc.pc != Halted
    ensures Enabled(P, s, p) && Quiet(P.blocks[s.procs[p].pc.block][s.procs[p].pc.index])
    ensures InstrStep(P, s, p).Next? && s' == InstrStep(P, s, p).s
    ensures Framed(s, s', p) && s'.mem == s.mem && s'.tres == s.tres
    ensures QuietRun(P, p, ViewOf(s', p), k - 1, s'.tres) == Ir.Some(v)
  {
    var w := ViewOf(s, p);
    assert AtQuiet(P, w, s.tres) && Enabled(P, s, p);
    InstrStepIsMicro(P, s, p);
    QuietInstrStep(P, s, p, s.tres);
    s' := InstrStep(P, s, p).s;
    StepKeepsResult(P, p, w);
    hide InstrStep, FixedThreads, QuietStep, MicroStep, Framed, ViewOf;
    QuietRunKeepsResult(P, p, ViewOf(s', p), k - 1, s.tres);
    SameResults(s, s', p);
  }

  /** What remains of t's instructions in m is a quiet run. */
  lemma {:induction false} RunsToStuck(P: Program, t: State, m: State, ks: seq<nat>) returns (schedule: seq<nat>)
    requires FixedThreads(P) && NearViews(P, t, m, ks)
    ensures QuietRuns(P, m, schedule, t)
    decreases Sum(ks)
  {
    if p: nat :| p < |ks| && ks[p] > 0 {
      assert OneNear(P, t, m, p, ks[p]);
      hide QuietRuns, FixedThreads, QuietRun, AtBlocked, ViewOf, Framed, NearViews;
      var v := ViewOf(t, p);
      BlockedIsRunning(P, v, m.tres);
      var first, m1 := RunsQuietly(P, m, p, ks[p], v);
      ThereAlready(P, t, m, ks, p, m1);
      SumUpdate(ks, p, 0);
      var rest := RunsToStuck(P, t, m1, ks[p := 0]);
      QuietRunsAppend(P, m, first, m1, rest, t);
      schedule := first + rest;
    } else {
      AllThere(P, t, m, ks);
      schedule := [];
    }
  }

  lemma ThereAlready(P: Program, t: State, m: State, ks: seq<nat>, p: nat, m': State)
    requires NearViews(P, t, m, ks) && p < |ks| && ks[p] > 0
    requires Framed(m, m', p) && m'.mem == m.mem && m'.tres == m.tres && p < |t.procs| == |m'.procs| && ViewOf(m', p) == ViewOf(t, p)
    ensures NearViews(P, t, m', ks[p := 0])
  {
    assert OneNear(P, t, m, p, ks[p]);
    hide AtBlocked, Framed;
    ZeroRun(P, p, ViewOf(m', p), m'.tres);
    assert WaitsBehind(P, m', p, 0, ViewOf(t, p));
    NearMoves(P, t, m, ks, p, m', 0);
  }

  lemma AllThere(P: Program, t: State, m: State, ks: seq<nat>)
    requires NearViews(P, t, m, ks) && forall p :: 0 <= p < |ks| ==> ks[p] == 0
    ensures m == t
  {
    forall p: nat | p < |t.procs|
      ensures m.procs[p] == t.procs[p]
    {
      assert OneNear(P, t, m, p, ks[p]);
      ZeroRun(P, p, ViewOf(m, p), m.tres);
      assert ViewOf(m, p) == ViewOf(t, p);
    }
    assert m.procs == t.procs;
  }

  // ----- Where a process waits -----

  /** From the start of plain quiet instructions, the first one that blocks, or else the instruction behind them. */
  lemma {:induction false} FirstBlocked(P: Program, p: nat, b: nat, i: nat, x: nat, v: View, env: Results) returns (k: nat)
    requires QuietPart(P, b, i, x) && v.proc.pc == At(b, i)
    ensures i + k <= x && QuietRun(P, p, v, k, env).Some? && QuietRun(P, p, v, k, env).value.proc.pc == At(b, i + k)
    ensures i + k < x ==> AtBlocked(P, QuietRun(P, p, v, k, env).value, env)
    decreases x - i
  {
    ZeroRun(P, p, v, env);
    k := 0;
    if i < x && AtQuiet(P, v, env) {
      PlainStep(P, p, b, i, v);
      hide QuietStep;
      k := FirstBlocked(P, p, b, i + 1, x, QuietStep(P, p, v), env);
      k := k + 1;
    }
  }

  /** In a group that blocks, a join does. */
  lemma JoinInGroup(P: Program, s: State, p: nat, b: nat, i: nat) returns (k: nat, v: View)
    requires FixedThreads(P) && AllClosed(P, s) && p < |s.procs| && s.procs[p].pc == At(b, i) && Head(P, b, i)
    requires Inside(P, b, i) && ExecGroup(P, s, p, b, i).Blocked?
    ensures WaitsBehind(P, s, p, k, v) && Emits(P, b, i, End(P, b, i))
  {
    hide *;
    HeadIsInside(P, b, i);
    ViewHasPc(s, p);
    var access, x := GroupKind(P, b, i);
    if access {
      AccessPartParts(P, b, i, x, End(P, b, i));
    } else {
      QuietGroupParts(P, b, i);
      x := End(P, b, i) - 1;
    }
    ShorterQuietPart(P, b, i, x, x);
    k := FirstBlocked(P, p, b, i, x, ViewOf(s, p), s.tres);
    v := QuietRun(P, p, ViewOf(s, p), k, s.tres).value;
    ShorterQuietPart(P, b, i, i + k, x);
    if !AtBlocked(P, v, s.tres) {
      NothingBlocks(P, s, p, b, i, access, x, k, v);
    }
    assert WaitsBehind(P, s, p, k, v) by { WaitsThere(P, s, p, k, v); }
    GroupBlocks(P, s, p, b, i, x, k, v);
  }

  lemma WaitsThere(P: Program, s: State, p: nat, k: nat, v: View)
    requires p < |s.procs| && QuietRun(P, p, ViewOf(s, p), k, s.tres) == Ir.Some(v) && AtBlocked(P, v, s.tres)
    ensures WaitsBehind(P, s, p, k, v)
  {
  }

  /** If the group's last instruction or its access does not block either, the group is run. */
  lemma NothingBlocks(P: Program, s: State, p: nat, b: nat, i: nat, access: bool, x: nat, k: nat, v: View)
    requires FixedThreads(P) && AllClosed(P, s) && p < |s.procs| && s.procs[p].pc == At(b, i) && Head(P, b, i)
    requires if access then AccessPart(P, b, i, x, End(P, b, i)) else QuietGroup(P, b, i) && x == End(P, b, i) - 1
    requires i + k == x && QuietRun(P, p, ViewOf(s, p), k, s.tres) == Ir.Some(v) && v.proc.pc == At(b, x) && !AtBlocked(P, v, s.tres)
    ensures Inside(P, b, i) && ExecGroup(P, s, p, b, i).Next?
  {
    hide *;
    HeadIsInside(P, b, i);
    if access {
      AccessPartParts(P, b, i, x, End(P, b, i));
      NotBlockedAccess(P, v, b, x, s.tres);
      assert AtAccessGroup(P, s, p, b, i, x, k, Config(v, s.mem)) by { GroupAccessed(P, s, p, b, i, x, k, v); }
      AccessGroupStep(P, s, p, b, i, x, k, Config(v, s.mem));
    } else {
      QuietGroupParts(P, b, i);
      NotBlockedQuiet(P, v, b, x, s.tres);
      OneQuiet(P, p, v, s.tres);
      QuietRunSplit(P, p, ViewOf(s, p), k, 1, s.tres);
      QuietGroupRuns(P, s, p, b, i, k + 1);
    }
  }

  lemma NotBlockedAccess(P: Program, v: View, b: nat, x: nat, env: Results)
    requires Inside(P, b, x) && Access(P.blocks[b][x]) && v.proc.pc == At(b, x) && !AtBlocked(P, v, env)
    ensures Runnable(P, v) && Ready(env, v.proc, InstrAt(P, v)) && Target(P, v)
  {
  }

  lemma NotBlockedQuiet(P: Program, v: View, b: nat, x: nat, env: Results)
    requires Inside(P, b, x) && Quiet(P.blocks[b][x]) && v.proc.pc == At(b, x) && !AtBlocked(P, v, env)
    ensures AtQuiet(P, v, env)
  {
  }

  lemma GroupAccessed(P: Program, s: State, p: nat, b: nat, i: nat, x: nat, k: nat, v: View)
    requires p < |s.procs| && s.procs[p].pc == At(b, i) && Head(P, b, i) && AccessPart(P, b, i, x, End(P, b, i))
    requires QuietRun(P, p, ViewOf(s, p), k, s.tres) == Ir.Some(v) && Target(P, v)
    requires Runnable(P, v) && Ready(s.tres, v.proc, InstrAt(P, v))
    ensures AtAccessGroup(P, s, p, b, i, x, k, Config(v, s.mem))
  {
    hide QuietRun, Head, End, AccessPart, Target, Ready;
  }

  /** If the loop of model_step reports nothing, p waits. */
  lemma {:induction false} SilentLoopWaits(P: Program, s: State, p: nat, emitted: bool, fuel: nat) returns (k: nat, v: View)
    requires FixedThreads(P) && AllClosed(P, s) && p < |s.procs|
    requires Loop(P, s, p, emitted, fuel) == NoReport || Loop(P, s, p, emitted, fuel).NoSuchPc?
    ensures !emitted && WaitsBehind(P, s, p, k, v)
    decreases fuel
  {
    hide ExecGroup, Head, Emits, End, AllClosed, FixedThreads, WaitsBehind, LocalGroupRun;
    ClosedPc(P, s, p);
    var b, i := s.procs[p].pc.block, s.procs[p].pc.index;
    if ExecGroup(P, s, p, b, i).Blocked? {
      k, v := JoinInGroup(P, s, p, b, i);
    } else {
      GroupStaysClosed(P, s, p, b, i);
      k, v := SilentLoopWaits(P, ExecGroup(P, s, p, b, i).s, p, emitted || Emits(P, b, i, End(P, b, i)), fuel - 1);
      LocalGroupRuns(P, s, p, b, i);
      LocalGroupWaits(P, s, p, b, i, k, v);
      k := End(P, b, i) - i + k;
    }
  }

  lemma LocalThenQuiet(P: Program, p: nat, v0: View, len: nat, v1: View, k: nat, w: View, env: Results)
    requires LocalRun(P, p, v0, len) == Ir.Some(v1) && v1.proc.pc != Halted && QuietRun(P, p, v1, k, env) == Ir.Some(w)
    ensures v1.result == v0.result && QuietRun(P, p, v0, len + k, env) == Ir.Some(w)
  {
    hide *;
    LocalRunIsQuiet(P, p, v0, len, env);
    QuietRunKeepsResult(P, p, v0, len, env);
    QuietRunSplit(P, p, v0, len, k, env);
  }

  lemma LocalGroupWaits(P: Program, s: State, p: nat, b: nat, i: nat, k: nat, v: View)
    requires p < |s.procs| && Inside(P, b, i) && LocalGroupRun(P, s, p, b, i) && WaitsBehind(P, ExecGroup(P, s, p, b, i).s, p, k, v)
    ensures End(P, b, i) > i && WaitsBehind(P, s, p, End(P, b, i) - i + k, v)
  {
    hide *;
    LocalGroupParts(P, s, p, b, i);
    var s1, len := ExecGroup(P, s, p, b, i).s, End(P, b, i) - i;
    WaitsBehindParts(P, s1, p, k, v);
    ViewHasPc(s1, p);
    LocalThenQuiet(P, p, ViewOf(s, p), len, ViewOf(s1, p), k, v, s1.tres);
    SameResults(s, s1, p);
    WaitsThere(P, s, p, len + k, v);
  }

  lemma SilentWaits(P: Program, s: State, p: nat) returns (k: nat, v: View)
    requires FixedThreads(P) && AllClosed(P, s) && CannotStep(P, s, p) && s.procs[p].pc != Halted
    ensures WaitsBehind(P, s, p, k, v)
  {
    hide Loop, FixedThreads, AllClosed, WaitsBehind;
    var fuel: nat :| StepProcess(P, s, p, fuel) == NoReport || StepProcess(P, s, p, fuel).NoSuchPc?;
    k, v := SilentLoopWaits(P, s, p, false, fuel);
  }

  // ----- A stuck merged state is a deadlock -----

  /** The processes before n are stuck in s, the others are as in m, and so is all they share. */
  ghost predicate StuckUpTo(P: Program, m: State, s: State, n: nat) {
    && |s.procs| == |m.procs| && DistinctIds(s) && s.mem == m.mem && s.tres == m.tres
    && (forall p: nat :: p < |s.procs| ==> (s.procs[p].pc == Halted <==> m.procs[p].pc == Halted))
    && (forall p: nat :: p < |s.procs| && p < n && s.procs[p].pc != Halted ==> AtBlocked(P, ViewOf(s, p), s.tres))
    && (forall p: nat :: p < |s.procs| && n <= p ==> ViewOf(s, p) == ViewOf(m, p))
  }

  lemma OneMoreStuck(P: Program, m: State, s: State, n: nat, s': State)
    requires StuckUpTo(P, m, s, n) && n < |s.procs| && Framed(s, s', n) && s'.mem == s.mem && s'.tres == s.tres
    requires s'.procs[n].pc == Halted <==> m.procs[n].pc == Halted
    requires s'.procs[n].pc != Halted ==> AtBlocked(P, ViewOf(s', n), s.tres)
    ensures StuckUpTo(P, m, s', n + 1)
  {
    hide AtBlocked;
    DistinctStays(s, s', n);
    forall p: nat | p < |s.procs| && p != n
      ensures ViewOf(s', p) == ViewOf(s, p) && s'.procs[p].pc == s.procs[p].pc
    {
      FrameKeepsViews(s, s', n, p);
      ViewHasPc(s, p);
      ViewHasPc(s', p);
    }
  }

  lemma {:induction false} RunsIntoDeadlock(P: Program, m: State, n: nat) returns (schedule: seq<nat>, t: State)
    requires FixedThreads(P) && AllClosed(P, m) && DistinctIds(m) && S.NoneSteps(P, m) && n <= |m.procs|
    ensures QuietRuns(P, m, schedule, t) && StuckUpTo(P, m, t, n)
    decreases n
  {
    hide FixedThreads, AllClosed, CannotStep, WaitsBehind, AtBlocked, QuietRuns, StuckUpTo, ViewOf, Framed, DistinctIds;
    if n == 0 {
      NoneStuck(P, m);
      schedule, t := [], m;
    } else {
      var p := n - 1;
      var first, s := RunsIntoDeadlock(P, m, p);
      assert CannotStep(P, m, p);
      var more;
      more, t := OneRunsIntoDeadlock(P, m, s, p);
      QuietRunsAppend(P, m, first, s, more, t);
      schedule := first + more;
    }
  }

  lemma NoneStuck(P: Program, m: State)
    requires DistinctIds(m)
    ensures StuckUpTo(P, m, m, 0) && QuietRuns(P, m, [], m)
  {
  }

  lemma OneRunsIntoDeadlock(P: Program, m: State, s: State, p: nat) returns (schedule: seq<nat>, t: State)
    requires FixedThreads(P) && AllClosed(P, m) && p < |m.procs| && CannotStep(P, m, p) && StuckUpTo(P, m, s, p)
    ensures QuietRuns(P, s, schedule, t) && StuckUpTo(P, m, t, p + 1)
  {
    hide FixedThreads, AllClosed, CannotStep, AtBlocked, QuietRun, ViewOf, Framed, DistinctIds;
    if m.procs[p].pc == Halted {
      schedule, t := [], s;
      FrameReflexive(s, p);
    } else {
      var k, v := SilentWaits(P, m, p);
      BlockedIsRunning(P, v, m.tres);
      assert ViewOf(s, p) == ViewOf(m, p);
      schedule, t := RunsQuietly(P, s, p, k, v);
      FrameSlots(s, t, p);
      ViewHasPc(t, p);
    }
    hide StuckUpTo;
    OneMoreStuck(P, m, s, p, t);
  }

  // ----- The theorems -----

  /**
   In m no process can step, and only quiet instructions, in front of the joins that block, are left from m to
   t. They touch neither the memory nor the results, and no process terminates.
   */
  ghost predicate StuckBefore(P: Program, m: State, t: State) {
    && S.NoneSteps(P, m) && |m.procs| == |t.procs| && m.mem == t.mem && m.tres == t.tres
    && (forall p :: 0 <= p < |m.procs| ==> (m.procs[p].pc == Halted <==> t.procs[p].pc == Halted))
    && exists quiet :: QuietRuns(P, m, quiet, t)
  }

  lemma NearIsStuckBefore(P: Program, t: State, m: State, ks: seq<nat>)
    requires FixedThreads(P) && NearViews(P, t, m, ks) && S.NoneSteps(P, m)
    ensures StuckBefore(P, m, t)
  {
    hide FixedThreads, CannotStep, QuietRuns, AtBlocked, QuietRun;
    var quiet := RunsToStuck(P, t, m, ks);
    forall p: nat | p < |m.procs|
      ensures m.procs[p].pc == Halted <==> t.procs[p].pc == Halted
    {
      assert OneNear(P, t, m, p, ks[p]);
      ViewHasPc(m, p);
      ViewHasPc(t, p);
      if WaitsBehind(P, m, p, ks[p], ViewOf(t, p)) {
        WaitsBehindParts(P, m, p, ks[p], ViewOf(t, p));
        BlockedIsRunning(P, ViewOf(t, p), m.tres);
      }
    }
  }

  /**
   The reduction preserves deadlocks: interleavings of single instructions get stuck in t exactly if merged
   runs get stuck before t.
   */
  lemma DeadlocksPreserved(P: Program, s: State, t: State)
    requires FixedThreads(P) && AllClosed(P, s) && DistinctIds(s) && AllStuck(P, t)
    requires HasJoins(P) ==> NoneHasReturned(s)
    ensures (exists schedule :: InstrRuns(P, s, schedule, t)) <==> (exists n, m :: MergedRuns(P, s, n, m) && StuckBefore(P, m, t))
  {
    hide *;
    if schedule :| InstrRuns(P, s, schedule, t) {
      RelReflexive(P, s);
      StuckIsSettled(P, t);
      var n, m := Simulate(P, s, s, schedule, t);
      RelIsClosed(P, t, m);
      var ks := RelIsNear(P, t, m);
      var n', m', ks' := RunsUntilStuck(P, t, m, ks);
      MergedRunsAppend(P, s, n, m, n', m');
      NearIsStuckBefore(P, t, m', ks');
    }
    if n: nat, m :| MergedRuns(P, s, n, m) && StuckBefore(P, m, t) {
      StuckBeforeRuns(P, s, n, m, t);
    }
  }

  lemma StuckBeforeRuns(P: Program, s: State, n: nat, m: State, t: State)
    requires FixedThreads(P) && MergedRuns(P, s, n, m) && StuckBefore(P, m, t)
    ensures exists schedule :: InstrRuns(P, s, schedule, t)
  {
    hide QuietRuns, InstrRuns, MergedRuns, S.NoneSteps;
    var quiet :| QuietRuns(P, m, quiet, t);
    FixedIsWellFormed(P);
    var schedule := MergedRunsAreInstrRuns(P, s, n, m);
    QuietRunsAreInstrRuns(P, m, quiet, t);
    RunsAppend(P, s, schedule, m, quiet, t);
  }

  lemma RelIsClosed(P: Program, t: State, m: State)
    requires Rel(P, t, m)
    ensures AllClosed(P, m)
  {
    hide AllRelated, AllClosed;
  }

  /** Where no process can step, there is a deadlock of single instructions, or all processes have terminated. */
  lemma StuckIsDeadlock(P: Program, m: State) returns (t: State)
    requires FixedThreads(P) && AllClosed(P, m) && DistinctIds(m) && S.NoneSteps(P, m)
    ensures AllStuck(P, t) && StuckBefore(P, m, t)
  {
    hide FixedThreads, AllClosed, QuietRuns, CannotStep, AtBlocked, Waits, DistinctIds;
    var quiet;
    quiet, t := RunsIntoDeadlock(P, m, |m.procs|);
    forall p: nat | p < |t.procs| && t.procs[p].pc != Halted
      ensures Waits(P, t, p)
    {
      BlockedWaits(P, t, p);
    }
  }
}
