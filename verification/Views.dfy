/**
 A process's view is its own slot of the state and its own thread result. Local instructions work on the
 view alone, and a join without a place for the result does so once the other thread has returned. Here
 groups are taken apart into such quiet instructions and memory accesses.
 */
module Views {
  import Ir
  import G = Grouping
  import opened Machine
  import opened PcClosure
  import opened Reduction

  // ----- Views -----

  type Results = map<int, ThreadResult>

  datatype View = View(proc: Proc, result: Ir.Option<ThreadResult>)

  function ViewOf(s: State, p: nat): View
    requires p < |s.procs|
  {
    var tid := s.procs[p].tid;
    View(s.procs[p], if tid in s.tres then Ir.Some(s.tres[tid]) else Ir.None)
  }

  /** A view together with the shared memory. */
  datatype Config = Config(view: View, mem: map<int, int>)

  function ConfigOf(s: State, p: nat): Config
    requires p < |s.procs|
  {
    Config(ViewOf(s, p), s.mem)
  }

  function AtPc(v: View, pc: Pc): View { v.(proc := v.proc.(pc := pc)) }

  function WithPc(c: Config, pc: Pc): Config { c.(view := AtPc(c.view, pc)) }

  /** s' differs from s only in p's view and the memory. */
  ghost predicate Framed(s: State, s': State, p: nat) {
    && p < |s.procs| == |s'.procs| && s'.procs == s.procs[p := s'.procs[p]]
    && s'.procs[p].tid == s.procs[p].tid
    && s'.status == s.status && s'.threadsStarted == s.threadsStarted
    && forall t: int {:trigger t in s'.tres} {:trigger t in s.tres} :: t != s.procs[p].tid ==>
         (t in s.tres <==> t in s'.tres) && (t in s.tres ==> s'.tres[t] == s.tres[t])
  }

  lemma FrameTransitive(s: State, s1: State, s2: State, p: nat)
    requires Framed(s, s1, p) && Framed(s1, s2, p)
    ensures Framed(s, s2, p)
  {
  }

  lemma FrameReflexive(s: State, p: nat)
    requires p < |s.procs|
    ensures Framed(s, s, p)
  {
  }

  lemma FrameKeepsViews(s: State, s': State, p: nat, q: nat)
    requires DistinctIds(s) && Framed(s, s', p) && q < |s.procs| && q != p
    ensures ViewOf(s', q) == ViewOf(s, q) && DistinctIds(s')
  {
    assert s'.procs[q] == s.procs[q];
  }

  // ----- Instructions on views -----

  predicate Simple(instr: Instr) { !instr.ThreadCreate? }

  /** What a join finds. */
  function FoundByJoin(env: Results, q: Proc, instr: Instr): ThreadResult
    requires instr.ThreadJoin?
  {
    ReadResult(env, Eval(q.regs[instr.dst := 0], instr.tid))
  }

  /** A join does not block. */
  predicate Ready(env: Results, q: Proc, instr: Instr) {
    instr.ThreadJoin? ==> FoundByJoin(env, q, instr).status != 0
  }

  function Micro(P: Program, p: nat, b: nat, instr: Instr, c: Config, env: Results): Config
    requires Simple(instr)
  {
    if IsLocal(instr) then
      var out := ExecLocal(P, p, b, c.view.proc, instr);
      var result := if out.result.Some? then Ir.Some(ThreadResult(c.view.proc.tid, out.result.value)) else c.view.result;
      Config(View(out.proc, result), c.mem)
    else if instr.ThreadJoin? then
      var regs := c.view.proc.regs[instr.dst := 0];
      var ptr := Eval(regs, instr.resultPtr);
      Config(c.view.(proc := c.view.proc.(regs := regs)),
             if ptr != 0 then c.mem[ptr := FoundByJoin(env, c.view.proc, instr).value] else c.mem)
    else
      var (q, mem) := ExecMemory(c.view.proc, c.mem, instr);
      Config(View(q, c.view.result), mem)
  }

  lemma ExecIsMicro(P: Program, s: State, p: nat, b: nat, i: nat)
    requires p < |s.procs| && Inside(P, b, i) && Simple(P.blocks[b][i])
    ensures var instr, r := P.blocks[b][i], Exec(P, s, p, b, i);
            && (r.Next? <==> Ready(s.tres, s.procs[p], instr))
            && (r.Next? ==>
                  && ConfigOf(r.s, p) == Micro(P, p, b, instr, ConfigOf(s, p), s.tres) && Framed(s, r.s, p)
                  && (Plain(instr) ==> r.s.tres == s.tres))
  {
    hide EnterBlock, PassArgs;
  }

  /** The view can run an instruction. */
  predicate Runnable(P: Program, v: View) {
    v.proc.pc.At? && Inside(P, v.proc.pc.block, v.proc.pc.index)
  }

  function InstrAt(P: Program, v: View): Instr
    requires Runnable(P, v)
  {
    P.blocks[v.proc.pc.block][v.proc.pc.index]
  }

  /** One instruction of the reference semantics on a configuration. */
  function MicroStep(P: Program, p: nat, c: Config, env: Results): Config
    requires Runnable(P, c.view) && Simple(InstrAt(P, c.view))
  {
    var b, i := c.view.proc.pc.block, c.view.proc.pc.index;
    Micro(P, p, b, P.blocks[b][i], WithPc(c, NextPc(P, b, i)), env)
  }

  lemma InstrStepIsMicro(P: Program, s: State, p: nat)
    requires FixedThreads(P) && Enabled(P, s, p)
    ensures Runnable(P, ViewOf(s, p)) && Simple(InstrAt(P, ViewOf(s, p)))
    ensures var r := InstrStep(P, s, p);
            && (r.Next? <==> Ready(s.tres, s.procs[p], InstrAt(P, ViewOf(s, p))))
            && (r.Next? ==>
                  && ConfigOf(r.s, p) == MicroStep(P, p, ConfigOf(s, p), s.tres) && Framed(s, r.s, p)
                  && (Plain(InstrAt(P, ViewOf(s, p))) ==> r.s.tres == s.tres))
  {
    var b, i := s.procs[p].pc.block, s.procs[p].pc.index;
    assert Simple(P.blocks[b][i]);
    var s0 := SetPc(s, p, NextPc(P, b, i));
    ExecIsMicro(P, s0, p, b, i);
    hide Exec, Micro, WellFormed, Head;
    if InstrStep(P, s, p).Next? {
      FrameTransitive(s, s0, InstrStep(P, s, p).s, p);
    }
  }

  // ----- Quiet runs -----

  predicate AtLocal(P: Program, v: View) {
    Runnable(P, v) && IsLocal(InstrAt(P, v))
  }

  /** The next instruction touches no memory and does not block. */
  predicate AtQuiet(P: Program, v: View, env: Results) {
    Runnable(P, v) && Quiet(InstrAt(P, v)) && Ready(env, v.proc, InstrAt(P, v))
  }

  predicate AtAccess(P: Program, v: View) {
    Runnable(P, v) && Access(InstrAt(P, v))
  }

  /** The view has terminated, or its next instruction is not local. */
  predicate Settled(P: Program, v: View) {
    v.proc.pc == Halted || (Runnable(P, v) && !IsLocal(InstrAt(P, v)))
  }

  /** The view has terminated, or its next instruction accesses memory. */
  predicate Target(P: Program, v: View) {
    v.proc.pc == Halted || AtAccess(P, v)
  }

  function QuietStep(P: Program, p: nat, v: View): View
    requires Runnable(P, v) && Quiet(InstrAt(P, v))
  {
    MicroStep(P, p, Config(v, map[]), map[]).view
  }

  /** n local instructions from v, if there are that many before the view settles. */
  function LocalRun(P: Program, p: nat, v: View, n: nat): Ir.Option<View>
    decreases n
  {
    if n == 0 then Ir.Some(v)
    else if !AtLocal(P, v) then Ir.None
    else LocalRun(P, p, QuietStep(P, p, v), n - 1)
  }

  /** n quiet instructions from v, if there are that many. */
  function QuietRun(P: Program, p: nat, v: View, n: nat, env: Results): Ir.Option<View>
    decreases n
  {
    if n == 0 then Ir.Some(v)
    else if !AtQuiet(P, v, env) then Ir.None
    else QuietRun(P, p, QuietStep(P, p, v), n - 1, env)
  }

  lemma ZeroRun(P: Program, p: nat, v: View, env: Results)
    ensures LocalRun(P, p, v, 0) == Ir.Some(v) && QuietRun(P, p, v, 0, env) == Ir.Some(v)
  {
  }

  lemma {:induction false} LocalRunSplit(P: Program, p: nat, v: View, k: nat, n: nat)
    requires LocalRun(P, p, v, k).Some?
    ensures LocalRun(P, p, v, k + n) == LocalRun(P, p, LocalRun(P, p, v, k).value, n)
    decreases k
  {
    hide QuietStep;
    if k > 0 {
      LocalRunSplit(P, p, QuietStep(P, p, v), k - 1, n);
    }
  }

  lemma {:induction false} QuietRunSplit(P: Program, p: nat, v: View, k: nat, n: nat, env: Results)
    requires QuietRun(P, p, v, k, env).Some?
    ensures QuietRun(P, p, v, k + n, env) == QuietRun(P, p, QuietRun(P, p, v, k, env).value, n, env)
    decreases k
  {
    hide QuietStep;
    if k > 0 {
      QuietRunSplit(P, p, QuietStep(P, p, v), k - 1, n, env);
    }
  }

  /** A run that settles is at least as long as any other from the same view, and continues it. */
  lemma SettledIsLongest(P: Program, p: nat, v: View, k: nat, n: nat)
    requires LocalRun(P, p, v, k).Some? && LocalRun(P, p, v, n).Some? && Settled(P, LocalRun(P, p, v, n).value)
    ensures k <= n && LocalRun(P, p, LocalRun(P, p, v, k).value, n - k) == LocalRun(P, p, v, n)
    ensures Settled(P, LocalRun(P, p, v, k).value) ==> k == n
  {
    hide QuietStep;
    if n < k {
      LocalRunSplit(P, p, v, n, k - n);
      assert false;
    }
    LocalRunSplit(P, p, v, k, n - k);
  }

  lemma TargetIsNotQuiet(P: Program, v: View, env: Results)
    requires Target(P, v)
    ensures !AtQuiet(P, v, env) && Settled(P, v)
  {
  }

  /** A quiet run that reaches its target is at least as long as any other from the same view, and continues it. */
  lemma TargetIsLongest(P: Program, p: nat, v: View, k: nat, n: nat, env: Results)
    requires QuietRun(P, p, v, k, env).Some? && QuietRun(P, p, v, n, env).Some? && Target(P, QuietRun(P, p, v, n, env).value)
    ensures k <= n && QuietRun(P, p, QuietRun(P, p, v, k, env).value, n - k, env) == QuietRun(P, p, v, n, env)
    ensures Target(P, QuietRun(P, p, v, k, env).value) ==> k == n
  {
    hide QuietStep, AtQuiet, Target;
    TargetIsNotQuiet(P, QuietRun(P, p, v, n, env).value, env);
    if n < k {
      QuietRunSplit(P, p, v, n, k - n, env);
      assert false;
    }
    QuietRunSplit(P, p, v, k, n - k, env);
    if Target(P, QuietRun(P, p, v, k, env).value) {
      TargetIsNotQuiet(P, QuietRun(P, p, v, k, env).value, env);
    }
  }

  lemma LocalIsQuiet(P: Program, v: View, env: Results)
    requires AtLocal(P, v)
    ensures AtQuiet(P, v, env)
  {
  }

  lemma {:induction false} LocalRunIsQuiet(P: Program, p: nat, v: View, n: nat, env: Results)
    requires LocalRun(P, p, v, n).Some?
    ensures QuietRun(P, p, v, n, env) == LocalRun(P, p, v, n)
    decreases n
  {
    if n > 0 {
      LocalIsQuiet(P, v, env);
      hide AtLocal, AtQuiet, QuietStep;
      LocalRunIsQuiet(P, p, QuietStep(P, p, v), n - 1, env);
    }
  }

  /** Whoever has a result in env has one in env'; this matters only if there are joins. */
  ghost predicate Grows(P: Program, env: Results, env': Results) {
    HasJoins(P) ==> forall t: int :: ReadResult(env, t).status != 0 ==> ReadResult(env', t).status != 0
  }

  lemma QuietGrows(P: Program, v: View, env: Results, env': Results)
    requires Grows(P, env, env') && AtQuiet(P, v, env)
    ensures AtQuiet(P, v, env')
  {
  }

  lemma {:induction false} QuietRunGrows(P: Program, p: nat, v: View, n: nat, env: Results, env': Results)
    requires Grows(P, env, env') && QuietRun(P, p, v, n, env).Some?
    ensures QuietRun(P, p, v, n, env') == QuietRun(P, p, v, n, env)
    decreases n
  {
    if n > 0 {
      QuietGrows(P, v, env, env');
      hide AtQuiet, QuietStep, Grows;
      QuietRunGrows(P, p, QuietStep(P, p, v), n - 1, env, env');
    }
  }

  lemma QuietStepIsMicro(P: Program, p: nat, c: Config, env: Results)
    requires Runnable(P, c.view) && Quiet(InstrAt(P, c.view))
    ensures MicroStep(P, p, c, env) == Config(QuietStep(P, p, c.view), c.mem)
  {
  }

  // ----- Ranges -----

  lemma MicroIgnoresPc(P: Program, p: nat, b: nat, instr: Instr, c: Config, pc: Pc, env: Results)
    requires Simple(instr) && Plain(instr)
    ensures Micro(P, p, b, instr, WithPc(c, pc), env) == WithPc(Micro(P, p, b, instr, c, env), pc)
    ensures Micro(P, p, b, instr, c, env).view.proc.pc == c.view.proc.pc
  {
  }

  /** One plain quiet instruction of a group, whatever the pc was set to. */
  lemma QuietExec(P: Program, s: State, p: nat, b: nat, i: nat)
    requires p < |s.procs| && Inside(P, b, i + 1) && Plain(P.blocks[b][i]) && Quiet(P.blocks[b][i])
    requires AtQuiet(P, AtPc(ViewOf(s, p), At(b, i)), s.tres)
    ensures var r := Exec(P, s, p, b, i);
            && r.Next? && Framed(s, r.s, p) && r.s.mem == s.mem && r.s.tres == s.tres && r.s.procs[p].pc == s.procs[p].pc
            && AtPc(ViewOf(r.s, p), At(b, i + 1)) == QuietStep(P, p, AtPc(ViewOf(s, p), At(b, i)))
  {
    var instr, c := P.blocks[b][i], ConfigOf(s, p);
    var v := AtPc(c.view, At(b, i));
    ExecIsMicro(P, s, p, b, i);
    MicroIgnoresPc(P, p, b, instr, c, At(b, i + 1), s.tres);
    QuietStepIsMicro(P, p, Config(v, s.mem), s.tres);
    assert WithPc(Config(v, s.mem), At(b, i + 1)) == WithPc(c, At(b, i + 1));
    hide Exec, Micro, Framed;
  }

  predicate QuietPart(P: Program, b: nat, i: nat, x: nat) {
    b < |P.blocks| && i <= x < |P.blocks[b]| && forall k :: i <= k < x ==> Plain(P.blocks[b][k]) && Quiet(P.blocks[b][k])
  }

  /** Plain quiet instructions i..x in a row. */
  lemma {:induction false} QuietRange(P: Program, s: State, p: nat, b: nat, i: nat, x: nat)
    requires p < |s.procs| && QuietPart(P, b, i, x)
    requires QuietRun(P, p, AtPc(ViewOf(s, p), At(b, i)), x - i, s.tres).Some?
    ensures var r := ExecRange(P, s, p, b, i, x);
            && r.Next? && Framed(s, r.s, p) && r.s.mem == s.mem && r.s.tres == s.tres && r.s.procs[p].pc == s.procs[p].pc
            && QuietRun(P, p, AtPc(ViewOf(s, p), At(b, i)), x - i, s.tres) == Ir.Some(AtPc(ViewOf(r.s, p), At(b, x)))
    decreases x - i
  {
    if i == x {
      EmptyRange(P, s, p, b, x);
      FrameReflexive(s, p);
    } else {
      QuietExec(P, s, p, b, i);
      var s1 := Exec(P, s, p, b, i).s;
      hide Exec, AtQuiet, QuietStep, Framed, AtPc, ViewOf;
      QuietRange(P, s1, p, b, i + 1, x);
      FrameTransitive(s, s1, ExecRange(P, s1, p, b, i + 1, x).s, p);
    }
  }

  /** A run to a target from the start of plain quiet instructions goes through all of them. */
  lemma {:induction false} QuietPrefix(P: Program, p: nat, b: nat, i: nat, x: nat, v: View, k: nat, env: Results)
    requires QuietPart(P, b, i, x) && v.proc.pc == At(b, i)
    requires QuietRun(P, p, v, k, env).Some? && Target(P, QuietRun(P, p, v, k, env).value)
    ensures k >= x - i && QuietRun(P, p, v, x - i, env).Some? && QuietRun(P, p, v, x - i, env).value.proc.pc == At(b, x)
    decreases x - i
  {
    ZeroRun(P, p, v, env);
    if i < x {
      assert Plain(P.blocks[b][i]) && Quiet(P.blocks[b][i]);
      assert !Target(P, v) && k > 0;
      PlainStep(P, p, b, i, v);
      hide AtQuiet, QuietStep, Target;
      QuietPrefix(P, p, b, i + 1, x, QuietStep(P, p, v), k - 1, env);
    }
  }

  lemma PlainStep(P: Program, p: nat, b: nat, i: nat, v: View)
    requires Inside(P, b, i + 1) && v.proc.pc == At(b, i) && Plain(P.blocks[b][i]) && Quiet(P.blocks[b][i])
    ensures QuietStep(P, p, v).proc.pc == At(b, i + 1)
  {
    MicroIgnoresPc(P, p, b, P.blocks[b][i], WithPc(Config(v, map[]), At(b, i + 1)), At(b, i + 1), map[]);
    hide Micro;
  }

  /** Plain local instructions in a row are a local run. */
  lemma {:induction false} LocalPrefix(P: Program, p: nat, b: nat, i: nat, x: nat, v: View)
    requires QuietPart(P, b, i, x) && v.proc.pc == At(b, i) && forall k :: i <= k < x ==> IsLocal(P.blocks[b][k])
    ensures LocalRun(P, p, v, x - i).Some? && LocalRun(P, p, v, x - i).value.proc.pc == At(b, x)
    decreases x - i
  {
    ZeroRun(P, p, v, map[]);
    if i < x {
      PlainStep(P, p, b, i, v);
      assert AtLocal(P, v);
      hide AtLocal, QuietStep;
      LocalPrefix(P, p, b, i + 1, x, QuietStep(P, p, v));
    }
  }

  /** The last instruction of a group, with the pc already behind it: one step of the reference semantics. */
  lemma LastExec(P: Program, s: State, p: nat, b: nat, x: nat)
    requires p < |s.procs| && Inside(P, b, x) && Simple(P.blocks[b][x]) && s.procs[p].pc == NextPc(P, b, x)
    requires Ready(s.tres, s.procs[p], P.blocks[b][x])
    ensures var c := Config(AtPc(ViewOf(s, p), At(b, x)), s.mem);
            var r := Exec(P, s, p, b, x);
            && Runnable(P, c.view) && Simple(InstrAt(P, c.view))
            && r.Next? && Framed(s, r.s, p) && ConfigOf(r.s, p) == MicroStep(P, p, c, s.tres)
            && (r.s.tres == s.tres || r.s.procs[p].pc == Halted)
  {
    ExecIsMicro(P, s, p, b, x);
    ResultMeansHalted(P, s, p, b, x);
    hide Exec, Micro;
    assert WithPc(Config(AtPc(ViewOf(s, p), At(b, x)), s.mem), NextPc(P, b, x)) == ConfigOf(s, p);
  }

  lemma ResultMeansHalted(P: Program, s: State, p: nat, b: nat, x: nat)
    requires p < |s.procs| && Inside(P, b, x) && Simple(P.blocks[b][x])
    ensures var r := Exec(P, s, p, b, x); r.Next? ==> r.s.tres == s.tres || r.s.procs[p].pc == Halted
  {
    hide EnterBlock, PassArgs;
  }

  /** One instruction and then the rest, put together. */
  lemma RangeFolds(P: Program, s: State, p: nat, b: nat, i: nat, e: nat)
    requires p < |s.procs| && b < |P.blocks| && i < e <= |P.blocks[b]|
    requires Exec(P, s, p, b, i).Next? && ExecRange(P, Exec(P, s, p, b, i).s, p, b, i + 1, e).Next?
    ensures var all := ExecRange(P, s, p, b, i, e);
            all.Next? && all.s == ExecRange(P, Exec(P, s, p, b, i).s, p, b, i + 1, e).s
  {
    hide Exec;
  }

  lemma {:induction false} RangesFold(P: Program, s: State, p: nat, b: nat, i: nat, x: nat, e: nat)
    requires p < |s.procs| && b < |P.blocks| && i <= x <= e <= |P.blocks[b]|
    requires ExecRange(P, s, p, b, i, x).Next? && ExecRange(P, ExecRange(P, s, p, b, i, x).s, p, b, x, e).Next?
    ensures var all := ExecRange(P, s, p, b, i, e);
            all.Next? && all.s == ExecRange(P, ExecRange(P, s, p, b, i, x).s, p, b, x, e).s
    decreases x - i
  {
    hide Exec, ExecRange;
    if i == x {
      EmptyRange(P, s, p, b, x);
    } else {
      RangeUnfolds(P, s, p, b, i, x);
      RangesFold(P, Exec(P, s, p, b, i).s, p, b, i + 1, x, e);
      RangeFolds(P, s, p, b, i, e);
    }
  }

  lemma OneInstr(P: Program, s: State, p: nat, b: nat, x: nat)
    requires p < |s.procs| && Inside(P, b, x) && Exec(P, s, p, b, x).Next?
    ensures var r := ExecRange(P, s, p, b, x, x + 1); r.Next? && r.s == Exec(P, s, p, b, x).s
  {
    EmptyRange(P, Exec(P, s, p, b, x).s, p, b, x + 1);
    hide Exec;
  }

  /** Plain quiet instructions i..x and then instruction x, with the pc already behind it. */
  lemma QuietThenLast(P: Program, s: State, p: nat, b: nat, i: nat, x: nat, w: View)
    requires p < |s.procs| && QuietPart(P, b, i, x) && Simple(P.blocks[b][x]) && s.procs[p].pc == NextPc(P, b, x)
    requires QuietRun(P, p, AtPc(ViewOf(s, p), At(b, i)), x - i, s.tres) == Ir.Some(w) && Ready(s.tres, w.proc, P.blocks[b][x])
    ensures w.proc.pc == At(b, x) && Runnable(P, w) && Simple(InstrAt(P, w))
    ensures var r := ExecRange(P, s, p, b, i, x + 1);
            && r.Next? && Framed(s, r.s, p) && ConfigOf(r.s, p) == MicroStep(P, p, Config(w, s.mem), s.tres)
            && (r.s.tres == s.tres || r.s.procs[p].pc == Halted)
  {
    hide Exec, ExecRange, MicroStep, QuietRun, Framed;
    QuietRange(P, s, p, b, i, x);
    var s1 := ExecRange(P, s, p, b, i, x).s;
    LastExec(P, s1, p, b, x);
    OneInstr(P, s1, p, b, x);
    RangesFold(P, s, p, b, i, x, x + 1);
    FrameTransitive(s, s1, Exec(P, s1, p, b, x).s, p);
  }

  // ----- Groups -----

  /** Behind a load, store or cmpxchg every group has local instructions only; behind a join this is required. */
  lemma AccessIsLast(P: Program, b: nat, i: nat, x: nat)
    requires FixedThreads(P) && Head(P, b, i) && i <= x < End(P, b, i) && Access(P.blocks[b][x])
    ensures forall k :: x < k < End(P, b, i) ==> IsLocal(P.blocks[b][k])
  {
    if JoinsForResult(P.blocks[b][x]) {
      assert ResultJoinIsLast(P, b, i);
    } else {
      var main := G.GroupShape(Ops(P, b), false, i);
      MemoryIsMain(P.blocks[b][x]);
      hide OpcodeOf, Ir.FrontCollapsable, Ir.BackCollapsable, IsLocal, FixedThreads, Head;
      forall k | x < k < End(P, b, i)
        ensures IsLocal(P.blocks[b][k])
      {
        BackIsLocal(P.blocks[b][k]);
      }
    }
  }

  lemma MemoryIsMain(instr: Instr)
    requires instr.Load? || instr.Store? || instr.CmpXchg?
    ensures !Ir.FrontCollapsable(OpcodeOf(instr), false)
  {
  }

  lemma BackIsLocal(instr: Instr)
    ensures Ir.BackCollapsable(OpcodeOf(instr), false) ==> IsLocal(instr)
  {
    Ir.PredicatesDiffer(OpcodeOf(instr), false);
    CollapsableIsLocal(instr);
    hide Ir.FrontCollapsable, Ir.BackCollapsable, Ir.RuntimeCollapsable, IsLocal;
  }

  lemma LocalIsNotAccess(instr: Instr)
    ensures !(IsLocal(instr) && Access(instr))
  {
  }

  lemma AccessEmits(instr: Instr)
    requires Access(instr)
    ensures !Ir.RuntimeCollapsable(OpcodeOf(instr), false)
  {
  }

  lemma GroupIsPlain(P: Program, b: nat, i: nat)
    requires WellFormed(P) && Head(P, b, i)
    ensures forall k :: i <= k < End(P, b, i) - 1 ==> Plain(P.blocks[b][k])
  {
    hide WellFormed, Plain, End, Head;
    forall k | i <= k < End(P, b, i) - 1
      ensures Plain(P.blocks[b][k])
    {
      InnerInstructionsArePlain(P, b, i, k);
    }
  }

  lemma CollapsableIsLocal(instr: Instr)
    ensures Ir.RuntimeCollapsable(OpcodeOf(instr), false) <==> IsLocal(instr)
  {
  }

  /** A group emits exactly when some instruction of it is not local. */
  lemma EmitsIff(P: Program, b: nat, i: nat, e: nat)
    requires b < |P.blocks| && i <= e <= |P.blocks[b]|
    ensures Emits(P, b, i, e) <==> exists k :: i <= k < e && !IsLocal(P.blocks[b][k])
  {
    hide OpcodeOf, Ir.RuntimeCollapsable, IsLocal;
    forall k | i <= k < e
      ensures Ir.RuntimeCollapsable(OpcodeOf(P.blocks[b][k]), false) <==> IsLocal(P.blocks[b][k])
    {
      CollapsableIsLocal(P.blocks[b][k]);
    }
  }

  /** After a group pcs are closed. */
  lemma GroupStaysClosed(P: Program, s: State, p: nat, b: nat, i: nat)
    requires FixedThreads(P) && AllClosed(P, s) && p < |s.procs| && Head(P, b, i)
    ensures var r := ExecGroup(P, s, p, b, i); r.Next? ==> AllClosed(P, r.s)
  {
    GroupKeepsClosed(P, s, p, b, i);
    var e := End(P, b, i);
    var s0 := SetPc(s, p, NextPc(P, b, e - 1));
    hide AllClosed, Head, End, WellFormed, ExecRange;
    if ExecRange(P, s0, p, b, i, e).Next? {
      NoCreateFails(P, s0, p, b, i, e);
    }
  }

  lemma SimpleNeverFails(P: Program, s: State, p: nat, b: nat, i: nat)
    requires p < |s.procs| && Inside(P, b, i) && Simple(P.blocks[b][i])
    ensures var r := Exec(P, s, p, b, i); r.Next? ==> NoneFails(r.events)
  {
    if IsLocal(P.blocks[b][i]) {
      LocalEvents(P, p, b, s.procs[p], P.blocks[b][i]);
    }
    hide ExecLocal;
  }

  lemma {:induction false} NoCreateFails(P: Program, s: State, p: nat, b: nat, i: nat, e: nat)
    requires FixedThreads(P) && p < |s.procs| && b < |P.blocks| && i <= e <= |P.blocks[b]| && ExecRange(P, s, p, b, i, e).Next?
    ensures var r := ExecRange(P, s, p, b, i, e); NoneFails(r.events) && !LastFails(r.events)
    decreases e - i
  {
    if i == e {
      EmptyRange(P, s, p, b, e);
    } else {
      assert Simple(P.blocks[b][i]);
      SimpleNeverFails(P, s, p, b, i);
      hide Exec, ExecRange, WellFormed, NoneFails, Head;
      RangeUnfolds(P, s, p, b, i, e);
      var r := Exec(P, s, p, b, i);
      NoCreateFails(P, r.s, p, b, i + 1, e);
      LastOfSum(r.events, ExecRange(P, r.s, p, b, i + 1, e).events);
    }
  }

  lemma OneLocal(P: Program, p: nat, w: View)
    requires AtLocal(P, w)
    ensures LocalRun(P, p, w, 1) == Ir.Some(QuietStep(P, p, w))
  {
    ZeroRun(P, p, QuietStep(P, p, w), map[]);
  }

  lemma LocalIsReady(P: Program, v: View, b: nat, x: nat, env: Results)
    requires Inside(P, b, x) && IsLocal(P.blocks[b][x])
    ensures Simple(P.blocks[b][x]) && Ready(env, v.proc, P.blocks[b][x]) && Quiet(P.blocks[b][x])
    ensures v.proc.pc == At(b, x) ==> AtLocal(P, v)
  {
  }

  predicate LocalPart(P: Program, b: nat, x: nat, e: nat) {
    b < |P.blocks| && x < e <= |P.blocks[b]| && QuietPart(P, b, x, e - 1) && forall k :: x <= k < e ==> IsLocal(P.blocks[b][k])
  }

  lemma LocalTailView(P: Program, p: nat, b: nat, x: nat, e: nat, v: View, env: Results) returns (w: View)
    requires LocalPart(P, b, x, e) && v.proc.pc == At(b, x)
    ensures QuietRun(P, p, v, e - 1 - x, env) == Ir.Some(w) && w.proc.pc == At(b, e - 1) && Ready(env, w.proc, P.blocks[b][e - 1])
    ensures Inside(P, b, e - 1) && Simple(P.blocks[b][e - 1]) && Runnable(P, w) && Quiet(InstrAt(P, w))
    ensures LocalRun(P, p, v, e - x) == Ir.Some(QuietStep(P, p, w))
  {
    hide LocalRun, QuietRun, QuietStep, IsLocal, Quiet, Simple, Ready, AtLocal;
    LocalPrefix(P, p, b, x, e - 1, v);
    LocalRunIsQuiet(P, p, v, e - 1 - x, env);
    w := LocalRun(P, p, v, e - 1 - x).value;
    LocalIsReady(P, w, b, e - 1, env);
    OneLocal(P, p, w);
    LocalRunSplit(P, p, v, e - 1 - x, 1);
  }

  /** Instructions x..e, local and all but the last plain, with the pc already behind e: a local run. */
  lemma LocalTail(P: Program, s: State, p: nat, b: nat, x: nat, e: nat)
    requires p < |s.procs| && LocalPart(P, b, x, e) && s.procs[p].pc == NextPc(P, b, e - 1)
    ensures var r, v := ExecRange(P, s, p, b, x, e), AtPc(ViewOf(s, p), At(b, x));
            && r.Next? && Framed(s, r.s, p) && r.s.mem == s.mem
            && LocalRun(P, p, v, e - x) == Ir.Some(ViewOf(r.s, p))
  {
    assert b < |P.blocks| && x < e <= |P.blocks[b]| && QuietPart(P, b, x, e - 1);
    var v := AtPc(ViewOf(s, p), At(b, x));
    assert v.proc.pc == At(b, x);
    hide *;
    var w := LocalTailView(P, p, b, x, e, v, s.tres);
    QuietThenLast(P, s, p, b, x, e - 1, w);
    QuietStepIsMicro(P, p, Config(w, s.mem), s.tres);
    ConfigParts(ExecRange(P, s, p, b, x, e).s, p);
  }

  /** A quiet run goes through all its prefixes. */
  lemma {:induction false} QuietRunPrefix(P: Program, p: nat, v: View, k: nat, j: nat, env: Results)
    requires QuietRun(P, p, v, k, env).Some? && j <= k
    ensures QuietRun(P, p, v, j, env).Some?
    ensures QuietRun(P, p, QuietRun(P, p, v, j, env).value, k - j, env) == QuietRun(P, p, v, k, env)
    decreases k
  {
    hide QuietStep;
    if j > 0 {
      QuietRunPrefix(P, p, QuietStep(P, p, v), k - 1, j - 1, env);
    }
  }

  /** As long as it runs plain instructions, a quiet run moves from one to the next. */
  lemma {:induction false} QuietRunPc(P: Program, p: nat, b: nat, i: nat, x: nat, v: View, env: Results)
    requires QuietPart(P, b, i, x) && v.proc.pc == At(b, i) && QuietRun(P, p, v, x - i, env).Some?
    ensures QuietRun(P, p, v, x - i, env).value.proc.pc == At(b, x)
    decreases x - i
  {
    if i < x {
      PlainStep(P, p, b, i, v);
      hide QuietStep, Quiet, Plain;
      QuietRunPc(P, p, b, i + 1, x, QuietStep(P, p, v), env);
    }
  }

  /** A group without an access, and a quiet run that goes on behind it: the group's part of that run. */
  lemma QuietGroupView(P: Program, p: nat, b: nat, i: nat, e: nat, v: View, k: nat, env: Results) returns (w: View)
    requires b < |P.blocks| && i < e <= |P.blocks[b]| && QuietPart(P, b, i, e - 1) && v.proc.pc == At(b, i)
    requires e - i <= k && QuietRun(P, p, v, k, env).Some?
    ensures QuietRun(P, p, v, e - 1 - i, env) == Ir.Some(w) && AtQuiet(P, w, env) && w.proc.pc == At(b, e - 1)
    ensures QuietRun(P, p, QuietStep(P, p, w), k - (e - i), env) == QuietRun(P, p, v, k, env)
  {
    hide QuietPart, QuietStep;
    QuietRunPrefix(P, p, v, k, e - 1 - i, env);
    QuietRunPc(P, p, b, i, e - 1, v, env);
    w := QuietRun(P, p, v, e - 1 - i, env).value;
  }

  /** A quiet run to a target passes a group without an access. */
  lemma PassesGroup(P: Program, p: nat, b: nat, i: nat, e: nat, v: View, k: nat, env: Results)
    requires b < |P.blocks| && i < e <= |P.blocks[b]| && QuietPart(P, b, i, e - 1) && Quiet(P.blocks[b][e - 1]) && v.proc.pc == At(b, i)
    requires QuietRun(P, p, v, k, env).Some? && Target(P, QuietRun(P, p, v, k, env).value)
    ensures e - i <= k
  {
    hide QuietRun, Target;
    QuietPrefix(P, p, b, i, e - 1, v, k, env);
    TargetIsLongest(P, p, v, e - 1 - i, k, env);
    QuietIsNotTarget(P, p, b, e - 1, QuietRun(P, p, v, e - 1 - i, env).value, k - (e - 1 - i), env);
  }

  predicate QuietGroup(P: Program, b: nat, i: nat)
    requires Inside(P, b, i)
  {
    QuietPart(P, b, i, End(P, b, i) - 1) && Quiet(P.blocks[b][End(P, b, i) - 1])
  }

  lemma QuietGroupParts(P: Program, b: nat, i: nat)
    requires Inside(P, b, i) && QuietGroup(P, b, i)
    ensures QuietPart(P, b, i, End(P, b, i) - 1) && Quiet(P.blocks[b][End(P, b, i) - 1])
  {
  }

  /** Such a group is run, if the process can run quietly at least that far. */
  lemma QuietGroupRuns(P: Program, s: State, p: nat, b: nat, i: nat, k: nat)
    requires FixedThreads(P) && AllClosed(P, s) && p < |s.procs| && s.procs[p].pc == At(b, i) && Head(P, b, i)
    requires QuietGroup(P, b, i) && End(P, b, i) - i <= k && QuietRun(P, p, ViewOf(s, p), k, s.tres).Some?
    ensures var r, len := ExecGroup(P, s, p, b, i), End(P, b, i) - i;
            && r.Next? && Framed(s, r.s, p) && AllClosed(P, r.s) && r.s.mem == s.mem && len > 0
            && QuietRun(P, p, ViewOf(r.s, p), k - len, s.tres) == QuietRun(P, p, ViewOf(s, p), k, s.tres)
            && (r.s.tres == s.tres || r.s.procs[p].pc == Halted)
  {
    hide *;
    var v, e := ViewOf(s, p), End(P, b, i);
    GroupStaysClosed(P, s, p, b, i);
    GroupStart(P, s, p, b, i);
    QuietGroupParts(P, b, i);
    ViewHasPc(s, p);
    var w := QuietGroupView(P, p, b, i, e, v, k, s.tres);
    var s0 := SetPc(s, p, NextPc(P, b, e - 1));
    ReadyAt(P, w, b, e - 1, s.tres);
    QuietThenLast(P, s0, p, b, i, e - 1, w);
    QuietStepIsMicro(P, p, Config(w, s.mem), s.tres);
    ConfigParts(ExecRange(P, s0, p, b, i, e).s, p);
    FrameTransitive(s, s0, ExecRange(P, s0, p, b, i, e).s, p);
  }

  /** A group runs from the state with the pc already behind it, which has the same view otherwise. */
  lemma GroupStart(P: Program, s: State, p: nat, b: nat, i: nat)
    requires p < |s.procs| && Head(P, b, i) && s.procs[p].pc == At(b, i)
    ensures Inside(P, b, i) && i < End(P, b, i) <= |P.blocks[b]| && Inside(P, b, End(P, b, i) - 1) && b < |P.blocks|
    ensures var e := End(P, b, i);
            var s0 := SetPc(s, p, NextPc(P, b, e - 1));
            && |s0.procs| == |s.procs| && s0.procs[p].pc == NextPc(P, b, e - 1) && s0.tres == s.tres && s0.mem == s.mem
            && AtPc(ViewOf(s0, p), At(b, i)) == ViewOf(s, p) && Framed(s, s0, p)
            && ExecGroup(P, s, p, b, i) == ExecRange(P, s0, p, b, i, e)
  {
    hide Head, End, ExecRange, NextPc;
    SetPcFrame(s, p, NextPc(P, b, End(P, b, i) - 1));
  }

  lemma ConfigParts(s: State, p: nat)
    requires p < |s.procs|
    ensures ConfigOf(s, p) == Config(ViewOf(s, p), s.mem)
  {
  }

  lemma ViewHasPc(s: State, p: nat)
    requires p < |s.procs|
    ensures ViewOf(s, p).proc.pc == s.procs[p].pc
  {
  }

  lemma ReadyAt(P: Program, w: View, b: nat, x: nat, env: Results)
    requires Inside(P, b, x) && w.proc.pc == At(b, x) && AtQuiet(P, w, env)
    ensures Ready(env, w.proc, P.blocks[b][x]) && Simple(P.blocks[b][x]) && Runnable(P, w) && Quiet(InstrAt(P, w))
  {
  }

  lemma SetPcFrame(s: State, p: nat, pc: Pc)
    requires p < |s.procs|
    ensures Framed(s, SetPc(s, p, pc), p)
  {
  }

  /** At a quiet instruction, a run to a target goes on. */
  lemma QuietIsNotTarget(P: Program, p: nat, b: nat, x: nat, w: View, n: nat, env: Results)
    requires Inside(P, b, x) && w.proc.pc == At(b, x) && Quiet(P.blocks[b][x])
    requires QuietRun(P, p, w, n, env).Some? && Target(P, QuietRun(P, p, w, n, env).value)
    ensures n > 0 && AtQuiet(P, w, env) && Ready(env, w.proc, P.blocks[b][x])
    ensures QuietRun(P, p, QuietStep(P, p, w), n - 1, env) == QuietRun(P, p, w, n, env)
  {
  }

  lemma AccessIsPlain(P: Program, b: nat, x: nat)
    requires WellFormed(P) && Inside(P, b, x) && Access(P.blocks[b][x])
    ensures Plain(P.blocks[b][x]) && Simple(P.blocks[b][x]) && Inside(P, b, x + 1)
  {
  }

  /** The access of a group, whatever the pc was set to. */
  lemma AccessExec(P: Program, s: State, p: nat, b: nat, x: nat, c: Config)
    requires p < |s.procs| && Inside(P, b, x + 1) && Access(P.blocks[b][x]) && Plain(P.blocks[b][x]) && Simple(P.blocks[b][x])
    requires c == Config(AtPc(ViewOf(s, p), At(b, x)), s.mem) && Ready(s.tres, c.view.proc, P.blocks[b][x])
    ensures Runnable(P, c.view) && Simple(InstrAt(P, c.view))
    ensures var r := Exec(P, s, p, b, x);
            && r.Next? && Framed(s, r.s, p) && r.s.tres == s.tres && r.s.procs[p].pc == s.procs[p].pc
            && r.s.mem == MicroStep(P, p, c, s.tres).mem
            && AtPc(ViewOf(r.s, p), At(b, x + 1)) == MicroStep(P, p, c, s.tres).view
  {
    ExecIsMicro(P, s, p, b, x);
    MicroIgnoresPc(P, p, b, P.blocks[b][x], ConfigOf(s, p), At(b, x + 1), s.tres);
    assert WithPc(c, At(b, x + 1)) == WithPc(ConfigOf(s, p), At(b, x + 1));
    hide Exec, Micro, Framed;
  }

  /** Quiet instructions and then an access, as far as the view is concerned. */
  lemma AccessGroupView(P: Program, p: nat, b: nat, i: nat, x: nat, v: View, k: nat, env: Results)
    requires QuietPart(P, b, i, x) && Access(P.blocks[b][x]) && v.proc.pc == At(b, i)
    requires QuietRun(P, p, v, k, env).Some? && Target(P, QuietRun(P, p, v, k, env).value)
    ensures k == x - i && QuietRun(P, p, v, k, env).value.proc.pc == At(b, x)
  {
    hide QuietRun;
    QuietPrefix(P, p, b, i, x, v, k, env);
    assert AtAccess(P, QuietRun(P, p, v, x - i, env).value);
    TargetIsLongest(P, p, v, x - i, k, env);
  }

  /** The part of the group up to and including the access. */
  lemma UpToAccess(P: Program, s: State, p: nat, b: nat, i: nat, x: nat, c: Config)
    requires p < |s.procs| && QuietPart(P, b, i, x) && Inside(P, b, x + 1)
    requires Access(P.blocks[b][x]) && Plain(P.blocks[b][x]) && Simple(P.blocks[b][x])
    requires QuietRun(P, p, AtPc(ViewOf(s, p), At(b, i)), x - i, s.tres) == Ir.Some(c.view) && c.mem == s.mem
    requires Ready(s.tres, c.view.proc, P.blocks[b][x])
    ensures Runnable(P, c.view) && Simple(InstrAt(P, c.view))
    ensures var r := ExecRange(P, s, p, b, i, x + 1);
            && r.Next? && Framed(s, r.s, p) && r.s.tres == s.tres && r.s.procs[p].pc == s.procs[p].pc
            && r.s.mem == MicroStep(P, p, c, s.tres).mem
            && AtPc(ViewOf(r.s, p), At(b, x + 1)) == MicroStep(P, p, c, s.tres).view
  {
    hide Exec, ExecRange, MicroStep, QuietRun, Framed, ViewOf, AtPc, Access, Plain, Quiet, Ready;
    QuietRange(P, s, p, b, i, x);
    var s1 := ExecRange(P, s, p, b, i, x).s;
    AccessExec(P, s1, p, b, x, c);
    OneInstr(P, s1, p, b, x);
    RangesFold(P, s, p, b, i, x, x + 1);
    FrameTransitive(s, s1, Exec(P, s1, p, b, x).s, p);
  }

  predicate LocalBetween(P: Program, b: nat, x: nat, e: nat) {
    b < |P.blocks| && x <= e <= |P.blocks[b]| && (forall k :: x <= k < e ==> IsLocal(P.blocks[b][k]))
    && forall k :: x <= k < e - 1 ==> Plain(P.blocks[b][k])
  }

  /** The local part behind the access, which may be empty. */
  lemma BehindAccess(P: Program, s: State, p: nat, b: nat, x: nat, e: nat)
    requires p < |s.procs| && LocalBetween(P, b, x, e) && 0 < x <= e && s.procs[p].pc == NextPc(P, b, e - 1)
    requires Inside(P, b, x)
    ensures var r, v := ExecRange(P, s, p, b, x, e), AtPc(ViewOf(s, p), At(b, x));
            && r.Next? && Framed(s, r.s, p) && r.s.mem == s.mem
            && LocalRun(P, p, v, e - x) == Ir.Some(ViewOf(r.s, p))
  {
    if x == e {
      EmptyRange(P, s, p, b, e);
      FrameReflexive(s, p);
      assert AtPc(ViewOf(s, p), At(b, x)) == ViewOf(s, p);
    } else {
      forall k | x <= k < e
        ensures Quiet(P.blocks[b][k])
      {
        LocalIsReady(P, ViewOf(s, p), b, k, s.tres);
      }
      hide IsLocal, Quiet, Plain;
      LocalTail(P, s, p, b, x, e);
    }
  }

  /** s runs quietly to the access c, performs it, and runs locally to s1. */
  ghost predicate ThroughAccess(P: Program, s: State, p: nat, c: Config, after: nat, s1: State)
    requires p < |s.procs|
  {
    && Runnable(P, c.view) && Simple(InstrAt(P, c.view))
    && Framed(s, s1, p) && AllClosed(P, s1) && s1.mem == MicroStep(P, p, c, s.tres).mem
    && LocalRun(P, p, MicroStep(P, p, c, s.tres).view, after) == Ir.Some(ViewOf(s1, p))
  }

  /** Quiet instructions up to x, an access at x and local instructions behind it. */
  predicate AccessPart(P: Program, b: nat, i: nat, x: nat, e: nat) {
    && QuietPart(P, b, i, x) && x < e && LocalBetween(P, b, x + 1, e) && Inside(P, b, x + 1) && Inside(P, b, e - 1)
    && Access(P.blocks[b][x]) && Plain(P.blocks[b][x]) && Simple(P.blocks[b][x])
  }

  lemma AccessPartParts(P: Program, b: nat, i: nat, x: nat, e: nat)
    requires AccessPart(P, b, i, x, e)
    ensures QuietPart(P, b, i, x) && x < e && LocalBetween(P, b, x + 1, e) && Inside(P, b, x + 1) && Inside(P, b, e - 1)
    ensures Access(P.blocks[b][x]) && Plain(P.blocks[b][x]) && Simple(P.blocks[b][x])
    ensures b < |P.blocks| && i <= x < e <= |P.blocks[b]|
  {
  }

  /** c is the access that p, with its pc already behind the part, comes to. */
  ghost predicate ComesTo(P: Program, s: State, p: nat, b: nat, i: nat, x: nat, e: nat, c: Config) {
    && AccessPart(P, b, i, x, e) && p < |s.procs| && s.procs[p].pc == NextPc(P, b, e - 1)
    && QuietRun(P, p, AtPc(ViewOf(s, p), At(b, i)), x - i, s.tres) == Ir.Some(c.view) && c.mem == s.mem
    && Runnable(P, c.view) && Simple(InstrAt(P, c.view)) && Ready(s.tres, c.view.proc, P.blocks[b][x])
  }

  lemma ComesToParts(P: Program, s: State, p: nat, b: nat, i: nat, x: nat, e: nat, c: Config)
    requires ComesTo(P, s, p, b, i, x, e, c)
    ensures AccessPart(P, b, i, x, e) && p < |s.procs| && Inside(P, b, e - 1) && s.procs[p].pc == NextPc(P, b, e - 1)
    ensures x >= i && QuietRun(P, p, AtPc(ViewOf(s, p), At(b, i)), x - i, s.tres) == Ir.Some(c.view) && c.mem == s.mem
    ensures Inside(P, b, x) && Ready(s.tres, c.view.proc, P.blocks[b][x])
    ensures Runnable(P, c.view) && Simple(InstrAt(P, c.view))
  {
  }

  /** The part is run. */
  lemma AccessRange(P: Program, s: State, p: nat, b: nat, i: nat, x: nat, e: nat, c: Config)
    requires ComesTo(P, s, p, b, i, x, e, c)
    ensures i <= x < e <= |P.blocks[b]| && Runnable(P, c.view) && Simple(InstrAt(P, c.view))
    ensures var r := ExecRange(P, s, p, b, i, e);
            && r.Next? && Framed(s, r.s, p) && r.s.mem == MicroStep(P, p, c, s.tres).mem
            && LocalRun(P, p, MicroStep(P, p, c, s.tres).view, e - x - 1) == Ir.Some(ViewOf(r.s, p))
  {
    hide *;
    ComesToParts(P, s, p, b, i, x, e, c);
    AccessPartParts(P, b, i, x, e);
    UpToAccess(P, s, p, b, i, x, c);
    var s1 := ExecRange(P, s, p, b, i, x + 1).s;
    FrameSlots(s, s1, p);
    BehindAccess(P, s1, p, b, x + 1, e);
    RangesFold(P, s, p, b, i, x + 1, e);
    FrameTransitive(s, s1, ExecRange(P, s1, p, b, x + 1, e).s, p);
  }

  /** s leads to the access c of the group at p's pc. */
  ghost predicate AtAccessGroup(P: Program, s: State, p: nat, b: nat, i: nat, x: nat, k: nat, c: Config) {
    && p < |s.procs| && s.procs[p].pc == At(b, i) && Head(P, b, i) && AccessPart(P, b, i, x, End(P, b, i))
    && QuietRun(P, p, ViewOf(s, p), k, s.tres) == Ir.Some(c.view) && Target(P, c.view) && c.mem == s.mem
    && Runnable(P, c.view) && Ready(s.tres, c.view.proc, InstrAt(P, c.view))
  }

  lemma GroupComesTo(P: Program, s: State, p: nat, b: nat, i: nat, x: nat, k: nat, c: Config)
    requires AtAccessGroup(P, s, p, b, i, x, k, c)
    ensures ComesTo(P, SetPc(s, p, NextPc(P, b, End(P, b, i) - 1)), p, b, i, x, End(P, b, i), c)
  {
    hide Head, End, Access, QuietRun, ViewOf, Ready, LocalBetween, QuietPart, Plain, Simple;
    GroupStart(P, s, p, b, i);
    ViewHasPc(s, p);
    AccessGroupView(P, p, b, i, x, ViewOf(s, p), k, s.tres);
  }

  lemma AccessGroupParts(P: Program, s: State, p: nat, b: nat, i: nat, x: nat, k: nat, c: Config)
    requires AtAccessGroup(P, s, p, b, i, x, k, c)
    ensures p < |s.procs| && s.procs[p].pc == At(b, i) && Head(P, b, i) && Inside(P, b, i)
  {
  }

  lemma AccessGroupStep(P: Program, s: State, p: nat, b: nat, i: nat, x: nat, k: nat, c: Config)
    requires AtAccessGroup(P, s, p, b, i, x, k, c)
    ensures i <= x < End(P, b, i) && Runnable(P, c.view) && Simple(InstrAt(P, c.view)) && p < |s.procs| && Inside(P, b, i)
    ensures var r := ExecGroup(P, s, p, b, i);
            && r.Next? && Framed(s, r.s, p) && r.s.mem == MicroStep(P, p, c, s.tres).mem
            && LocalRun(P, p, MicroStep(P, p, c, s.tres).view, End(P, b, i) - x - 1) == Ir.Some(ViewOf(r.s, p))
  {
    hide *;
    AccessGroupParts(P, s, p, b, i, x, k, c);
    GroupStart(P, s, p, b, i);
    GroupComesTo(P, s, p, b, i, x, k, c);
    var e := End(P, b, i);
    var s0 := SetPc(s, p, NextPc(P, b, e - 1));
    AccessRange(P, s0, p, b, i, x, e, c);
    FrameTransitive(s, s0, ExecRange(P, s0, p, b, i, e).s, p);
  }

  /** The group is run, and everything behind the access is a local run. */
  lemma AccessGroupRuns(P: Program, s: State, p: nat, b: nat, i: nat, x: nat, k: nat, c: Config)
    requires FixedThreads(P) && AllClosed(P, s) && AtAccessGroup(P, s, p, b, i, x, k, c)
    ensures p < |s.procs| && Inside(P, b, i)
    ensures var r := ExecGroup(P, s, p, b, i);
            i <= x < End(P, b, i) && r.Next? && ThroughAccess(P, s, p, c, End(P, b, i) - x - 1, r.s)
  {
    hide *;
    AccessGroupParts(P, s, p, b, i, x, k, c);
    AccessGroupStep(P, s, p, b, i, x, k, c);
    GroupStaysClosed(P, s, p, b, i);
    Through(P, s, p, c, End(P, b, i) - x - 1, ExecGroup(P, s, p, b, i).s);
  }

  lemma FrameSlots(s: State, s': State, p: nat)
    requires Framed(s, s', p)
    ensures p < |s'.procs| == |s.procs|
  {
  }

  lemma Through(P: Program, s: State, p: nat, c: Config, after: nat, s1: State)
    requires p < |s.procs| && Runnable(P, c.view) && Simple(InstrAt(P, c.view))
    requires Framed(s, s1, p) && AllClosed(P, s1) && s1.mem == MicroStep(P, p, c, s.tres).mem
    requires LocalRun(P, p, MicroStep(P, p, c, s.tres).view, after) == Ir.Some(ViewOf(s1, p))
    ensures ThroughAccess(P, s, p, c, after, s1)
  {
  }

  /** Every group has at most one access, and emits if it has one. */
  lemma GroupKind(P: Program, b: nat, i: nat) returns (access: bool, x: nat)
    requires FixedThreads(P) && Head(P, b, i)
    ensures access ==> AccessPart(P, b, i, x, End(P, b, i)) && Emits(P, b, i, End(P, b, i))
    ensures !access ==> QuietGroup(P, b, i)
  {
    hide *;
    HeadIsInside(P, b, i);
    access, x := false, i;
    if k: nat :| i <= k < End(P, b, i) && Access(P.blocks[b][k]) {
      access, x := true, k;
      AccessGroup(P, b, i, k);
    } else {
      NoAccessGroup(P, b, i);
    }
  }

  lemma HeadIsInside(P: Program, b: nat, i: nat)
    requires Head(P, b, i)
    ensures Inside(P, b, i) && b < |P.blocks| && i < End(P, b, i) <= |P.blocks[b]| && Inside(P, b, End(P, b, i) - 1)
  {
  }

  lemma NoCreate(P: Program, b: nat, k: nat)
    requires FixedThreads(P) && Inside(P, b, k)
    ensures Simple(P.blocks[b][k]) && WellFormed(P)
    ensures !Access(P.blocks[b][k]) ==> Quiet(P.blocks[b][k])
  {
  }

  lemma PlainInside(P: Program, b: nat, i: nat, k: nat)
    requires FixedThreads(P) && Head(P, b, i) && i <= k < End(P, b, i) - 1
    ensures Plain(P.blocks[b][k])
  {
    assert WellFormed(P);
    hide WellFormed, Plain, End, Head;
    InnerInstructionsArePlain(P, b, i, k);
  }

  lemma NotBeforeAccess(P: Program, b: nat, i: nat, k: nat, x: nat)
    requires FixedThreads(P) && Head(P, b, i) && i <= k < x < End(P, b, i) && Access(P.blocks[b][x])
    ensures !Access(P.blocks[b][k])
  {
    hide FixedThreads, Head, End;
    if Access(P.blocks[b][k]) {
      AccessIsLast(P, b, i, k);
      LocalIsNotAccess(P.blocks[b][x]);
    }
  }

  lemma AccessGroup(P: Program, b: nat, i: nat, x: nat)
    requires FixedThreads(P) && Head(P, b, i) && i <= x < End(P, b, i) && Access(P.blocks[b][x])
    ensures AccessPart(P, b, i, x, End(P, b, i)) && Emits(P, b, i, End(P, b, i))
  {
    hide FixedThreads, Head, End, Plain, Access, Simple, Quiet, OpcodeOf;
    NoCreate(P, b, x);
    AccessIsPlain(P, b, x);
    AccessEmits(P.blocks[b][x]);
    AccessIsLast(P, b, i, x);
    forall k | i <= k < End(P, b, i)
      ensures k < End(P, b, i) - 1 ==> Plain(P.blocks[b][k])
      ensures k < x ==> Quiet(P.blocks[b][k])
    {
      NoCreate(P, b, k);
      if k < End(P, b, i) - 1 {
        PlainInside(P, b, i, k);
      }
      if k < x {
        NotBeforeAccess(P, b, i, k, x);
      }
    }
  }

  lemma NoAccessGroup(P: Program, b: nat, i: nat)
    requires FixedThreads(P) && Head(P, b, i) && forall k :: i <= k < End(P, b, i) ==> !Access(P.blocks[b][k])
    ensures QuietGroup(P, b, i)
  {
    hide FixedThreads, Head, End, Plain, Access, Quiet;
    forall k | i <= k < End(P, b, i)
      ensures Quiet(P.blocks[b][k]) && (k < End(P, b, i) - 1 ==> Plain(P.blocks[b][k]))
    {
      NoCreate(P, b, k);
      if k < End(P, b, i) - 1 {
        PlainInside(P, b, i, k);
      }
    }
  }

  /** The group at (b, i) is a local run of p. */
  ghost predicate LocalGroupRun(P: Program, s: State, p: nat, b: nat, i: nat)
    requires p < |s.procs| && Inside(P, b, i)
  {
    var r := ExecGroup(P, s, p, b, i);
    && r.Next? && Framed(s, r.s, p) && AllClosed(P, r.s) && r.s.mem == s.mem
    && LocalRun(P, p, ViewOf(s, p), End(P, b, i) - i) == Ir.Some(ViewOf(r.s, p))
  }

  lemma LocalGroupParts(P: Program, s: State, p: nat, b: nat, i: nat)
    requires p < |s.procs| && Inside(P, b, i) && LocalGroupRun(P, s, p, b, i)
    ensures var r := ExecGroup(P, s, p, b, i);
            && r.Next? && Framed(s, r.s, p) && AllClosed(P, r.s) && p < |r.s.procs| && i < End(P, b, i)
            && LocalRun(P, p, ViewOf(s, p), End(P, b, i) - i) == Ir.Some(ViewOf(r.s, p))
  {
  }

  lemma AllLocal(P: Program, b: nat, i: nat, e: nat)
    requires FixedThreads(P) && Head(P, b, i) && e == End(P, b, i) && !Emits(P, b, i, e)
    ensures LocalPart(P, b, i, e)
  {
    GroupIsPlain(P, b, i);
    hide Head, Emits, FixedThreads, WellFormed, End, Plain, IsLocal, Quiet;
    EmitsIff(P, b, i, e);
    forall k | i <= k < e
      ensures Quiet(P.blocks[b][k])
    {
      LocalIsReady(P, View(Proc(Halted, map[], [], 0, 0), Ir.None), b, k, map[]);
    }
  }

  lemma LocalGroupStep(P: Program, s: State, p: nat, b: nat, i: nat)
    requires p < |s.procs| && s.procs[p].pc == At(b, i) && Head(P, b, i) && LocalPart(P, b, i, End(P, b, i))
    ensures var r := ExecGroup(P, s, p, b, i);
            && r.Next? && Framed(s, r.s, p) && r.s.mem == s.mem
            && LocalRun(P, p, ViewOf(s, p), End(P, b, i) - i) == Ir.Some(ViewOf(r.s, p))
  {
    hide *;
    var e := End(P, b, i);
    GroupStart(P, s, p, b, i);
    var s0 := SetPc(s, p, NextPc(P, b, e - 1));
    LocalTail(P, s0, p, b, i, e);
    FrameTransitive(s, s0, ExecRange(P, s0, p, b, i, e).s, p);
  }

  lemma LocalGroupRuns(P: Program, s: State, p: nat, b: nat, i: nat)
    requires FixedThreads(P) && AllClosed(P, s) && p < |s.procs| && s.procs[p].pc == At(b, i) && Head(P, b, i)
    requires Inside(P, b, i) && !Emits(P, b, i, End(P, b, i))
    ensures LocalGroupRun(P, s, p, b, i)
  {
    hide *;
    GroupStaysClosed(P, s, p, b, i);
    AllLocal(P, b, i, End(P, b, i));
    LocalGroupStep(P, s, p, b, i);
    IsLocalGroupRun(P, s, p, b, i);
  }

  lemma IsLocalGroupRun(P: Program, s: State, p: nat, b: nat, i: nat)
    requires p < |s.procs| && Inside(P, b, i)
    requires var r := ExecGroup(P, s, p, b, i);
             && r.Next? && Framed(s, r.s, p) && AllClosed(P, r.s) && r.s.mem == s.mem
             && LocalRun(P, p, ViewOf(s, p), End(P, b, i) - i) == Ir.Some(ViewOf(r.s, p))
    ensures LocalGroupRun(P, s, p, b, i)
  {
  }
}
