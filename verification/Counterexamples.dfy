/**
 Runs of concrete programs in which the emitted next-state function does something unwanted: a
 pthread_create inside a group with all slots taken, main starting with the id of an ended thread, and
 a memory size that wraps.
 */
module Counterexamples {
  import Ir
  import G = Grouping
  import opened Machine
  import opened PcClosure
  import opened GlobalStatus
  import A = Allocation

  // ----- Globals -----

  /** The address of the k-th global, all of them having eight bytes. */
  function Global(k: nat): int { MakePointer(0, 8 * k) }

  /** The operand is the address of a global. */
  predicate PointsToGlobal(M: Model, o: Operand) {
    o.Const? && MakePointer(0, 0) <= o.value && o.value + 8 <= MakePointer(0, M.globalsSize)
  }

  /** The instruction accesses globals only, and a join takes the thread id from a register. */
  predicate OnGlobals(M: Model, instr: Instr) {
    match instr
    case Load(_, ptr, _) => PointsToGlobal(M, ptr)
    case Store(ptr, _, _) => PointsToGlobal(M, ptr)
    case CmpXchg(_, _, ptr, _, _) => PointsToGlobal(M, ptr)
    case ThreadCreate(ptr, _, _) => PointsToGlobal(M, ptr)
    case ThreadJoin(_, tid, resultPtr) => tid.Reg? && (resultPtr == Const(0) || PointsToGlobal(M, resultPtr))
    case _ => true
  }

  predicate AllOnGlobals(M: Model) {
    forall b, i {:trigger M.program.blocks[b][i]} :: 0 <= b < |M.program.blocks| && 0 <= i < |M.program.blocks[b]| ==>
      OnGlobals(M, M.program.blocks[b][i])
  }

  // ----- Groups of small blocks -----

  predicate LocalBetween(instrs: seq<Instr>, i: nat, e: nat) {
    forall k :: i <= k < e <= |instrs| ==> IsLocal(instrs[k]) && !instrs[k].Call?
  }

  predicate LocalFrom(instrs: seq<Instr>, i: nat) {
    LocalBetween(instrs, i, |instrs|)
  }

  lemma LocalIsCollapsable(instr: Instr)
    requires IsLocal(instr) && !instr.Call?
    ensures Ir.FrontCollapsable(OpcodeOf(instr), false) && Ir.RuntimeCollapsable(OpcodeOf(instr), false)
    ensures Ir.BackCollapsable(OpcodeOf(instr), false)
  {
  }

  lemma CreateIsMain(instr: Instr)
    requires instr.ThreadCreate?
    ensures OpcodeOf(instr).Call? && !Ir.FrontCollapsable(OpcodeOf(instr), false) && !Ir.RuntimeCollapsable(OpcodeOf(instr), false)
  {
  }

  lemma {:induction false} FrontTo(P: Program, b: nat, i: nat, c: nat)
    requires b < |P.blocks| && i <= c <= |P.blocks[b]| && LocalBetween(P.blocks[b], i, c)
    requires c < |P.blocks[b]| ==> P.blocks[b][c].ThreadCreate?
    ensures G.FrontEnd(Ops(P, b), false, i) == c
    decreases c - i
  {
    hide OpcodeOf;
    if i < c {
      LocalIsCollapsable(P.blocks[b][i]);
      FrontTo(P, b, i + 1, c);
    } else if c < |P.blocks[b]| {
      CreateIsMain(P.blocks[b][c]);
    }
  }

  /** The last group of a block that ends in local instructions. */
  lemma LocalGroupEnds(P: Program, b: nat, i: nat)
    requires Inside(P, b, i) && LocalFrom(P.blocks[b], i)
    ensures End(P, b, i) == |P.blocks[b]| && !Emits(P, b, i, |P.blocks[b]|)
  {
    FrontTo(P, b, i, |P.blocks[b]|);
    hide OpcodeOf;
    forall k | i <= k < |P.blocks[b]|
      ensures Ir.RuntimeCollapsable(OpcodeOf(P.blocks[b][k]), false)
    {
      LocalIsCollapsable(P.blocks[b][k]);
    }
  }

  /** A block with one pthread_create, at c: it ends the first of two groups. */
  lemma CreateBlock(P: Program, b: nat, c: nat)
    requires Inside(P, b, c + 1) && P.blocks[b][c].ThreadCreate? && LocalFrom(P.blocks[b], c + 1)
    requires LocalBetween(P.blocks[b], 0, c)
    ensures Head(P, b, 0) && End(P, b, 0) == c + 1 && Emits(P, b, 0, c + 1)
    ensures Head(P, b, c + 1) && End(P, b, c + 1) == |P.blocks[b]| && !Emits(P, b, c + 1, |P.blocks[b]|)
    ensures c > 0 ==> !Head(P, b, c)
  {
    FrontTo(P, b, 0, c);
    LocalGroupEnds(P, b, c + 1);
    CreateIsMain(P.blocks[b][c]);
    LocalIsCollapsable(P.blocks[b][c + 1]);
    hide OpcodeOf;
    assert End(P, b, 0) == c + 1;
    G.HeadAfterGroup(Ops(P, b), false, 0, 0);
    if c > 0 {
      G.NoHeadInsideGroup(Ops(P, b), false, 0, 0, c);
    }
  }

  // ----- Steps -----

  /** A group that emits, and then one that does not and leads to the next emitting one or to the end. */
  lemma TwoGroups(P: Program, s: State, p: nat, b: nat, c: nat)
    requires p < |s.procs| && s.procs[p].pc == At(b, 0) && Inside(P, b, c + 1)
    requires Head(P, b, 0) && End(P, b, 0) == c + 1 && Emits(P, b, 0, c + 1)
    requires Head(P, b, c + 1) && End(P, b, c + 1) == |P.blocks[b]| && !Emits(P, b, c + 1, |P.blocks[b]|)
    requires var r := ExecGroup(P, s, p, b, 0); r.Next? && r.s.procs[p].pc == At(b, c + 1)
    requires var r := ExecGroup(P, ExecGroup(P, s, p, b, 0).s, p, b, c + 1);
             r.Next? && r.events == [] && (r.s.procs[p].pc == Halted || r.s.procs[p].pc == At(b, 0))
    ensures Steps(P, s, p, ExecGroup(P, ExecGroup(P, s, p, b, 0).s, p, b, c + 1).s, ExecGroup(P, s, p, b, 0).events)
  {
    hide ExecGroup, Head, End, Emits;
    var r1 := ExecGroup(P, s, p, b, 0);
    var r2 := ExecGroup(P, r1.s, p, b, c + 1);
    assert Loop(P, r2.s, p, true, 0) == Report(r2.s, []);
    assert Loop(P, r1.s, p, true, 1) == Report(r2.s, []);
    assert r1.events + [] == r1.events;
    assert StepProcess(P, s, p, 2) == Report(r2.s, r1.events);
  }

  /** A block of local instructions that halts. */
  lemma OneGroup(P: Program, s: State, p: nat, b: nat)
    requires p < |s.procs| && s.procs[p].pc == At(b, 0) && Inside(P, b, 0) && LocalFrom(P.blocks[b], 0)
    requires var r := ExecGroup(P, s, p, b, 0); r.Next? && r.s.procs[p].pc == Halted
    ensures var r := ExecGroup(P, s, p, b, 0); Steps(P, s, p, r.s, r.events)
  {
    LocalGroupEnds(P, b, 0);
    hide ExecGroup, End, Emits;
    var r := ExecGroup(P, s, p, b, 0);
    assert r.events + [] == r.events;
    assert StepProcess(P, s, p, 1) == Report(r.s, r.events);
  }

  lemma {:induction false} RangeSplits(P: Program, s: State, p: nat, b: nat, i: nat, e: nat)
    requires p < |s.procs| && b < |P.blocks| && i < e <= |P.blocks[b]|
    ensures ExecRange(P, s, p, b, i, e)
            == match Exec(P, s, p, b, i)
               case Blocked => Blocked
               case Next(s1, ev1) =>
                 match ExecRange(P, s1, p, b, i + 1, e)
                 case Blocked => Blocked
                 case Next(s2, ev2) => Next(s2, ev1 + ev2)
  {
  }

  // ----- Runs up to main -----

  /** The start of a program without static constructors: the constructor phase is empty. */
  lemma MainStarts(M: Model) returns (s: State)
    requires M.constructors.None? && M.main.Some?
    ensures Reachable(M, 3, s, [MainStarted(0)])
    ensures s == StartFunction(InitialState(M), M.main).(status := RUNNING_MAIN)
  {
    var s0 := InitialState(M);
    var s1, s2 := s0.(status := RUNNING_CONSTRUCTORS), s0.(status := STARTING_MAIN);
    s := StartFunction(s0, M.main).(status := RUNNING_MAIN);
    HaltedTakesNoStep(M.program, s1);
    assert Successor(M, s0, s1, []) && Successor(M, s1, s2, []) && Successor(M, s2, s, [MainStarted(0)]);
    hide Successor;
    RunExtends(M, s0, 0, s0, [], s1, []);
    RunExtends(M, s0, 1, s1, [] + [], s2, []);
    RunExtends(M, s0, 2, s2, [] + [] + [], s, [MainStarted(0)]);
    assert [] + [] + [] + [MainStarted(0)] == [MainStarted(0)];
  }

  lemma HaltedTakesNoStep(P: Program, s: State)
    requires forall p :: 0 <= p < |s.procs| ==> s.procs[p].pc == Halted
    ensures NoneSteps(P, s)
  {
    forall p: nat | p < |s.procs|
      ensures CannotStep(P, s, p)
    {
      assert StepProcess(P, s, p, 0) == NoReport;
    }
  }

  lemma StepExtends(M: Model, n: nat, s: State, log: seq<Event>, p: nat, s': State, events: seq<Event>)
    requires Reachable(M, n, s, log) && Steps(M.program, s, p, s', events) && |s.procs| > 0
    requires s.status == RUNNING_CONSTRUCTORS || s.status == RUNNING_MAIN
    ensures Reachable(M, n + 1, s', log + events)
  {
    assert Successor(M, s, s', events) by { hide Steps, NoneSteps; }
    hide Successor;
    RunExtends(M, InitialState(M), n, s, log, s', events);
  }

  lemma SuccessorExtends(M: Model, n: nat, s: State, log: seq<Event>, s': State, events: seq<Event>)
    requires Reachable(M, n, s, log) && Successor(M, s, s', events)
    ensures Reachable(M, n + 1, s', log + events)
  {
    hide Successor;
    RunExtends(M, InitialState(M), n, s, log, s', events);
  }

  // ----- All slots taken -----

  /** main creates threads in a loop, each after a computation; the threads only have to exist. */
  function FillSlots(f: seq<int> -> int): Model {
    Model(Program([[Compute(0, f, []), ThreadCreate(Const(Global(0)), 1, Const(0)), Br(0)], [Ret(Ir.Some(Const(0)))]]),
          Ir.None, Ir.Some(0), map[], 64)
  }

  lemma FillSlotsBlocks(f: seq<int> -> int)
    ensures var P := FillSlots(f).program;
            && Head(P, 0, 0) && End(P, 0, 0) == 2 && Emits(P, 0, 0, 2) && !Head(P, 0, 1)
            && Head(P, 0, 2) && End(P, 0, 2) == 3 && !Emits(P, 0, 2, 3)
  {
    CreateBlock(FillSlots(f).program, 0, 1);
  }

  lemma FillSlotsIsValid(f: seq<int> -> int)
    ensures ValidModel(FillSlots(f)) && AllOnGlobals(FillSlots(f))
  {
  }

  /** The first k slots are taken, and main is at the start of its loop. */
  predicate Taken(s: State, k: nat) {
    && s.status == RUNNING_MAIN && 0 < k <= |s.procs| == MAX_THREADS
    && s.procs[0].pc == At(0, 0) && s.procs[0].stack == []
    && forall q :: 0 <= q < |s.procs| ==> (s.procs[q].pc != Halted <==> q < k)
  }

  lemma {:induction false} FirstFree(procs: seq<Proc>, i: nat, k: nat)
    requires i <= k <= |procs| && (forall q :: 0 <= q < |procs| ==> (procs[q].pc != Halted <==> q < k))
    ensures FreeSlot(procs, i) == if k < |procs| then Ir.Some(k) else Ir.None
    decreases k - i
  {
    if i < k {
      FirstFree(procs, i + 1, k);
    }
  }

  lemma FillGroup(f: seq<int> -> int, s: State, k: nat)
    requires Taken(s, k)
    ensures var r := ExecGroup(FillSlots(f).program, s, 0, 0, 0);
            && r.Next? && |r.s.procs| == |s.procs| && r.s.status == s.status && r.s.procs[0].stack == []
            && (forall q :: 0 < q < |s.procs| ==> (r.s.procs[q].pc != Halted <==> q <= k))
            && (if k < |s.procs| then r.s.procs[0].pc == At(0, 2)
                else r.s.procs[0].pc == At(0, 1) && r.events == [NoFreeSlot(0, 1)])
  {
    var P := FillSlots(f).program;
    FillSlotsBlocks(f);
    hide Head, End, Emits;
    var s0 := SetPc(s, 0, At(0, 2));
    var c := Exec(P, s0, 0, 0, 0);
    RangeSplits(P, s0, 0, 0, 0, 2);
    RangeSplits(P, c.s, 0, 0, 1, 2);
    assert c.events == [] && c.s.procs[0].pc == At(0, 2);
    FirstFree(c.s.procs, 0, k);
    hide FreeSlot;
    var d := Exec(P, c.s, 0, 0, 1);
    assert ExecRange(P, d.s, 0, 0, 2, 2) == Next(d.s, []);
    assert c.events + (d.events + []) == d.events;
  }

  lemma FillStep(f: seq<int> -> int, s: State, k: nat) returns (s': State, events: seq<Event>)
    requires Taken(s, k) && k < MAX_THREADS
    ensures Steps(FillSlots(f).program, s, 0, s', events) && Taken(s', k + 1)
  {
    var P := FillSlots(f).program;
    FillSlotsBlocks(f);
    FillGroup(f, s, k);
    var r := ExecGroup(P, s, 0, 0, 0);
    hide Head, Emits;
    BackToStart(f, r.s);
    var r2 := ExecGroup(P, r.s, 0, 0, 2);
    hide ExecGroup, End;
    TwoGroups(P, s, 0, 0, 1);
    s', events := r2.s, r.events;
  }

  lemma BackToStart(f: seq<int> -> int, s: State)
    requires |s.procs| == MAX_THREADS && s.procs[0].pc == At(0, 2)
    ensures var r := ExecGroup(FillSlots(f).program, s, 0, 0, 2);
            r.Next? && r.events == [] && r.s == SetPc(s, 0, At(0, 0))
  {
    var P := FillSlots(f).program;
    FillSlotsBlocks(f);
    hide Head, End, Emits;
    var s0 := SetPc(s, 0, Halted);
    RangeSplits(P, s0, 0, 0, 2, 3);
    var q := s0.procs[0];
    assert Branch(P, 0, 0, q) == q.(pc := At(0, 0));
    var c := Exec(P, s0, 0, 0, 2);
    assert c == Next(SetPc(s, 0, At(0, 0)), []);
    assert ExecRange(P, c.s, 0, 0, 3, 3) == Next(c.s, []);
  }

  lemma {:induction false} FillRun(f: seq<int> -> int, k: nat) returns (s: State, log: seq<Event>)
    requires 0 < k <= MAX_THREADS
    ensures Reachable(FillSlots(f), k + 2, s, log) && Taken(s, k)
  {
    hide Reachable, Steps;
    if k == 1 {
      s := MainStarts(FillSlots(f));
      log := [MainStarted(0)];
    } else {
      var s0, log0 := FillRun(f, k - 1);
      var events;
      s, events := FillStep(f, s0, k - 1);
      StepExtends(FillSlots(f), k + 1, s0, log0, 0, s, events);
      log := log0 + events;
    }
  }

  /**
   A run after which the default is taken: with all six slots taken, main's pthread_create fails behind
   the computation that opens its group.
   */
  lemma DefaultIsTaken(f: seq<int> -> int) returns (s: State, log: seq<Event>)
    ensures ValidModel(FillSlots(f)) && AllOnGlobals(FillSlots(f)) && Reachable(FillSlots(f), 8, s, log)
    ensures StepProcess(FillSlots(f).program, s, 0, 1) == NoSuchPc([NoFreeSlot(0, 1)])
  {
    s, log := FillRun(f, MAX_THREADS);
    FillSlotsIsValid(f);
    FillSlotsBlocks(f);
    FillGroup(f, s, MAX_THREADS);
    hide ExecGroup, Head, End, Emits;
    var r := ExecGroup(FillSlots(f).program, s, 0, 0, 0);
    assert Loop(FillSlots(f).program, r.s, 0, true, 0) == NoSuchPc([]);
    assert r.events + [] == r.events;
  }

  // ----- main with the id of another thread -----

  /**
   The static constructor (block 0) creates a thread and returns; that thread (block 1) creates another
   one, which gets the vacated slot 0 and returns v (block 2); main is block 3.
   */
  function BorrowId(v: int, main: seq<seq<Instr>>): Model {
    Model(Program([[ThreadCreate(Const(Global(0)), 1, Const(0)), Ret(Ir.None)],
                   [ThreadCreate(Const(Global(1)), 2, Const(0)), Ret(Ir.None)],
                   [Ret(Ir.Some(Const(v)))]] + main),
          Ir.Some(0), Ir.Some(3), map[], 64)
  }

  lemma BorrowIdBlocks(v: int, main: seq<seq<Instr>>)
    ensures var M := BorrowId(v, main);
            && |M.program.blocks| == 3 + |main| && M.main == Ir.Some(3) && M.constructors == Ir.Some(0)
            && M.program.blocks[0] == [ThreadCreate(Const(Global(0)), 1, Const(0)), Ret(Ir.None)]
            && M.program.blocks[1] == [ThreadCreate(Const(Global(1)), 2, Const(0)), Ret(Ir.None)]
            && M.program.blocks[2] == [Ret(Ir.Some(Const(v)))]
            && forall k :: 0 <= k < |main| ==> M.program.blocks[3 + k] == main[k]
  {
  }

  /** Process p creates a thread in the first free slot and halts. */
  lemma CreateAndHalt(P: Program, s: State, p: nat, b: nat, slot: nat) returns (s': State)
    requires p < |s.procs| && s.procs[p].pc == At(b, 0) && s.procs[p].stack == [] && b < |P.blocks| && |P.blocks[b]| == 2
    requires P.blocks[b][0].ThreadCreate? && P.blocks[b][1] == Ret(Ir.None)
    requires FreeSlot(s.procs, 0) == Ir.Some(slot) && slot != p
    ensures var tid := (s.threadsStarted + 1) % TWO32;
            && Steps(P, s, p, s', [Created(tid)])
            && s'.status == s.status && s'.threadsStarted == tid && s'.tres == s.tres && |s'.procs| == |s.procs|
            && s'.mem == s.mem[Eval(s.procs[p].regs, P.blocks[b][0].ptr) := tid]
            && s'.procs[p].pc == Halted && s'.procs[p].tid == s.procs[p].tid && s'.procs[p].stack == []
            && s'.procs[slot].pc == At(P.blocks[b][0].entry, 0) && s'.procs[slot].tid == tid && s'.procs[slot].stack == []
            && forall q :: 0 <= q < |s.procs| && q != p && q != slot ==> s'.procs[q] == s.procs[q]
  {
    CreateAndRetBlock(P, b);
    hide *;
    CreateGroup(P, s, p, b, slot);
    var c := ExecGroup(P, s, p, b, 0).s;
    HaltGroup(P, c, p, b);
    TwoGroups(P, s, p, b, 0);
    s' := ExecGroup(P, c, p, b, 1).s;
  }

  lemma CreateAndRetBlock(P: Program, b: nat)
    requires b < |P.blocks| && |P.blocks[b]| == 2 && P.blocks[b][0].ThreadCreate? && P.blocks[b][1] == Ret(Ir.None)
    ensures Inside(P, b, 0) && Inside(P, b, 1)
    ensures Head(P, b, 0) && End(P, b, 0) == 1 && Emits(P, b, 0, 1)
    ensures Head(P, b, 1) && End(P, b, 1) == 2 && !Emits(P, b, 1, 2)
  {
    CreateBlock(P, b, 0);
  }

  /** The group of the pthread_create alone. */
  lemma CreateGroup(P: Program, s: State, p: nat, b: nat, slot: nat)
    requires p < |s.procs| && s.procs[p].pc == At(b, 0) && s.procs[p].stack == [] && b < |P.blocks| && |P.blocks[b]| == 2
    requires P.blocks[b][0].ThreadCreate? && P.blocks[b][1] == Ret(Ir.None)
    requires FreeSlot(s.procs, 0) == Ir.Some(slot) && slot != p
    ensures var r := ExecGroup(P, s, p, b, 0);
            var tid := (s.threadsStarted + 1) % TWO32;
            && r.Next? && r.events == [Created(tid)]
            && r.s.status == s.status && r.s.threadsStarted == tid && r.s.tres == s.tres && |r.s.procs| == |s.procs|
            && r.s.mem == s.mem[Eval(s.procs[p].regs, P.blocks[b][0].ptr) := tid]
            && r.s.procs[p] == s.procs[p].(pc := At(b, 1))
            && r.s.procs[slot].pc == At(P.blocks[b][0].entry, 0) && r.s.procs[slot].tid == tid && r.s.procs[slot].stack == []
            && forall q :: 0 <= q < |s.procs| && q != p && q != slot ==> r.s.procs[q] == s.procs[q]
  {
    CreateBlock(P, b, 0);
    hide Head, Emits, End;
    var s0 := SetPc(s, p, At(b, 1));
    SameFree(s.procs, s0.procs, 0);
    hide FreeSlot;
    var c := Exec(P, s0, p, b, 0);
    RangeSplits(P, s0, p, b, 0, 1);
    EmptyRange(P, c.s, p, b, 1);
    hide ExecRange;
    assert c.events + [] == c.events;
    assert ExecGroup(P, s, p, b, 0) == c;
  }

  /** The group of the return. */
  lemma HaltGroup(P: Program, s: State, p: nat, b: nat)
    requires p < |s.procs| && s.procs[p].stack == [] && b < |P.blocks| && |P.blocks[b]| == 2
    requires P.blocks[b][0].ThreadCreate? && P.blocks[b][1] == Ret(Ir.None)
    ensures var r := ExecGroup(P, s, p, b, 1);
            && r.Next? && r.events == []
            && r.s == s.(procs := s.procs[p := s.procs[p].(pc := Halted, regs := map[])])
  {
    CreateBlock(P, b, 0);
    hide Head, Emits, End;
    var s1 := SetPc(s, p, Halted);
    RangeSplits(P, s1, p, b, 1, 2);
    var d := Exec(P, s1, p, b, 1);
    EmptyRange(P, d.s, p, b, 2);
    hide ExecRange;
    assert d.events + [] == [];
    assert ExecGroup(P, s, p, b, 1) == d;
  }

  lemma {:induction false} SameFree(procs: seq<Proc>, procs': seq<Proc>, i: nat)
    requires i <= |procs| == |procs'|
    requires forall q :: 0 <= q < |procs| ==> (procs[q].pc == Halted <==> procs'[q].pc == Halted)
    ensures FreeSlot(procs, i) == FreeSlot(procs', i)
    decreases |procs| - i
  {
    if i < |procs| {
      SameFree(procs, procs', i + 1);
    }
  }

  /** A thread that only returns a value. */
  lemma ReturnValue(P: Program, s: State, p: nat, b: nat, v: int) returns (s': State)
    requires p < |s.procs| && s.procs[p].pc == At(b, 0) && s.procs[p].stack == [] && b < |P.blocks|
    requires P.blocks[b] == [Ret(Ir.Some(Const(v)))]
    ensures Steps(P, s, p, s', [Returned(s.procs[p].tid, v)])
    ensures s'.tres == s.tres[s.procs[p].tid := ThreadResult(s.procs[p].tid, v)]
    ensures s'.status == s.status && s'.threadsStarted == s.threadsStarted && s'.mem == s.mem
    ensures |s'.procs| == |s.procs| && s'.procs[p].pc == Halted && s'.procs[p].tid == s.procs[p].tid
    ensures s'.procs[p].regs == map[] && s'.procs[p].stack == []
    ensures forall q :: 0 <= q < |s.procs| && q != p ==> s'.procs[q] == s.procs[q]
  {
    LocalGroupEnds(P, b, 0);
    var s0 := SetPc(s, p, Halted);
    RangeSplits(P, s0, p, b, 0, 1);
    var d := Exec(P, s0, p, b, 0);
    assert ExecRange(P, d.s, p, b, 1, 1) == Next(d.s, []);
    assert d.events + [] == d.events;
    assert ExecGroup(P, s, p, b, 0) == d;
    OneGroup(P, s, p, b);
    s' := d.s;
  }

  /** The first two globals are the ids of the threads created. */
  function IdsStored(): map<int, int> { map[Global(0) := 2, Global(1) := 3] }

  /** All processes except p are as they were at the start. */
  predicate OthersIdle(s: State, p: nat) {
    forall q :: 0 <= q < |s.procs| && q != p ==> s.procs[q].pc == Halted && s.procs[q].tid == 0 && s.procs[q].stack == []
  }

  lemma ConstructorStarts(v: int, main: seq<seq<Instr>>) returns (s: State)
    ensures Reachable(BorrowId(v, main), 1, s, [])
    ensures s.status == RUNNING_CONSTRUCTORS && |s.procs| == MAX_THREADS && s.threadsStarted == 1 && s.tres == map[] && s.mem == map[]
    ensures s.procs[0].pc == At(0, 0) && s.procs[0].tid == 0 && s.procs[0].stack == [] && OthersIdle(s, 0)
  {
    var M := BorrowId(v, main);
    var s0 := InitialState(M);
    s := StartFunction(s0, M.constructors).(status := RUNNING_CONSTRUCTORS);
    assert Successor(M, s0, s, []) by { hide Steps, NoneSteps; }
    hide Successor, BorrowId;
    SuccessorExtends(M, 0, s0, [], s, []);
  }

  lemma ConstructorCreates(v: int, main: seq<seq<Instr>>) returns (s: State)
    ensures Reachable(BorrowId(v, main), 2, s, [Created(2)])
    ensures s.status == RUNNING_CONSTRUCTORS && |s.procs| == MAX_THREADS && s.threadsStarted == 2 && s.tres == map[] && s.mem == map[Global(0) := 2]
    ensures s.procs[1].pc == At(1, 0) && s.procs[1].stack == [] && OthersIdle(s, 1)
  {
    var s0 := ConstructorStarts(v, main);
    BorrowIdBlocks(v, main);
    hide Reachable, Steps, BorrowId;
    FirstFree(s0.procs, 0, 1);
    hide FreeSlot;
    s := CreateAndHalt(BorrowId(v, main).program, s0, 0, 0, 1);
    StepExtends(BorrowId(v, main), 1, s0, [], 0, s, [Created(2)]);
    assert [] + [Created(2)] == [Created(2)];
  }

  lemma ThreadCreates(v: int, main: seq<seq<Instr>>) returns (s: State)
    ensures Reachable(BorrowId(v, main), 3, s, [Created(2), Created(3)])
    ensures s.status == RUNNING_CONSTRUCTORS && |s.procs| == MAX_THREADS && s.tres == map[]
    ensures s.threadsStarted == 3 && s.mem == IdsStored()
    ensures s.procs[0].pc == At(2, 0) && s.procs[0].tid == 3
    ensures forall q :: 0 < q < |s.procs| ==> s.procs[q].pc == Halted
    ensures forall q :: 0 <= q < |s.procs| ==> s.procs[q].stack == []
  {
    var M := BorrowId(v, main);
    var s0 := ConstructorCreates(v, main);
    BorrowIdBlocks(v, main);
    hide Reachable, Steps, BorrowId;
    assert FreeSlot(s0.procs, 0) == Ir.Some(0);
    hide FreeSlot;
    s := CreateAndHalt(M.program, s0, 1, 1, 0);
    StepExtends(M, 2, s0, [Created(2)], 1, s, [Created(3)]);
    assert [Created(2)] + [Created(3)] == [Created(2), Created(3)];
  }

  /** The constructor phase ends with an ended thread 3 in slot 0 and its result stored. */
  lemma ConstructorPhase(v: int, main: seq<seq<Instr>>) returns (s: State)
    ensures Reachable(BorrowId(v, main), 4, s, [Created(2), Created(3), Returned(3, v)])
    ensures s.status == RUNNING_CONSTRUCTORS && |s.procs| == MAX_THREADS && s.procs[0].tid == 3
    ensures s.threadsStarted == 3 && s.mem == IdsStored() && s.procs[0].regs == map[]
    ensures forall q :: 0 <= q < |s.procs| ==> s.procs[q].stack == []
    ensures s.tres == map[3 := ThreadResult(3, v)] && forall q :: 0 <= q < |s.procs| ==> s.procs[q].pc == Halted
  {
    var s0 := ThreadCreates(v, main);
    BorrowIdBlocks(v, main);
    hide Reachable, Steps, BorrowId;
    s := ReturnValue(BorrowId(v, main).program, s0, 0, 2, v);
    StepExtends(BorrowId(v, main), 3, s0, [Created(2), Created(3)], 0, s, [Returned(3, v)]);
    assert [Created(2), Created(3)] + [Returned(3, v)] == [Created(2), Created(3), Returned(3, v)];
  }

  lemma MainPhase(v: int, main: seq<seq<Instr>>) returns (s: State)
    ensures Reachable(BorrowId(v, main), 6, s, [Created(2), Created(3), Returned(3, v), MainStarted(3)])
    ensures s.status == RUNNING_MAIN && |s.procs| == MAX_THREADS && s.tres == map[3 := ThreadResult(3, v)]
    ensures s.procs[0].pc == At(3, 0) && s.procs[0].tid == 3 && s.procs[0].regs == map[]
    ensures forall q :: 0 <= q < |s.procs| ==> s.procs[q].stack == []
    ensures s.threadsStarted == 3 && s.mem == IdsStored() && forall q :: 0 < q < |s.procs| ==> s.procs[q].pc == Halted
  {
    var M := BorrowId(v, main);
    var log := [Created(2), Created(3), Returned(3, v)];
    var s0 := ConstructorPhase(v, main);
    HaltedTakesNoStep(M.program, s0);
    var s1 := s0.(status := STARTING_MAIN);
    s := StartFunction(s1, M.main).(status := RUNNING_MAIN);
    hide Reachable, Steps, NoneSteps;
    assert Successor(M, s0, s1, []) && Successor(M, s1, s, [MainStarted(3)]);
    hide Successor;
    SuccessorExtends(M, 4, s0, log, s1, []);
    SuccessorExtends(M, 5, s1, log + [], s, [MainStarted(3)]);
    assert log + [] + [MainStarted(3)] == [Created(2), Created(3), Returned(3, v), MainStarted(3)];
  }

  function ReturnsOnly(w: int): seq<seq<Instr>> { [[Ret(Ir.Some(Const(w)))]] }

  lemma BorrowIdIsValid(v: int, w: int)
    ensures ValidModel(BorrowId(v, ReturnsOnly(w))) && AllOnGlobals(BorrowId(v, ReturnsOnly(w)))
  {
    BorrowIdBlocks(v, ReturnsOnly(w));
  }

  /**
   A run in which main starts with the id of thread 3, which has returned v; main's own return then
   replaces that result, and a join on 3 reads w.
   */
  lemma MainBorrowsId(v: int, w: int) returns (s: State, s': State)
    ensures ValidModel(BorrowId(v, ReturnsOnly(w))) && AllOnGlobals(BorrowId(v, ReturnsOnly(w)))
    ensures Reachable(BorrowId(v, ReturnsOnly(w)), 6, s, [Created(2), Created(3), Returned(3, v), MainStarted(3)])
    ensures ReadResult(s.tres, 3) == ThreadResult(3, v)
    ensures Reachable(BorrowId(v, ReturnsOnly(w)), 7, s', [Created(2), Created(3), Returned(3, v), MainStarted(3), Returned(3, w)])
    ensures ReadResult(s'.tres, 3) == ThreadResult(3, w)
  {
    s := MainPhase(v, ReturnsOnly(w));
    BorrowIdIsValid(v, w);
    hide Reachable, Steps;
    s' := ReturnValue(BorrowId(v, ReturnsOnly(w)).program, s, 0, 3, w);
    var log := [Created(2), Created(3), Returned(3, v), MainStarted(3)];
    StepExtends(BorrowId(v, ReturnsOnly(w)), 6, s, log, 0, s', [Returned(3, w)]);
    assert log + [Returned(3, w)] == [Created(2), Created(3), Returned(3, v), MainStarted(3), Returned(3, w)];
  }

  // ----- A memory size that wraps -----

  const TWO31: nat := 0x8000_0000

  /** main allocates 2^31 bytes twice, and then some more. */
  function WrapSize(size: nat): Model {
    Model(Program([[Malloc(0, Const(TWO31)), Malloc(1, Const(TWO31)), Malloc(2, Const(size)), Ret(Ir.None)]]),
          Ir.None, Ir.Some(0), map[], 0)
  }

  /** Running a malloc of a constant and then the rest of the block. */
  lemma MallocThen(P: Program, s: State, i: nat, dst: nat, size: nat)
    requires |s.procs| > 0 && Inside(P, 0, i) && P.blocks[0][i] == Malloc(dst, Const(size)) && size < TWO64
    ensures var q := s.procs[0];
            var s1 := s.(procs := s.procs[0 := Allocate(0, q, dst, size).proc]);
            var r := ExecRange(P, s1, 0, 0, i + 1, |P.blocks[0]|);
            ExecRange(P, s, 0, 0, i, |P.blocks[0]|)
            == if r.Next? then Next(r.s, [Allocated(0, q.msize, size)] + r.events) else r
  {
    RangeSplits(P, s, 0, 0, i, |P.blocks[0]|);
    hide ExecRange, Allocate;
    assert Exec(P, s, 0, 0, i).Next?;
    assert Exec(P, s, 0, 0, i).s == s.(procs := s.procs[0 := Allocate(0, s.procs[0], dst, size).proc]);
    assert Exec(P, s, 0, 0, i).events == Allocate(0, s.procs[0], dst, size).events;
    assert Allocate(0, s.procs[0], dst, size).events == [Allocated(0, s.procs[0].msize, size)] by { AllocateEvent(s.procs[0], dst, size); }
  }

  lemma AllocateEvent(q: Proc, dst: nat, size: nat)
    ensures Allocate(0, q, dst, size).events == [Allocated(0, q.msize, size)]
    ensures Allocate(0, q, dst, size).proc.stack == q.stack
    ensures Allocate(0, q, dst, size).proc.msize == (q.msize + size % TWO32) % TWO32
  {
  }

  lemma ReturnLast(P: Program, s: State, i: nat)
    requires |s.procs| > 0 && Inside(P, 0, i) && i + 1 == |P.blocks[0]| && P.blocks[0][i] == Ret(Ir.None) && s.procs[0].stack == []
    ensures var r := ExecRange(P, s, 0, 0, i, |P.blocks[0]|);
            r.Next? && r.events == [] && |r.s.procs| == |s.procs| && r.s.procs[0].pc == Halted
  {
    var d := Exec(P, s, 0, 0, i);
    assert d.Next? && d.events == [] && d.s.procs[0].pc == Halted;
    assert ExecRange(P, d.s, 0, 0, i + 1, |P.blocks[0]|) == Next(d.s, []);
  }

  lemma WrapNumbers()
    ensures TWO31 < TWO64 && (0 + TWO31 % TWO32) % TWO32 == TWO31 && (TWO31 + TWO31 % TWO32) % TWO32 == 0
  {
  }

  /** The rest of the block after two mallocs, and after one. */
  lemma WrapThird(size: nat, s: State) returns (s': State)
    requires 0 < size < TWO64 && |s.procs| > 0 && s.procs[0].msize == 0 && s.procs[0].stack == []
    ensures |s'.procs| == |s.procs| && s'.procs[0].pc == Halted
    ensures ExecRange(WrapSize(size).program, s, 0, 0, 2, 4) == Next(s', [Allocated(0, 0, size)])
  {
    var P := WrapSize(size).program;
    hide *;
    WrapBlock(size);
    AllocateEvent(s.procs[0], 2, size);
    var q := Allocate(0, s.procs[0], 2, size).proc;
    MallocThen(P, s, 2, 2, size);
    var s1 := s.(procs := s.procs[0 := q]);
    ReturnLast(P, s1, 3);
    s' := ExecRange(P, s1, 0, 0, 3, 4).s;
  }

  lemma WrapSecond(size: nat, s: State) returns (s': State)
    requires 0 < size < TWO64 && |s.procs| > 0 && s.procs[0].msize == TWO31 && s.procs[0].stack == []
    ensures |s'.procs| == |s.procs| && s'.procs[0].pc == Halted
    ensures ExecRange(WrapSize(size).program, s, 0, 0, 1, 4) == Next(s', [Allocated(0, TWO31, TWO31), Allocated(0, 0, size)])
  {
    var P := WrapSize(size).program;
    hide *;
    WrapBlock(size);
    WrapNumbers();
    AllocateEvent(s.procs[0], 1, TWO31);
    var q := Allocate(0, s.procs[0], 1, TWO31).proc;
    MallocThen(P, s, 1, 1, TWO31);
    s' := WrapThird(size, s.(procs := s.procs[0 := q]));
  }

  lemma WrapGroup(size: nat, s: State) returns (s': State)
    requires 0 < size < TWO64 && |s.procs| > 0 && s.procs[0].msize == 0 && s.procs[0].stack == []
    ensures |s'.procs| == |s.procs| && s'.procs[0].pc == Halted
    ensures ExecRange(WrapSize(size).program, s, 0, 0, 0, 4)
            == Next(s', [Allocated(0, 0, TWO31), Allocated(0, TWO31, TWO31), Allocated(0, 0, size)])
  {
    var P := WrapSize(size).program;
    hide *;
    WrapBlock(size);
    WrapNumbers();
    AllocateEvent(s.procs[0], 0, TWO31);
    var q := Allocate(0, s.procs[0], 0, TWO31).proc;
    MallocThen(P, s, 0, 0, TWO31);
    s' := WrapSecond(size, s.(procs := s.procs[0 := q]));
  }

  lemma WholeBlock(P: Program, s: State, p: nat, b: nat)
    requires p < |s.procs| && Inside(P, b, 0) && LocalFrom(P.blocks[b], 0)
    ensures ExecGroup(P, s, p, b, 0) == ExecRange(P, SetPc(s, p, Halted), p, b, 0, |P.blocks[b]|)
  {
    LocalGroupEnds(P, b, 0);
    hide ExecRange, End;
  }

  lemma WrapBlock(size: nat)
    ensures var P := WrapSize(size).program;
            && Inside(P, 0, 0) && Inside(P, 0, 1) && Inside(P, 0, 2) && Inside(P, 0, 3)
            && P.blocks[0] == [Malloc(0, Const(TWO31)), Malloc(1, Const(TWO31)), Malloc(2, Const(size)), Ret(Ir.None)]
            && LocalFrom(P.blocks[0], 0)
  {
  }

  /** A run in which the third block starts where the first one does. */
  lemma WrapAllocatesTwice(size: nat) returns (s: State)
    requires 0 < size < TWO64
    ensures Reachable(WrapSize(size), 4, s,
                      [MainStarted(0), Allocated(0, 0, TWO31), Allocated(0, TWO31, TWO31), Allocated(0, 0, size)])
  {
    hide *;
    var M := WrapSize(size);
    var s0 := WrapStarts(size);
    WrapBlock(size);
    s := WrapGroup(size, SetPc(s0, 0, Halted));
    var events := [Allocated(0, 0, TWO31), Allocated(0, TWO31, TWO31), Allocated(0, 0, size)];
    WholeBlock(M.program, s0, 0, 0);
    OneGroup(M.program, s0, 0, 0);
    StepExtends(M, 3, s0, [MainStarted(0)], 0, s, events);
    assert [MainStarted(0)] + events
           == [MainStarted(0), Allocated(0, 0, TWO31), Allocated(0, TWO31, TWO31), Allocated(0, 0, size)];
  }

  lemma WrapStarts(size: nat) returns (s: State)
    ensures Reachable(WrapSize(size), 3, s, [MainStarted(0)]) && s.status == RUNNING_MAIN && |s.procs| > 0
    ensures s.procs[0].pc == At(0, 0)
    ensures var s0 := SetPc(s, 0, Halted); |s0.procs| == |s.procs| && s0.procs[0].msize == 0 && s0.procs[0].stack == []
  {
    s := MainStarts(WrapSize(size));
    hide Reachable;
  }

  /** So its blocks are not disjoint. */
  lemma WrapBlocksOverlap(size: nat) returns (s: State, log: seq<Event>)
    requires 0 < size < TWO64
    ensures Reachable(WrapSize(size), 4, s, log) && !A.AllDisjoint(WrapSize(size).globalsSize, log)
  {
    s := WrapAllocatesTwice(size);
    hide Reachable;
    log := [MainStarted(0), Allocated(0, 0, TWO31), Allocated(0, TWO31, TWO31), Allocated(0, 0, size)];
    var a := MakePointer(0, 0);
    assert A.Block(log, 1) && A.InBlock(log[1], a) && A.Block(log, 3) && A.InBlock(log[3], a);
    assert !A.OwnAddress(WrapSize(size).globalsSize, log, 1, a);
  }
}
