/**
 Why threads may not join each other while main runs with the id of a thread that had returned: a reachable
 state of a concrete program from which merged stepping loses an outcome. The program is well-formed and no
 group of it accesses memory twice.
 */
module LateReturns {
  import Ir
  import G = Grouping
  import opened Machine
  import opened GlobalStatus
  import ThreadIds
  import opened Reduction
  import opened Regions
  import RunningIds
  import C = Counterexamples
  import L = LostOutcomes

  /**
   main (block 3) creates a thread and then writes 1 to the global x and returns w (block 4). The thread
   takes the id that main has from the second global, copies x to y and then joins that id, whose thread
   returned v, into the result (block 5).
   */
  function MainAndThread(w: int): seq<seq<Instr>> {
    [[ThreadCreate(Const(Id4()), 5, Const(0)), Br(4)],
     [Store(Const(X()), Const(1), false), Ret(Ir.Some(Const(w)))],
     [Load(2, Const(Id3()), false), Load(0, Const(X()), false), Store(Const(Y()), Reg(0), false),
      ThreadJoin(1, Reg(2), Const(Res())), Ret(Ir.None)]]
  }

  function Id3(): int { C.Global(1) }
  function Id4(): int { C.Global(2) }
  function X(): int { C.Global(3) }
  function Y(): int { C.Global(4) }
  function Res(): int { C.Global(5) }

  lemma Addresses()
    ensures Id3() < Id4() < X() < Y() < Res() && Id3() > 0
  {
  }

  function LateReturnModel(v: int, w: int): Model { C.BorrowId(v, MainAndThread(w)) }

  function LateReturn(v: int, w: int): Program { LateReturnModel(v, w).program }

  // ----- Groups -----

  lemma LateReturnBlocks(v: int, w: int)
    ensures var P := LateReturn(v, w);
            && |P.blocks| == 6 && |P.blocks[3]| == 2 && |P.blocks[4]| == 2 && |P.blocks[5]| == 5
            && P.blocks[0] == [ThreadCreate(Const(C.Global(0)), 1, Const(0)), Ret(Ir.None)]
            && P.blocks[1] == [ThreadCreate(Const(C.Global(1)), 2, Const(0)), Ret(Ir.None)] && P.blocks[2] == [Ret(Ir.Some(Const(v)))]
            && P.blocks[3][0] == ThreadCreate(Const(Id4()), 5, Const(0)) && P.blocks[3][1] == Br(4)
            && P.blocks[4][0] == Store(Const(X()), Const(1), false) && P.blocks[4][1] == Ret(Ir.Some(Const(w)))
            && P.blocks[5][0] == Load(2, Const(Id3()), false) && P.blocks[5][1] == Load(0, Const(X()), false) && P.blocks[5][2] == Store(Const(Y()), Reg(0), false)
            && P.blocks[5][3] == ThreadJoin(1, Reg(2), Const(Res())) && P.blocks[5][4] == Ret(Ir.None)
  {
  }

  /** A join and a return that end their block. */
  lemma JoinThenReturn(P: Program, b: nat, i: nat)
    requires Head(P, b, i) && Inside(P, b, i + 1) && i + 2 == |P.blocks[b]|
    requires P.blocks[b][i].ThreadJoin? && P.blocks[b][i + 1].Ret?
    ensures L.IsGroup(P, b, i, i + 2, true)
  {
    var ops := Ops(P, b);
    L.JoinFlags(P.blocks[b][i]);
    ReturnIsFront(P.blocks[b][i + 1]);
    hide OpcodeOf, Ir.FrontCollapsable, Ir.RuntimeCollapsable;
    var main := G.GroupShape(ops, false, i);
    assert main == |ops|;
  }

  lemma ReturnIsFront(instr: Instr)
    requires instr.Ret?
    ensures Ir.FrontCollapsable(OpcodeOf(instr), false)
  {
  }

  lemma LateReturnGroups(v: int, w: int)
    ensures var P := LateReturn(v, w);
            && L.IsGroup(P, 3, 0, 1, true) && Head(P, 3, 1) && L.IsGroup(P, 4, 0, 2, true)
            && L.IsGroup(P, 5, 0, 1, true) && L.IsGroup(P, 5, 1, 2, true)
            && L.IsGroup(P, 5, 2, 3, true) && L.IsGroup(P, 5, 3, 5, true)
  {
    var P := LateReturn(v, w);
    LateReturnBlocks(v, w);
    hide Head, End, Emits, LateReturn, L.IsGroup;
    L.BlockStart(P, 3);
    L.BlockStart(P, 4);
    L.BlockStart(P, 5);
    L.AroundMain(P, 3, 0, 0, 1);
    L.AroundMain(P, 4, 0, 0, 2);
    L.AroundMain(P, 5, 0, 0, 1);
    L.AroundMain(P, 5, 1, 1, 2);
    L.AroundMain(P, 5, 2, 2, 3);
    JoinThenReturn(P, 5, 3);
  }

  // ----- main and one thread -----

  /** main runs with id 3, the thread with id 4, and no other process does. */
  predicate Base(s: State) {
    && |s.procs| == 6 && s.status == RUNNING_MAIN && s.procs[0].tid == 3 && s.procs[0].stack == []
    && s.procs[1].tid == 4 && s.procs[1].stack == [] && forall q :: 2 <= q < 6 ==> s.procs[q].pc == Halted && s.procs[q].stack == []
  }

  /** main is at pc0, the thread at pc1, and the result of id 3 is x. */
  function Race(base: State, pc0: Pc, pc1: Pc, r: Registers, mem: map<int, int>, x: int): (s: State)
    requires Base(base)
    ensures |s.procs| == 6 && s.procs[0].pc == pc0 && s.procs[1].pc == pc1
    ensures forall q :: 2 <= q < 6 ==> s.procs[q].pc == Halted
  {
    base.(procs := base.procs[0 := base.procs[0].(pc := pc0, regs := map[])][1 := base.procs[1].(pc := pc1, regs := r)],
          mem := mem, tres := map[3 := ThreadResult(3, x)])
  }

  lemma RaceParts(base: State, pc0: Pc, pc1: Pc, r: Registers, mem: map<int, int>, x: int)
    requires Base(base)
    ensures var s := Race(base, pc0, pc1, r, mem, x);
            && s.procs[0].regs == map[] && s.procs[0].tid == 3 && s.procs[0].stack == [] && s.procs[1].regs == r
            && s.procs[1].stack == [] && s.mem == mem && s.tres == map[3 := ThreadResult(3, x)]
            && (forall mem' :: s.(mem := mem') == Race(base, pc0, pc1, r, mem', x))
            && (forall pc :: SetPc(s, 0, pc) == Race(base, pc, pc1, r, mem, x))
            && (forall pc :: SetPc(s, 1, pc) == Race(base, pc0, pc, r, mem, x))
  {
  }

  lemma RaceChanges(base: State, pc0: Pc, pc1: Pc, r: Registers, mem: map<int, int>, x: int)
    requires Base(base)
    ensures var s := Race(base, pc0, pc1, r, mem, x);
            && (forall y :: s.(procs := s.procs[0 := s.procs[0].(pc := Halted, regs := map[])], tres := s.tres[3 := ThreadResult(3, y)])
                            == Race(base, Halted, pc1, r, mem, y))
            && (forall mem' :: L.Changed(s, 0, map[], mem') == Race(base, pc0, pc1, r, mem', x))
            && (forall r', mem' :: L.Changed(s, 1, r', mem') == Race(base, pc0, pc1, r', mem', x))
            && s.(procs := s.procs[1 := s.procs[1].(pc := Halted, regs := map[])]) == Race(base, pc0, Halted, map[], mem, x)
  {
  }

  lemma StoreConstExec(P: Program, s: State, p: nat, b: nat, i: nat, a: int, value: int)
    requires p < |s.procs| && Inside(P, b, i) && P.blocks[b][i] == Store(Const(a), Const(value), false)
    ensures Exec(P, s, p, b, i) == Next(L.Changed(s, p, s.procs[p].regs, s.mem[a := value]), [])
  {
  }

  /** One instruction of main. */
  lemma MainExec(v: int, w: int, base: State, pc0: Pc, pc1: Pc, r: Registers, mem: map<int, int>, x: int)
    requires Base(base)
    ensures var P, s := LateReturn(v, w), Race(base, pc0, pc1, r, mem, x);
            && Inside(P, 4, 0) && Inside(P, 4, 1)
            && Exec(P, s, 0, 4, 0) == Next(Race(base, pc0, pc1, r, mem[X() := 1], x), [])
            && Exec(P, s, 0, 4, 1) == Next(Race(base, Halted, pc1, r, mem, w), [Returned(3, w)])
  {
    var P, s := LateReturn(v, w), Race(base, pc0, pc1, r, mem, x);
    LateReturnBlocks(v, w);
    RaceParts(base, pc0, pc1, r, mem, x);
    RaceChanges(base, pc0, pc1, r, mem, x);
    Addresses();
    hide Id3, Id4, X, Y, Res, LateReturn, Race, Exec, Base, L.Changed;
    StoreConstExec(P, s, 0, 4, 0, X(), 1);
    L.RetValueExec(P, s, 0, 4, 1, w);
  }

  lemma ThreadMemory(v: int, w: int, base: State, pc0: Pc, pc1: Pc, r: Registers, mem: map<int, int>, x: int)
    requires Base(base)
    ensures var P, s := LateReturn(v, w), Race(base, pc0, pc1, r, mem, x);
            && Inside(P, 5, 0) && Inside(P, 5, 1) && Inside(P, 5, 2)
            && Exec(P, s, 1, 5, 0) == Next(Race(base, pc0, pc1, r[2 := ReadCell(mem, Id3())], mem, x), [])
            && Exec(P, s, 1, 5, 1) == Next(Race(base, pc0, pc1, r[0 := ReadCell(mem, X())], mem, x), [])
            && Exec(P, s, 1, 5, 2) == Next(Race(base, pc0, pc1, r, mem[Y() := Get(r, 0)], x), [])
  {
    var P, s := LateReturn(v, w), Race(base, pc0, pc1, r, mem, x);
    LateReturnBlocks(v, w);
    Addresses();
    hide Id3, Id4, X, Y, Res, LateReturn, Race, Exec, Base, L.Changed, ReadCell, Get;
    RaceParts(base, pc0, pc1, r, mem, x);
    RaceChanges(base, pc0, pc1, r, mem, x);
    L.LoadExec(P, s, 1, 5, 0, 2, Id3());
    L.LoadExec(P, s, 1, 5, 1, 0, X());
    L.StoreExec(P, s, 1, 5, 2, Y(), 0);
  }

  lemma ThreadEnd(v: int, w: int, base: State, pc0: Pc, pc1: Pc, r: Registers, mem: map<int, int>, x: int)
    requires Base(base)
    ensures var P, s := LateReturn(v, w), Race(base, pc0, pc1, r, mem, x);
            && Inside(P, 5, 3) && Inside(P, 5, 4)
            && (Get(r, 2) == 3 ==> Exec(P, s, 1, 5, 3) == Next(Race(base, pc0, pc1, r[1 := 0], mem[Res() := x], x), [Joined(3, x)]))
            && Exec(P, s, 1, 5, 4) == Next(Race(base, pc0, Halted, map[], mem, x), [])
  {
    var P, s := LateReturn(v, w), Race(base, pc0, pc1, r, mem, x);
    LateReturnBlocks(v, w);
    Addresses();
    hide Id3, Id4, X, Y, Res, LateReturn, Race, Exec, Base, L.Changed;
    RaceParts(base, pc0, pc1, r, mem, x);
    RaceChanges(base, pc0, pc1, r, mem, x);
    assert ReadResult(s.tres, 3) == ThreadResult(3, x);
    hide ReadResult, Get;
    if Get(r, 2) == 3 {
      L.JoinExec(P, s, 1, 5, 3, 1, 2, Res());
    }
    L.RetExec(P, s, 1, 5, 4);
  }

  /** One instruction of the thread. */
  lemma ThreadExec(v: int, w: int, base: State, pc0: Pc, pc1: Pc, r: Registers, mem: map<int, int>, x: int)
    requires Base(base)
    ensures var P, s := LateReturn(v, w), Race(base, pc0, pc1, r, mem, x);
            && Inside(P, 5, 0) && Inside(P, 5, 1) && Inside(P, 5, 2) && Inside(P, 5, 3) && Inside(P, 5, 4)
            && Exec(P, s, 1, 5, 0) == Next(Race(base, pc0, pc1, r[2 := ReadCell(mem, Id3())], mem, x), [])
            && Exec(P, s, 1, 5, 1) == Next(Race(base, pc0, pc1, r[0 := ReadCell(mem, X())], mem, x), [])
            && Exec(P, s, 1, 5, 2) == Next(Race(base, pc0, pc1, r, mem[Y() := Get(r, 0)], x), [])
            && (Get(r, 2) == 3 ==> Exec(P, s, 1, 5, 3) == Next(Race(base, pc0, pc1, r[1 := 0], mem[Res() := x], x), [Joined(3, x)]))
            && Exec(P, s, 1, 5, 4) == Next(Race(base, pc0, Halted, map[], mem, x), [])
  {
    hide *;
    ThreadMemory(v, w, base, pc0, pc1, r, mem, x);
    ThreadEnd(v, w, base, pc0, pc1, r, mem, x);
  }

  lemma NextPcs(v: int, w: int)
    ensures var P := LateReturn(v, w);
            && Inside(P, 4, 1) && Inside(P, 5, 0) && Inside(P, 5, 1) && Inside(P, 5, 2) && Inside(P, 5, 4) && NextPc(P, 5, 0) == At(5, 1)
            && NextPc(P, 4, 0) == At(4, 1) && NextPc(P, 4, 1) == Halted && NextPc(P, 5, 1) == At(5, 2)
            && NextPc(P, 5, 2) == At(5, 3) && NextPc(P, 5, 3) == At(5, 4) && NextPc(P, 5, 4) == Halted
  {
    LateReturnBlocks(v, w);
    hide LateReturn;
  }

  /** A group of two instructions. */
  lemma PairGroup(P: Program, s: State, p: nat, b: nat, i: nat, s1: State, ev1: seq<Event>, s2: State, ev2: seq<Event>)
    requires p < |s.procs| && L.IsGroup(P, b, i, i + 2, true) && Inside(P, b, i + 1)
    requires Exec(P, SetPc(s, p, NextPc(P, b, i + 1)), p, b, i) == Next(s1, ev1)
    requires p < |s1.procs| && Exec(P, s1, p, b, i + 1) == Next(s2, ev2)
    ensures Inside(P, b, i) && ExecGroup(P, s, p, b, i) == Next(s2, ev1 + ev2)
  {
    hide Exec, ExecRange, Head, End, Emits, NextPc;
    L.TwoInstrs(P, SetPc(s, p, NextPc(P, b, i + 1)), p, b, i);
  }

  /** The group of main's return begins with its store. */
  lemma MainGroup(v: int, w: int, base: State, pc1: Pc, r: Registers, mem: map<int, int>, x: int)
    requires Base(base)
    ensures Inside(LateReturn(v, w), 4, 0)
    ensures ExecGroup(LateReturn(v, w), Race(base, At(4, 0), pc1, r, mem, x), 0, 4, 0)
            == Next(Race(base, Halted, pc1, r, mem[X() := 1], w), [] + [Returned(3, w)])
  {
    NextPcs(v, w);
    LateReturnGroups(v, w);
    hide LateReturn, Race, Exec, Base, L.IsGroup, Head, SetPc, NextPc, ExecGroup;
    RaceParts(base, At(4, 0), pc1, r, mem, x);
    MainExec(v, w, base, Halted, pc1, r, mem, x);
    MainExec(v, w, base, Halted, pc1, r, mem[X() := 1], x);
    PairGroup(LateReturn(v, w), Race(base, At(4, 0), pc1, r, mem, x), 0, 4, 0, Race(base, Halted, pc1, r, mem[X() := 1], x), [],
              Race(base, Halted, pc1, r, mem[X() := 1], w), [Returned(3, w)]);
  }

  lemma ThreadIdGroup(v: int, w: int, base: State, pc0: Pc, r: Registers, mem: map<int, int>, x: int)
    requires Base(base)
    ensures Inside(LateReturn(v, w), 5, 0)
    ensures ExecGroup(LateReturn(v, w), Race(base, pc0, At(5, 0), r, mem, x), 1, 5, 0)
            == Next(Race(base, pc0, At(5, 1), r[2 := ReadCell(mem, Id3())], mem, x), [])
  {
    NextPcs(v, w);
    LateReturnGroups(v, w);
    hide LateReturn, Race, Exec, Base, L.IsGroup, Head, SetPc, NextPc, ExecGroup, ReadCell;
    RaceParts(base, pc0, At(5, 0), r, mem, x);
    ThreadExec(v, w, base, pc0, At(5, 1), r, mem, x);
    L.OneInstrGroup(LateReturn(v, w), Race(base, pc0, At(5, 0), r, mem, x), 1, 5, 0, true,
                    Race(base, pc0, At(5, 1), r[2 := ReadCell(mem, Id3())], mem, x), []);
  }

  lemma ThreadLoadGroup(v: int, w: int, base: State, pc0: Pc, r: Registers, mem: map<int, int>, x: int)
    requires Base(base)
    ensures Inside(LateReturn(v, w), 5, 1)
    ensures ExecGroup(LateReturn(v, w), Race(base, pc0, At(5, 1), r, mem, x), 1, 5, 1)
            == Next(Race(base, pc0, At(5, 2), r[0 := ReadCell(mem, X())], mem, x), [])
  {
    NextPcs(v, w);
    LateReturnGroups(v, w);
    hide LateReturn, Race, Exec, Base, L.IsGroup, Head, SetPc, NextPc, ExecGroup, ReadCell;
    RaceParts(base, pc0, At(5, 1), r, mem, x);
    ThreadExec(v, w, base, pc0, At(5, 2), r, mem, x);
    L.OneInstrGroup(LateReturn(v, w), Race(base, pc0, At(5, 1), r, mem, x), 1, 5, 1, true,
                    Race(base, pc0, At(5, 2), r[0 := ReadCell(mem, X())], mem, x), []);
  }

  lemma ThreadStoreGroup(v: int, w: int, base: State, pc0: Pc, r: Registers, mem: map<int, int>, x: int)
    requires Base(base)
    ensures Inside(LateReturn(v, w), 5, 2)
    ensures ExecGroup(LateReturn(v, w), Race(base, pc0, At(5, 2), r, mem, x), 1, 5, 2)
            == Next(Race(base, pc0, At(5, 3), r, mem[Y() := Get(r, 0)], x), [])
  {
    NextPcs(v, w);
    LateReturnGroups(v, w);
    hide LateReturn, Race, Exec, Base, L.IsGroup, Head, SetPc, NextPc, ExecGroup, Get;
    RaceParts(base, pc0, At(5, 2), r, mem, x);
    ThreadExec(v, w, base, pc0, At(5, 3), r, mem, x);
    L.OneInstrGroup(LateReturn(v, w), Race(base, pc0, At(5, 2), r, mem, x), 1, 5, 2, true,
                    Race(base, pc0, At(5, 3), r, mem[Y() := Get(r, 0)], x), []);
  }

  lemma ThreadJoinGroup(v: int, w: int, base: State, pc0: Pc, r: Registers, mem: map<int, int>, x: int)
    requires Base(base) && Get(r, 2) == 3
    ensures Inside(LateReturn(v, w), 5, 3)
    ensures ExecGroup(LateReturn(v, w), Race(base, pc0, At(5, 3), r, mem, x), 1, 5, 3)
            == Next(Race(base, pc0, Halted, map[], mem[Res() := x], x), [Joined(3, x)] + [])
  {
    NextPcs(v, w);
    LateReturnGroups(v, w);
    hide LateReturn, Race, Exec, Base, L.IsGroup, Head, SetPc, NextPc, ExecGroup;
    RaceParts(base, pc0, At(5, 3), r, mem, x);
    ThreadExec(v, w, base, pc0, Halted, r, mem, x);
    ThreadExec(v, w, base, pc0, Halted, r[1 := 0], mem[Res() := x], x);
    PairGroup(LateReturn(v, w), Race(base, pc0, At(5, 3), r, mem, x), 1, 5, 3, Race(base, pc0, Halted, r[1 := 0], mem[Res() := x], x),
              [Joined(3, x)], Race(base, pc0, Halted, map[], mem[Res() := x], x), []);
  }

  // ----- Merged steps -----

  /** Whoever reads the 1 that main wrote comes after main's return. */
  predicate Late(w: int, pc0: Pc, pc1: Pc, r: Registers, mem: map<int, int>, x: int) {
    && pc1 in {At(5, 1), At(5, 2), At(5, 3), Halted} && (pc1 != Halted ==> Get(r, 2) == 3)
    && (|| (pc0 == At(4, 0) && ReadCell(mem, X()) == 0 && ReadCell(mem, Y()) == 0 && (pc1 == At(5, 2) ==> Get(r, 0) == 0))
        || (pc0 == Halted && x == w && (pc1 == Halted ==> ReadCell(mem, Y()) == 0 || ReadCell(mem, Res()) == w)))
  }

  ghost predicate AlwaysLate(w: int, base: State, s: State)
    requires Base(base)
  {
    exists pc0, pc1, r, mem, x :: s == Race(base, pc0, pc1, r, mem, x) && Late(w, pc0, pc1, r, mem, x)
  }

  lemma MainStepLate(v: int, w: int, base: State, pc1: Pc, r: Registers, mem: map<int, int>, x: int, s': State, events: seq<Event>)
    requires Base(base) && Late(w, At(4, 0), pc1, r, mem, x)
    requires Steps(LateReturn(v, w), Race(base, At(4, 0), pc1, r, mem, x), 0, s', events)
    ensures AlwaysLate(w, base, s')
  {
    Addresses();
    assert Late(w, Halted, pc1, r, mem[X() := 1], w);
    LateReturnGroups(v, w);
    hide LateReturn, L.IsGroup, ExecGroup, Steps, Race, Base, Late;
    MainGroup(v, w, base, pc1, r, mem, x);
    L.OneGroupStep(LateReturn(v, w), Race(base, At(4, 0), pc1, r, mem, x), 0, 4, 0, 2, Race(base, Halted, pc1, r, mem[X() := 1], w),
                   [] + [Returned(3, w)], 0, 0, 0);
  }

  lemma LoadStepLate(v: int, w: int, base: State, pc0: Pc, r: Registers, mem: map<int, int>, x: int, s': State, events: seq<Event>)
    requires Base(base) && Late(w, pc0, At(5, 1), r, mem, x)
    requires Steps(LateReturn(v, w), Race(base, pc0, At(5, 1), r, mem, x), 1, s', events)
    ensures AlwaysLate(w, base, s')
  {
    Addresses();
    var r' := r[0 := ReadCell(mem, X())];
    assert Late(w, pc0, At(5, 2), r', mem, x);
    LateReturnGroups(v, w);
    hide LateReturn, L.IsGroup, ExecGroup, Steps, Race, Base, Late, ReadCell;
    ThreadLoadGroup(v, w, base, pc0, r, mem, x);
    L.OneGroupStep(LateReturn(v, w), Race(base, pc0, At(5, 1), r, mem, x), 1, 5, 1, 2, Race(base, pc0, At(5, 2), r', mem, x), [], 5, 2, 3);
  }

  lemma StoreStepLate(v: int, w: int, base: State, pc0: Pc, r: Registers, mem: map<int, int>, x: int, s': State, events: seq<Event>)
    requires Base(base) && Late(w, pc0, At(5, 2), r, mem, x)
    requires Steps(LateReturn(v, w), Race(base, pc0, At(5, 2), r, mem, x), 1, s', events)
    ensures AlwaysLate(w, base, s')
  {
    Addresses();
    var mem' := mem[Y() := Get(r, 0)];
    assert Late(w, pc0, At(5, 3), r, mem', x);
    LateReturnGroups(v, w);
    hide LateReturn, L.IsGroup, ExecGroup, Steps, Race, Base, Late, Get;
    ThreadStoreGroup(v, w, base, pc0, r, mem, x);
    L.OneGroupStep(LateReturn(v, w), Race(base, pc0, At(5, 2), r, mem, x), 1, 5, 2, 3, Race(base, pc0, At(5, 3), r, mem', x), [], 5, 3, 5);
  }

  lemma JoinStepLate(v: int, w: int, base: State, pc0: Pc, r: Registers, mem: map<int, int>, x: int, s': State, events: seq<Event>)
    requires Base(base) && Late(w, pc0, At(5, 3), r, mem, x)
    requires Steps(LateReturn(v, w), Race(base, pc0, At(5, 3), r, mem, x), 1, s', events)
    ensures AlwaysLate(w, base, s')
  {
    Addresses();
    assert Late(w, pc0, Halted, map[], mem[Res() := x], x);
    LateReturnGroups(v, w);
    hide LateReturn, L.IsGroup, ExecGroup, Steps, Race, Base, Late;
    ThreadJoinGroup(v, w, base, pc0, r, mem, x);
    L.OneGroupStep(LateReturn(v, w), Race(base, pc0, At(5, 3), r, mem, x), 1, 5, 3, 5, Race(base, pc0, Halted, map[], mem[Res() := x], x),
                   [Joined(3, x)] + [], 0, 0, 0);
  }

  lemma StepLate(v: int, w: int, base: State, s: State, p: nat, s': State, events: seq<Event>)
    requires Base(base) && AlwaysLate(w, base, s) && Steps(LateReturn(v, w), s, p, s', events)
    ensures AlwaysLate(w, base, s')
  {
    hide LateReturn, Loop, Base;
    var pc0, pc1, r, mem, x :| s == Race(base, pc0, pc1, r, mem, x) && Late(w, pc0, pc1, r, mem, x);
    assert s.procs[p].pc != Halted;
    assert pc0 in {At(4, 0), Halted} && pc1 in {At(5, 1), At(5, 2), At(5, 3), Halted};
    hide Steps, Race, Late;
    if p == 0 {
      MainStepLate(v, w, base, pc1, r, mem, x, s', events);
    } else if pc1 == At(5, 1) {
      LoadStepLate(v, w, base, pc0, r, mem, x, s', events);
    } else if pc1 == At(5, 2) {
      StoreStepLate(v, w, base, pc0, r, mem, x, s', events);
    } else {
      JoinStepLate(v, w, base, pc0, r, mem, x, s', events);
    }
  }

  lemma LateAtTheEnd(w: int, base: State, s: State)
    requires Base(base) && AlwaysLate(w, base, s) && AllHalted(s)
    ensures ReadCell(s.mem, Y()) == 0 || ReadCell(s.mem, Res()) == w
  {
    var pc0, pc1, r, mem, x :| s == Race(base, pc0, pc1, r, mem, x) && Late(w, pc0, pc1, r, mem, x);
    RaceParts(base, pc0, pc1, r, mem, x);
    assert s.procs[0].pc == pc0 && s.procs[1].pc == pc1;
    hide Race;
  }

  lemma {:induction false} MergedRunsLate(v: int, w: int, base: State, s: State, n: nat, t: State)
    requires Base(base) && AlwaysLate(w, base, s) && MergedRuns(LateReturn(v, w), s, n, t) && AllHalted(t)
    ensures ReadCell(t.mem, Y()) == 0 || ReadCell(t.mem, Res()) == w
    decreases n
  {
    hide AlwaysLate, Steps, LateReturn, ReadCell, Base, AllHalted;
    if n == 0 {
      LateAtTheEnd(w, base, s);
    } else {
      var p: nat, s1, events :| Steps(LateReturn(v, w), s, p, s1, events) && MergedRuns(LateReturn(v, w), s1, n - 1, t);
      StepLate(v, w, base, s, p, s1, events);
      MergedRunsLate(v, w, base, s1, n - 1, t);
    }
  }

  // ----- The instruction run -----

  lemma OneInstrMore(P: Program, s: State, p: nat, b: nat, i: nat, s1: State, ev: seq<Event>, schedule: seq<nat>, t: State)
    requires p < |s.procs| && s.procs[p].pc == At(b, i) && Inside(P, b, i)
    requires Exec(P, SetPc(s, p, NextPc(P, b, i)), p, b, i) == Next(s1, ev) && InstrRuns(P, s1, schedule, t)
    ensures InstrRuns(P, s, [p] + schedule, t)
  {
    hide Exec, NextPc;
    assert ([p] + schedule)[1..] == schedule;
  }

  lemma MainInstr(v: int, w: int, base: State, i: nat, pc1: Pc, r: Registers, mem: map<int, int>, x: int, schedule: seq<nat>, t: State)
    requires Base(base) && i < 2
    requires InstrRuns(LateReturn(v, w), if i == 0 then Race(base, At(4, 1), pc1, r, mem[X() := 1], x) else Race(base, Halted, pc1, r, mem, w),
                       schedule, t)
    ensures InstrRuns(LateReturn(v, w), Race(base, At(4, i), pc1, r, mem, x), [0] + schedule, t)
  {
    var next := if i == 0 then At(4, 1) else Halted;
    NextPcs(v, w);
    hide LateReturn, Race, Exec, Base, SetPc, NextPc, InstrRuns;
    RaceParts(base, At(4, i), pc1, r, mem, x);
    MainExec(v, w, base, next, pc1, r, mem, x);
    var r' := Exec(LateReturn(v, w), Race(base, next, pc1, r, mem, x), 0, 4, i);
    OneInstrMore(LateReturn(v, w), Race(base, At(4, i), pc1, r, mem, x), 0, 4, i, r'.s, r'.events, schedule, t);
  }

  lemma LoadInstr(v: int, w: int, base: State, pc0: Pc, r: Registers, mem: map<int, int>, x: int, schedule: seq<nat>, t: State)
    requires Base(base) && InstrRuns(LateReturn(v, w), Race(base, pc0, At(5, 2), r[0 := ReadCell(mem, X())], mem, x), schedule, t)
    ensures InstrRuns(LateReturn(v, w), Race(base, pc0, At(5, 1), r, mem, x), [1] + schedule, t)
  {
    NextPcs(v, w);
    hide LateReturn, Race, Exec, Base, SetPc, NextPc, InstrRuns, ReadCell, Get;
    RaceParts(base, pc0, At(5, 1), r, mem, x);
    ThreadExec(v, w, base, pc0, At(5, 2), r, mem, x);
    var e := Exec(LateReturn(v, w), Race(base, pc0, At(5, 2), r, mem, x), 1, 5, 1);
    OneInstrMore(LateReturn(v, w), Race(base, pc0, At(5, 1), r, mem, x), 1, 5, 1, e.s, e.events, schedule, t);
  }

  lemma StoreInstr(v: int, w: int, base: State, pc0: Pc, r: Registers, mem: map<int, int>, x: int, schedule: seq<nat>, t: State)
    requires Base(base) && InstrRuns(LateReturn(v, w), Race(base, pc0, At(5, 3), r, mem[Y() := Get(r, 0)], x), schedule, t)
    ensures InstrRuns(LateReturn(v, w), Race(base, pc0, At(5, 2), r, mem, x), [1] + schedule, t)
  {
    NextPcs(v, w);
    hide LateReturn, Race, Exec, Base, SetPc, NextPc, InstrRuns, ReadCell, Get;
    RaceParts(base, pc0, At(5, 2), r, mem, x);
    ThreadExec(v, w, base, pc0, At(5, 3), r, mem, x);
    var e := Exec(LateReturn(v, w), Race(base, pc0, At(5, 3), r, mem, x), 1, 5, 2);
    OneInstrMore(LateReturn(v, w), Race(base, pc0, At(5, 2), r, mem, x), 1, 5, 2, e.s, e.events, schedule, t);
  }

  lemma JoinInstr(v: int, w: int, base: State, pc0: Pc, r: Registers, mem: map<int, int>, x: int, schedule: seq<nat>, t: State)
    requires Base(base) && Get(r, 2) == 3 && InstrRuns(LateReturn(v, w), Race(base, pc0, At(5, 4), r[1 := 0], mem[Res() := x], x), schedule, t)
    ensures InstrRuns(LateReturn(v, w), Race(base, pc0, At(5, 3), r, mem, x), [1] + schedule, t)
  {
    NextPcs(v, w);
    hide LateReturn, Race, Exec, Base, SetPc, NextPc, InstrRuns, ReadCell, Get;
    RaceParts(base, pc0, At(5, 3), r, mem, x);
    ThreadExec(v, w, base, pc0, At(5, 4), r, mem, x);
    var e := Exec(LateReturn(v, w), Race(base, pc0, At(5, 4), r, mem, x), 1, 5, 3);
    OneInstrMore(LateReturn(v, w), Race(base, pc0, At(5, 3), r, mem, x), 1, 5, 3, e.s, e.events, schedule, t);
  }

  lemma RetInstr(v: int, w: int, base: State, pc0: Pc, r: Registers, mem: map<int, int>, x: int, schedule: seq<nat>, t: State)
    requires Base(base) && InstrRuns(LateReturn(v, w), Race(base, pc0, Halted, map[], mem, x), schedule, t)
    ensures InstrRuns(LateReturn(v, w), Race(base, pc0, At(5, 4), r, mem, x), [1] + schedule, t)
  {
    NextPcs(v, w);
    hide LateReturn, Race, Exec, Base, SetPc, NextPc, InstrRuns, ReadCell, Get;
    RaceParts(base, pc0, At(5, 4), r, mem, x);
    ThreadExec(v, w, base, pc0, Halted, r, mem, x);
    var e := Exec(LateReturn(v, w), Race(base, pc0, Halted, r, mem, x), 1, 5, 4);
    OneInstrMore(LateReturn(v, w), Race(base, pc0, At(5, 4), r, mem, x), 1, 5, 4, e.s, e.events, schedule, t);
  }

  /** The thread runs to its end before main returns. */
  lemma ThreadRuns(v: int, w: int, base: State, r: Registers, mem: map<int, int>, schedule: seq<nat>, t: State)
    requires Base(base) && Get(r, 2) == 3
    requires InstrRuns(LateReturn(v, w), Race(base, At(4, 1), Halted, map[], mem[Y() := ReadCell(mem, X())][Res() := v], v), schedule, t)
    ensures InstrRuns(LateReturn(v, w), Race(base, At(4, 1), At(5, 1), r, mem, v), [1] + ([1] + ([1] + ([1] + schedule))), t)
  {
    var r1 := r[0 := ReadCell(mem, X())];
    var mem1 := mem[Y() := Get(r1, 0)];
    assert Get(r1, 0) == ReadCell(mem, X()) && Get(r1, 2) == 3;
    hide *;
    RetInstr(v, w, base, At(4, 1), r1[1 := 0], mem1[Res() := v], v, schedule, t);
    JoinInstr(v, w, base, At(4, 1), r1, mem1, v, [1] + schedule, t);
    StoreInstr(v, w, base, At(4, 1), r1, mem, v, [1] + ([1] + schedule), t);
    LoadInstr(v, w, base, At(4, 1), r, mem, v, [1] + ([1] + ([1] + schedule)), t);
  }

  /** The thread reads what main wrote and joins before main returns. */
  lemma JoinIsBetween(v: int, w: int, base: State, r: Registers, mem: map<int, int>) returns (t: State, schedule: seq<nat>)
    requires Base(base) && Get(r, 2) == 3
    ensures InstrRuns(LateReturn(v, w), Race(base, At(4, 0), At(5, 1), r, mem, v), schedule, t)
    ensures AllHalted(t) && ReadCell(t.mem, Y()) == 1 && ReadCell(t.mem, Res()) == v
  {
    var mem1 := mem[X() := 1][Y() := ReadCell(mem[X() := 1], X())][Res() := v];
    t := Race(base, Halted, Halted, map[], mem1, w);
    EndOfRace(base, mem1, w);
    assert ReadCell(mem1, Y()) == 1 && ReadCell(mem1, Res()) == v;
    hide *;
    EmptyRun(LateReturn(v, w), t);
    MainInstr(v, w, base, 1, Halted, map[], mem1, v, [], t);
    ThreadRuns(v, w, base, r, mem[X() := 1], [0] + [], t);
    schedule := [1] + ([1] + ([1] + ([1] + ([0] + []))));
    MainInstr(v, w, base, 0, At(5, 1), r, mem, v, schedule, t);
    schedule := [0] + schedule;
  }

  lemma EndOfRace(base: State, mem: map<int, int>, x: int)
    requires Base(base)
    ensures AllHalted(Race(base, Halted, Halted, map[], mem, x)) && Race(base, Halted, Halted, map[], mem, x).mem == mem
  {
  }

  // ----- The run up to there -----

  /** An emitting group, and then one that does not emit and leads to an emitting one. */
  lemma EmitThenLocal(P: Program, s: State, p: nat, b: nat, i: nat, e: nat, s1: State, ev1: seq<Event>, end: nat,
                      s2: State, c: nat, j: nat, last: nat)
    requires p < |s.procs| && s.procs[p].pc == At(b, i) && L.IsGroup(P, b, i, e, true) && ExecGroup(P, s, p, b, i) == Next(s1, ev1)
    requires p < |s1.procs| && s1.procs[p].pc == At(b, e) && L.IsGroup(P, b, e, end, false) && ExecGroup(P, s1, p, b, e) == Next(s2, [])
    requires p < |s2.procs| && s2.procs[p].pc == At(c, j) && L.IsGroup(P, c, j, last, true)
    ensures Steps(P, s, p, s2, ev1)
  {
    hide ExecGroup, Head, End, Emits;
    assert Loop(P, s2, p, true, 0) == Report(s2, []);
    assert Loop(P, s1, p, true, 1) == Report(s2, []);
    assert ev1 + [] == ev1;
    assert StepProcess(P, s, p, 2) == Report(s2, ev1);
  }

  lemma BranchExec(v: int, w: int, s: State)
    requires |s.procs| > 0
    ensures Inside(LateReturn(v, w), 3, 1)
    ensures Exec(LateReturn(v, w), SetPc(s, 0, Halted), 0, 3, 1) == Next(SetPc(s, 0, At(4, 0)), [])
  {
    LateReturnBlocks(v, w);
    hide LateReturn, Exec;
    L.BrExec(LateReturn(v, w), SetPc(s, 0, Halted), 0, 3, 1, 4);
    assert SetPc(SetPc(s, 0, Halted), 0, At(4, 0)) == SetPc(s, 0, At(4, 0));
  }

  lemma BranchIsLocal(v: int, w: int)
    ensures L.IsGroup(LateReturn(v, w), 3, 1, 2, false)
  {
    LateReturnBlocks(v, w);
    LateReturnGroups(v, w);
    hide LateReturn, Head, End, Emits;
    C.LocalGroupEnds(LateReturn(v, w), 3, 1);
  }

  /** main has created the thread and is about to go on. */
  function AfterCreate(s: State): (s': State)
    requires |s.procs| == 6
    ensures |s'.procs| == 6
  {
    SetPc(L.Create(SetPc(s, 0, At(3, 1)), Id4(), 1, 5), 0, At(4, 0))
  }

  lemma SlotOneIsFree(s: State)
    requires |s.procs| == 6 && forall q :: 0 < q < 6 ==> s.procs[q].pc == Halted
    ensures FreeSlot(SetPc(s, 0, At(3, 1)).procs, 0) == Ir.Some(1)
  {
    C.FirstFree(SetPc(s, 0, At(3, 1)).procs, 0, 1);
    hide FreeSlot;
  }

  lemma CreatingGroup(v: int, w: int, s: State)
    requires |s.procs| == 6 && s.procs[0].pc == At(3, 0) && s.threadsStarted == 3 && forall q :: 0 < q < 6 ==> s.procs[q].pc == Halted
    ensures Inside(LateReturn(v, w), 3, 0) && L.IsGroup(LateReturn(v, w), 3, 0, 1, true)
    ensures ExecGroup(LateReturn(v, w), s, 0, 3, 0) == Next(L.Create(SetPc(s, 0, At(3, 1)), Id4(), 1, 5), [Created(4)])
  {
    LateReturnBlocks(v, w);
    hide LateReturn, L.IsGroup, Head, FreeSlot, ExecGroup, L.Create, SetPc;
    LateReturnGroups(v, w);
    SlotOneIsFree(s);
    L.CreateAlone(LateReturn(v, w), s, 3, 0, Id4(), 5, 1);
  }

  lemma BranchGroup(v: int, w: int, s: State)
    requires |s.procs| == 6 && s.procs[0].pc == At(3, 1)
    ensures Inside(LateReturn(v, w), 3, 1) && L.IsGroup(LateReturn(v, w), 3, 1, 2, false)
    ensures ExecGroup(LateReturn(v, w), s, 0, 3, 1) == Next(SetPc(s, 0, At(4, 0)), [])
  {
    LateReturnBlocks(v, w);
    hide LateReturn, L.IsGroup, ExecGroup, Exec, SetPc;
    BranchExec(v, w, s);
    BranchIsLocal(v, w);
    L.OneInstrGroup(LateReturn(v, w), s, 0, 3, 1, false, SetPc(s, 0, At(4, 0)), []);
  }

  lemma CreateStep(v: int, w: int, s: State)
    requires |s.procs| == 6 && s.procs[0].pc == At(3, 0) && s.threadsStarted == 3 && forall q :: 0 < q < 6 ==> s.procs[q].pc == Halted
    ensures Steps(LateReturn(v, w), s, 0, AfterCreate(s), [Created(4)])
  {
    var s1 := L.Create(SetPc(s, 0, At(3, 1)), Id4(), 1, 5);
    assert |s1.procs| == 6 && s1.procs[0].pc == At(3, 1) && AfterCreate(s).procs[0].pc == At(4, 0);
    assert AfterCreate(s) == SetPc(s1, 0, At(4, 0));
    hide LateReturn, L.IsGroup, ExecGroup, Steps, L.Create, SetPc, AfterCreate;
    LateReturnGroups(v, w);
    CreatingGroup(v, w, s);
    BranchGroup(v, w, s1);
    EmitThenLocal(LateReturn(v, w), s, 0, 3, 0, 1, s1, [Created(4)], 2, AfterCreate(s), 4, 0, 2);
  }

  /** The ids of the three threads created so far. */
  function IdsStored(): map<int, int> { C.IdsStored()[Id4() := 4] }

  lemma AfterCreateIsRace(s: State, v: int)
    requires |s.procs| == 6 && s.status == RUNNING_MAIN && s.procs[0].tid == 3 && s.procs[0].regs == map[]
    requires forall q :: 0 <= q < 6 ==> s.procs[q].stack == []
    requires s.threadsStarted == 3 && s.mem == C.IdsStored() && s.tres == map[3 := ThreadResult(3, v)]
    requires forall q :: 0 < q < 6 ==> s.procs[q].pc == Halted
    ensures var base := AfterCreate(s);
            Base(base) && base == Race(base, At(4, 0), At(5, 0), base.procs[1].regs, IdsStored(), v)
  {
    hide C.IdsStored, Id4;
  }

  lemma IdIsRead()
    ensures ReadCell(IdsStored(), Id3()) == 3 && X() !in IdsStored() && Y() !in IdsStored()
  {
  }

  /** The thread has loaded the id, and main and the thread are about to race. */
  function Racing(base: State, v: int): State
    requires Base(base)
  {
    Race(base, At(4, 0), At(5, 1), base.procs[1].regs[2 := 3], IdsStored(), v)
  }

  lemma ThreadIdStep(v: int, w: int, base: State)
    requires Base(base)
    ensures Steps(LateReturn(v, w), Race(base, At(4, 0), At(5, 0), base.procs[1].regs, IdsStored(), v), 1, Racing(base, v), [])
  {
    var r := base.procs[1].regs;
    hide LateReturn, L.IsGroup, ExecGroup, Steps, Race, Base, IdsStored, Id3, ReadCell;
    LateReturnGroups(v, w);
    IdIsRead();
    ThreadIdGroup(v, w, base, At(4, 0), r, IdsStored(), v);
    L.OneGroupStep(LateReturn(v, w), Race(base, At(4, 0), At(5, 0), r, IdsStored(), v), 1, 5, 0, 1, Racing(base, v), [], 5, 1, 2);
  }

  /** The run to the state in which main and the thread are about to race. */
  lemma RaceIsReached(v: int, w: int) returns (base: State, log: seq<Event>)
    ensures Base(base) && Reachable(LateReturnModel(v, w), 8, Racing(base, v), log)
    ensures log == [Created(2), Created(3), Returned(3, v), MainStarted(3), Created(4)]
  {
    var M := LateReturnModel(v, w);
    assert MAX_THREADS == 6 && M.program == LateReturn(v, w) && M == C.BorrowId(v, MainAndThread(w));
    log := [Created(2), Created(3), Returned(3, v), MainStarted(3)];
    hide Steps, Reachable, Race, Racing, AfterCreate, LateReturn, LateReturnModel, C.BorrowId, C.IdsStored, IdsStored, MainAndThread;
    var s0 := C.MainPhase(v, MainAndThread(w));
    base := AfterCreate(s0);
    AfterCreateIsRace(s0, v);
    CreateStep(v, w, s0);
    C.StepExtends(M, 6, s0, log, 0, base, [Created(4)]);
    ThreadIdStep(v, w, base);
    C.StepExtends(M, 7, base, log + [Created(4)], 1, Racing(base, v), []);
    log := log + [Created(4)] + [];
  }

  // ----- The theorem -----

  lemma RegionInstr(v: int, w: int, b: nat, i: nat)
    requires b in {4, 5} && Inside(LateReturn(v, w), b, i)
    ensures var instr := LateReturn(v, w).blocks[b][i];
            && !instr.ThreadCreate? && TargetsInside(instr, {4, 5}) && (instr.ThreadJoin? ==> b == 5 && i == 3)
            && (b == 5 && i == 4 ==> instr == Ret(Ir.None)) && |LateReturn(v, w).blocks[5]| == 5
  {
    LateReturnBlocks(v, w);
    hide LateReturn;
  }

  /** The only join is followed by a return. */
  lemma JoinIsLast(v: int, w: int, b: nat, i: nat)
    requires b in {4, 5} && Inside(LateReturn(v, w), b, i)
    ensures ResultJoinIsLast(LateReturn(v, w), b, i)
  {
    var P := LateReturn(v, w);
    hide LateReturn, End;
    forall k: nat, j: nat | i <= k < j < End(P, b, i) && JoinsForResult(P.blocks[b][k])
      ensures IsLocal(P.blocks[b][j])
    {
      RegionInstr(v, w, b, k);
      RegionInstr(v, w, b, j);
    }
  }

  lemma LateReturnRegion(v: int, w: int)
    ensures Region(LateReturn(v, w), {4, 5})
  {
    var P := LateReturn(v, w);
    LateReturnBlocks(v, w);
    hide LateReturn, Head, ResultJoinIsLast, TargetsInside;
    forall b: nat, i: nat | b in {4, 5} && Inside(P, b, i)
      ensures !P.blocks[b][i].ThreadCreate? && TargetsInside(P.blocks[b][i], {4, 5}) && ResultJoinIsLast(P, b, i)
    {
      RegionInstr(v, w, b, i);
      JoinIsLast(v, w, b, i);
    }
  }

  lemma LateReturnIsValid(v: int, w: int)
    ensures ValidModel(LateReturnModel(v, w)) && LateReturnModel(v, w).program == LateReturn(v, w)
  {
  }

  lemma LateReturnOnGlobals(v: int, w: int)
    ensures C.AllOnGlobals(LateReturnModel(v, w))
  {
    LateReturnBlocks(v, w);
    hide LateReturn;
  }

  lemma RaceInRegion(base: State, r: Registers, mem: map<int, int>, x: int)
    requires Base(base)
    ensures AllInRegion(Race(base, At(4, 0), At(5, 1), r, mem, x), {4, 5})
    ensures !NoneHasReturned(Race(base, At(4, 0), At(5, 1), r, mem, x))
  {
    var s := Race(base, At(4, 0), At(5, 1), r, mem, x);
    assert s.procs[0].pc != Halted && ReadResult(s.tres, s.procs[0].tid).status == 3;
  }

  lemma StartsLate(w: int, base: State, r: Registers, mem: map<int, int>, x: int)
    requires Base(base) && X() !in mem && Y() !in mem && Get(r, 2) == 3
    ensures AlwaysLate(w, base, Race(base, At(4, 0), At(5, 1), r, mem, x))
  {
    assert Late(w, At(4, 0), At(5, 1), r, mem, x);
    hide Late, Race, Base;
  }

  lemma NoIdWraps(v: int)
    ensures ThreadIds.NoWrap([Created(2), Created(3), Returned(3, v), MainStarted(3), Created(4)])
  {
  }

  lemma RacingIsRace(base: State, v: int)
    requires Base(base)
    ensures |base.procs| > 1
    ensures var r := base.procs[1].regs[2 := 3]; Get(r, 2) == 3 && Racing(base, v) == Race(base, At(4, 0), At(5, 1), r, IdsStored(), v)
  {
    hide Race;
  }

  /**
   Where main runs with the id of a thread that had returned v, merged stepping can lose an outcome: main
   writes and returns w in one step, and whoever has seen the write joins too late to read v.
   */
  lemma LateReturnIsLost(v: int, w: int) returns (log: seq<Event>, s: State, t: State, schedule: seq<nat>)
    requires v != w
    ensures ValidModel(LateReturnModel(v, w)) && LateReturnModel(v, w).program == LateReturn(v, w)
    ensures C.AllOnGlobals(LateReturnModel(v, w))
    ensures Reachable(LateReturnModel(v, w), 8, s, log) && ThreadIds.NoWrap(log)
    ensures Region(LateReturn(v, w), {4, 5}) && AllInRegion(s, {4, 5}) && !RunningIds.NoneRestarted(s, log)
    ensures AllHalted(t) && InstrRuns(LateReturn(v, w), s, schedule, t) && forall n :: !MergedRuns(LateReturn(v, w), s, n, t)
  {
    hide *;
    LateReturnIsValid(v, w);
    LateReturnOnGlobals(v, w);
    LateReturnRegion(v, w);
    var base;
    base, log := RaceIsReached(v, w);
    s := Racing(base, v);
    RacingIsRace(base, v);
    var r := base.procs[1].regs[2 := 3];
    NoIdWraps(v);
    RaceInRegion(base, r, IdsStored(), v);
    RunningIds.NoneHasReturnedIff(LateReturnModel(v, w), 8, s, log);
    IdIsRead();
    StartsLate(w, base, r, IdsStored(), v);
    t, schedule := JoinIsBetween(v, w, base, r, IdsStored());
    forall n: nat
      ensures !MergedRuns(LateReturn(v, w), s, n, t)
    {
      if MergedRuns(LateReturn(v, w), s, n, t) {
        MergedRunsLate(v, w, base, s, n, t);
      }
    }
  }
}
