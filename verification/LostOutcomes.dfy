/**
 Why no group may go on to a memory access behind a join that stores a result: a reachable state of a
 concrete program from which merged stepping loses an outcome. Everything else that the reduction theorem
 asks for holds there.
 */
module LostOutcomes {
  import Ir
  import G = Grouping
  import opened Machine
  import opened GlobalStatus
  import ThreadIds
  import opened Reduction
  import opened Regions
  import C = Counterexamples

  /**
   The globals are the two thread ids, a result, and two cells x and y. main creates two threads, joins the
   first, which returns 5, into the result, loads x and stores it to y. The second thread copies the result
   to x.
   */
  function LateLoad(): Program {
    Program([[ThreadCreate(Const(Id1()), 1, Const(0)), ThreadCreate(Const(Id2()), 2, Const(0)), Load(2, Const(Id1()), false), Br(3)],
             [Ret(Ir.Some(Const(5)))],
             [Load(0, Const(Res()), false), Store(Const(X()), Reg(0), false), Ret(Ir.None)],
             [ThreadJoin(0, Reg(2), Const(Res())), Load(1, Const(X()), false), Store(Const(Y()), Reg(1), false), Ret(Ir.None)]])
  }

  function Id1(): int { C.Global(0) }
  function Id2(): int { C.Global(1) }
  function Res(): int { C.Global(2) }
  function X(): int { C.Global(3) }
  function Y(): int { C.Global(4) }

  function LateLoadModel(): Model {
    Model(LateLoad(), Ir.None, Ir.Some(0), map[], 64)
  }

  // ----- Groups -----

  lemma LateLoadBlocks()
    ensures var P := LateLoad();
            && |P.blocks| == 4 && |P.blocks[0]| == 4 && |P.blocks[1]| == 1 && |P.blocks[2]| == 3 && |P.blocks[3]| == 4
            && P.blocks[0][0] == ThreadCreate(Const(Id1()), 1, Const(0)) && P.blocks[0][1] == ThreadCreate(Const(Id2()), 2, Const(0))
            && P.blocks[0][2] == Load(2, Const(Id1()), false) && P.blocks[0][3] == Br(3) && P.blocks[1] == [Ret(Ir.Some(Const(5)))]
            && P.blocks[2][0] == Load(0, Const(Res()), false) && P.blocks[2][1] == Store(Const(X()), Reg(0), false)
            && P.blocks[2][2] == Ret(Ir.None) && P.blocks[3][0] == ThreadJoin(0, Reg(2), Const(Res()))
            && P.blocks[3][1] == Load(1, Const(X()), false) && P.blocks[3][2] == Store(Const(Y()), Reg(1), false)
            && P.blocks[3][3] == Ret(Ir.None)
  {
  }

  /** The group at (b, i) ends at e. */
  predicate IsGroup(P: Program, b: nat, i: nat, e: nat, emits: bool) {
    Head(P, b, i) && End(P, b, i) == e && Emits(P, b, i, e) == emits
  }

  predicate IsMain(instr: Instr) { instr.Load? || instr.Store? || instr.ThreadCreate? }

  predicate IsFiller(instr: Instr) { instr.Ret? || instr.Br? }

  lemma MainFlags(instr: Instr)
    requires IsMain(instr)
    ensures var op := OpcodeOf(instr);
            && !Ir.FrontCollapsable(op, false) && !Ir.BackCollapsable(op, false) && !Ir.RuntimeCollapsable(op, false)
            && (op.Call? <==> instr.ThreadCreate?)
  {
  }

  lemma FillerFlags(instr: Instr)
    requires IsFiller(instr)
    ensures !OpcodeOf(instr).Call? && Ir.BackCollapsable(OpcodeOf(instr), false)
  {
  }

  lemma JoinFlags(instr: Instr)
    requires instr.ThreadJoin?
    ensures Ir.FrontCollapsable(OpcodeOf(instr), false) && !Ir.BackCollapsable(OpcodeOf(instr), false)
    ensures !Ir.RuntimeCollapsable(OpcodeOf(instr), false)
  {
  }

  /** A group with its main instruction at m and returns and branches behind it. */
  predicate GroupAround(P: Program, b: nat, i: nat, m: nat, e: nat) {
    && b < |P.blocks| && i <= m < e <= |P.blocks[b]| && IsMain(P.blocks[b][m])
    && (forall k :: i <= k < m ==> P.blocks[b][k].ThreadJoin?)
    && (forall k :: m < k < e ==> IsFiller(P.blocks[b][k]))
    && (e < |P.blocks[b]| ==> P.blocks[b][m].ThreadCreate? || IsMain(P.blocks[b][e]) || P.blocks[b][e].ThreadJoin?)
    && (P.blocks[b][m].ThreadCreate? ==> e == m + 1)
  }

  /** What the collapsability predicates say of the instructions used here. */
  predicate Flagged(instr: Instr, op: Ir.Opcode) {
    && (IsMain(instr) ==>
          && !Ir.FrontCollapsable(op, false) && !Ir.BackCollapsable(op, false) && !Ir.RuntimeCollapsable(op, false)
          && (op.Call? <==> instr.ThreadCreate?))
    && (IsFiller(instr) ==> !op.Call? && Ir.BackCollapsable(op, false))
    && (instr.ThreadJoin? ==> Ir.FrontCollapsable(op, false) && !Ir.BackCollapsable(op, false))
  }

  lemma BlockFlags(P: Program, b: nat)
    requires b < |P.blocks|
    ensures forall k :: 0 <= k < |P.blocks[b]| ==> Flagged(P.blocks[b][k], Ops(P, b)[k])
  {
    hide OpcodeOf, Ir.FrontCollapsable, Ir.BackCollapsable, Ir.RuntimeCollapsable, IsMain, IsFiller;
    forall k | 0 <= k < |P.blocks[b]|
      ensures Flagged(P.blocks[b][k], Ops(P, b)[k])
    {
      if IsMain(P.blocks[b][k]) {
        MainFlags(P.blocks[b][k]);
      }
      if IsFiller(P.blocks[b][k]) {
        FillerFlags(P.blocks[b][k]);
      }
      if P.blocks[b][k].ThreadJoin? {
        JoinFlags(P.blocks[b][k]);
      }
    }
  }

  lemma AroundMain(P: Program, b: nat, i: nat, m: nat, e: nat)
    requires GroupAround(P, b, i, m, e) && Head(P, b, i)
    ensures IsGroup(P, b, i, e, true) && (e < |P.blocks[b]| ==> Head(P, b, e))
  {
    var ops := Ops(P, b);
    BlockFlags(P, b);
    hide OpcodeOf, Ir.FrontCollapsable, Ir.BackCollapsable, Ir.RuntimeCollapsable, IsMain, IsFiller;
    var main := G.GroupShape(ops, false, i);
    assert main == m;
    G.TailShape(ops, false, m, m);
    hide G.TailEnd, G.FrontEnd;
    G.HeadAfterGroup(ops, false, 0, i);
  }

  lemma BlockStart(P: Program, b: nat)
    requires Inside(P, b, 0)
    ensures Head(P, b, 0)
  {
  }

  lemma LateLoadGroups()
    ensures var P := LateLoad();
            && IsGroup(P, 0, 0, 1, true) && IsGroup(P, 0, 1, 2, true) && IsGroup(P, 0, 2, 4, true)
            && IsGroup(P, 2, 0, 1, true) && IsGroup(P, 2, 1, 3, true)
            && IsGroup(P, 3, 0, 2, true) && IsGroup(P, 3, 2, 4, true)
  {
    var P := LateLoad();
    LateLoadBlocks();
    hide Head, End, Emits, LateLoad, IsGroup;
    BlockStart(P, 0);
    BlockStart(P, 2);
    BlockStart(P, 3);
    AroundMain(P, 0, 0, 0, 1);
    AroundMain(P, 0, 1, 1, 2);
    AroundMain(P, 0, 2, 2, 4);
    AroundMain(P, 2, 0, 0, 1);
    AroundMain(P, 2, 1, 1, 3);
    AroundMain(P, 3, 0, 1, 2);
    AroundMain(P, 3, 2, 2, 4);
  }

  // ----- Two processes left -----

  function Idle(): Proc { Proc(Halted, map[], [], 0, 0) }

  /** main is at pc0 and the second thread at pc2; the first thread has returned 5. */
  function Two(pc0: Pc, regs0: Registers, pc2: Pc, regs2: Registers, mem: map<int, int>): (s: State)
    ensures |s.procs| == 6 && s.procs[0].pc == pc0 && s.procs[2].pc == pc2
    ensures forall p :: 0 <= p < |s.procs| && p != 0 && p != 2 ==> s.procs[p].pc == Halted
  {
    State(RUNNING_MAIN, 3, map[2 := ThreadResult(2, 5)], mem,
          [Proc(pc0, regs0, [], 64, 0), Proc(Halted, map[], [], 0, 2), Proc(pc2, regs2, [], 0, 3), Idle(), Idle(), Idle()])
  }

  lemma TwoProcs(pc0: Pc, regs0: Registers, pc2: Pc, regs2: Registers, mem: map<int, int>)
    ensures var s := Two(pc0, regs0, pc2, regs2, mem);
            && s.procs[0] == Proc(pc0, regs0, [], 64, 0) && s.procs[2] == Proc(pc2, regs2, [], 0, 3) && s.mem == mem
            && s.tres == map[2 := ThreadResult(2, 5)]
            && forall pc, regs, mem' ::
                 && s.(procs := s.procs[0 := Proc(pc, regs, [], 64, 0)], mem := mem') == Two(pc, regs, pc2, regs2, mem')
                 && s.(procs := s.procs[2 := Proc(pc, regs, [], 0, 3)], mem := mem') == Two(pc0, regs0, pc, regs, mem')
  {
  }

  /** What p's slot and the memory are after an instruction without other effects. */
  function Changed(s: State, p: nat, regs: Registers, mem: map<int, int>): (s': State)
    requires p < |s.procs|
    ensures |s'.procs| == |s.procs|
  {
    s.(procs := s.procs[p := s.procs[p].(regs := regs)], mem := mem)
  }

  lemma LoadExec(P: Program, s: State, p: nat, b: nat, i: nat, dst: nat, a: int)
    requires p < |s.procs| && Inside(P, b, i) && P.blocks[b][i] == Load(dst, Const(a), false)
    ensures Exec(P, s, p, b, i) == Next(Changed(s, p, s.procs[p].regs[dst := ReadCell(s.mem, a)], s.mem), [])
  {
  }

  lemma StoreExec(P: Program, s: State, p: nat, b: nat, i: nat, a: int, r: nat)
    requires p < |s.procs| && Inside(P, b, i) && P.blocks[b][i] == Store(Const(a), Reg(r), false)
    ensures Exec(P, s, p, b, i) == Next(Changed(s, p, s.procs[p].regs, s.mem[a := Get(s.procs[p].regs, r)]), [])
  {
  }

  lemma RetExec(P: Program, s: State, p: nat, b: nat, i: nat)
    requires p < |s.procs| && Inside(P, b, i) && P.blocks[b][i] == Ret(Ir.None) && s.procs[p].stack == []
    ensures Exec(P, s, p, b, i) == Next(s.(procs := s.procs[p := s.procs[p].(pc := Halted, regs := map[])]), [])
  {
  }

  lemma RetValueExec(P: Program, s: State, p: nat, b: nat, i: nat, value: int)
    requires p < |s.procs| && Inside(P, b, i) && P.blocks[b][i] == Ret(Ir.Some(Const(value))) && s.procs[p].stack == []
    ensures var tid := s.procs[p].tid;
            Exec(P, s, p, b, i) == Next(s.(procs := s.procs[p := s.procs[p].(pc := Halted, regs := map[])],
                                           tres := s.tres[tid := ThreadResult(tid, value)]), [Returned(tid, value)])
  {
  }

  lemma JoinExec(P: Program, s: State, p: nat, b: nat, i: nat, dst: nat, r: nat, a: int)
    requires p < |s.procs| && Inside(P, b, i) && P.blocks[b][i] == ThreadJoin(dst, Reg(r), Const(a)) && a != 0 && r != dst
    requires ReadResult(s.tres, Get(s.procs[p].regs, r)).status != 0
    ensures var tid := Get(s.procs[p].regs, r);
            var value := ReadResult(s.tres, tid).value;
            Exec(P, s, p, b, i) == Next(Changed(s, p, s.procs[p].regs[dst := 0], s.mem[a := value]), [Joined(tid, value)])
  {
  }

  lemma Addresses()
    ensures Id1() < Id2() < Res() < X() < Y() && Id1() > 0
  {
  }

  lemma MainMemory(pc0: Pc, r: Registers, pc2: Pc, r2: Registers, mem: map<int, int>)
    ensures var P, s := LateLoad(), Two(pc0, r, pc2, r2, mem);
            && |P.blocks| == 4 && |P.blocks[3]| == 4
            && Exec(P, s, 0, 3, 1) == Next(Two(pc0, r[1 := ReadCell(mem, X())], pc2, r2, mem), [])
            && Exec(P, s, 0, 3, 2) == Next(Two(pc0, r, pc2, r2, mem[Y() := Get(r, 1)]), [])
            && Exec(P, s, 0, 3, 3) == Next(Two(Halted, map[], pc2, r2, mem), [])
  {
    LateLoadBlocks();
    var P, s := LateLoad(), Two(pc0, r, pc2, r2, mem);
    hide LateLoad, Two, Exec, ReadCell, Get, Id1, Id2, Res, X, Y;
    TwoProcs(pc0, r, pc2, r2, mem);
    LoadExec(P, s, 0, 3, 1, 1, X());
    StoreExec(P, s, 0, 3, 2, Y(), 1);
    RetExec(P, s, 0, 3, 3);
  }

  lemma MainJoins(pc0: Pc, r: Registers, pc2: Pc, r2: Registers, mem: map<int, int>)
    requires Get(r, 2) == 2
    ensures Inside(LateLoad(), 3, 0)
    ensures Exec(LateLoad(), Two(pc0, r, pc2, r2, mem), 0, 3, 0) == Next(Two(pc0, r[0 := 0], pc2, r2, mem[Res() := 5]), [Joined(2, 5)])
  {
    LateLoadBlocks();
    var P, s := LateLoad(), Two(pc0, r, pc2, r2, mem);
    hide LateLoad, Two, Exec, Get, Id1, Id2, Res, X, Y;
    TwoProcs(pc0, r, pc2, r2, mem);
    Addresses();
    assert ReadResult(s.tres, 2) == ThreadResult(2, 5);
    hide ReadResult;
    JoinExec(P, s, 0, 3, 0, 0, 2, Res());
  }

  /** One instruction of main. */
  lemma MainExec(pc0: Pc, r: Registers, pc2: Pc, r2: Registers, mem: map<int, int>)
    ensures var P, s := LateLoad(), Two(pc0, r, pc2, r2, mem);
            && |P.blocks| == 4 && |P.blocks[3]| == 4
            && (Get(r, 2) == 2 ==> Exec(P, s, 0, 3, 0) == Next(Two(pc0, r[0 := 0], pc2, r2, mem[Res() := 5]), [Joined(2, 5)]))
            && Exec(P, s, 0, 3, 1) == Next(Two(pc0, r[1 := ReadCell(mem, X())], pc2, r2, mem), [])
            && Exec(P, s, 0, 3, 2) == Next(Two(pc0, r, pc2, r2, mem[Y() := Get(r, 1)]), [])
            && Exec(P, s, 0, 3, 3) == Next(Two(Halted, map[], pc2, r2, mem), [])
  {
    hide *;
    MainMemory(pc0, r, pc2, r2, mem);
    if Get(r, 2) == 2 {
      MainJoins(pc0, r, pc2, r2, mem);
    }
  }

  /** One instruction of the second thread. */
  lemma OtherExec(pc0: Pc, r: Registers, pc2: Pc, r2: Registers, mem: map<int, int>)
    ensures var P, s := LateLoad(), Two(pc0, r, pc2, r2, mem);
            && |P.blocks| == 4 && |P.blocks[2]| == 3
            && Exec(P, s, 2, 2, 0) == Next(Two(pc0, r, pc2, r2[0 := ReadCell(mem, Res())], mem), [])
            && Exec(P, s, 2, 2, 1) == Next(Two(pc0, r, pc2, r2, mem[X() := Get(r2, 0)]), [])
            && Exec(P, s, 2, 2, 2) == Next(Two(pc0, r, Halted, map[], mem), [])
  {
    LateLoadBlocks();
    var P, s := LateLoad(), Two(pc0, r, pc2, r2, mem);
    TwoProcs(pc0, r, pc2, r2, mem);
    hide LateLoad, Two, Exec, ReadCell, Get;
    LoadExec(P, s, 2, 2, 0, 0, Res());
    StoreExec(P, s, 2, 2, 1, X(), 0);
    RetExec(P, s, 2, 2, 2);
  }

  lemma SetTwo(pc0: Pc, r: Registers, pc2: Pc, r2: Registers, mem: map<int, int>, pc: Pc)
    ensures SetPc(Two(pc0, r, pc2, r2, mem), 0, pc) == Two(pc, r, pc2, r2, mem)
    ensures SetPc(Two(pc0, r, pc2, r2, mem), 2, pc) == Two(pc0, r, pc, r2, mem)
  {
  }

  /** Two instructions in a row. */
  lemma TwoInstrs(P: Program, s: State, p: nat, b: nat, i: nat)
    requires p < |s.procs| && b < |P.blocks| && i + 2 <= |P.blocks[b]|
    requires Exec(P, s, p, b, i).Next? && Exec(P, Exec(P, s, p, b, i).s, p, b, i + 1).Next?
    ensures var r1 := Exec(P, s, p, b, i);
            var r2 := Exec(P, r1.s, p, b, i + 1);
            ExecRange(P, s, p, b, i, i + 2) == Next(r2.s, r1.events + r2.events)
  {
    hide Exec;
    var r1 := Exec(P, s, p, b, i);
    var r2 := Exec(P, r1.s, p, b, i + 1);
    assert r2.events + [] == r2.events;
    assert ExecRange(P, r2.s, p, b, i + 2, i + 2) == Next(r2.s, []);
    assert ExecRange(P, r1.s, p, b, i + 1, i + 2) == r2;
  }

  lemma SingleInstr(P: Program, s: State, p: nat, b: nat, i: nat)
    requires p < |s.procs| && Inside(P, b, i) && Exec(P, s, p, b, i).Next?
    ensures ExecRange(P, s, p, b, i, i + 1) == Exec(P, s, p, b, i)
  {
    hide Exec;
    var r1 := Exec(P, s, p, b, i);
    assert r1.events + [] == r1.events;
    assert ExecRange(P, r1.s, p, b, i + 1, i + 1) == Next(r1.s, []);
  }

  /** A group of two instructions. */
  lemma TwoInstrGroup(P: Program, s: State, p: nat, b: nat, i: nat, s0: State, s1: State, ev1: seq<Event>, s2: State)
    requires p < |s.procs| && IsGroup(P, b, i, i + 2, true) && Inside(P, b, i + 1) && s0 == SetPc(s, p, NextPc(P, b, i + 1))
    requires Exec(P, s0, p, b, i) == Next(s1, ev1) && p < |s1.procs| && Exec(P, s1, p, b, i + 1) == Next(s2, [])
    ensures Inside(P, b, i) && ExecGroup(P, s, p, b, i) == Next(s2, ev1)
  {
    hide Exec, ExecRange, Head, End, Emits, NextPc;
    TwoInstrs(P, s0, p, b, i);
    assert ev1 + [] == ev1;
  }

  lemma LateLoadInside()
    ensures var P := LateLoad();
            && |P.blocks| == 4 && |P.blocks[2]| == 3 && |P.blocks[3]| == 4
            && Inside(P, 3, 0) && Inside(P, 3, 1) && Inside(P, 3, 2) && Inside(P, 3, 3) && Inside(P, 2, 0) && Inside(P, 2, 1) && Inside(P, 2, 2)
            && NextPc(P, 3, 1) == At(3, 2) && NextPc(P, 3, 3) == Halted && NextPc(P, 2, 0) == At(2, 1) && NextPc(P, 2, 2) == Halted
  {
    LateLoadBlocks();
    hide LateLoad;
  }

  /** The group of the join runs on to the load. */
  lemma JoinGroup(r: Registers, pc2: Pc, r2: Registers, mem: map<int, int>)
    requires Get(r, 2) == 2
    ensures Inside(LateLoad(), 3, 0)
    ensures ExecGroup(LateLoad(), Two(At(3, 0), r, pc2, r2, mem), 0, 3, 0)
            == Next(Two(At(3, 2), r[0 := 0][1 := ReadCell(mem[Res() := 5], X())], pc2, r2, mem[Res() := 5]), [Joined(2, 5)])
  {
    hide *;
    LateLoadInside();
    LateLoadGroups();
    SetTwo(At(3, 0), r, pc2, r2, mem, At(3, 2));
    MainExec(At(3, 2), r, pc2, r2, mem);
    MainExec(At(3, 2), r[0 := 0], pc2, r2, mem[Res() := 5]);
    TwoInstrGroup(LateLoad(), Two(At(3, 0), r, pc2, r2, mem), 0, 3, 0, Two(At(3, 2), r, pc2, r2, mem),
                  Two(At(3, 2), r[0 := 0], pc2, r2, mem[Res() := 5]), [Joined(2, 5)],
                  Two(At(3, 2), r[0 := 0][1 := ReadCell(mem[Res() := 5], X())], pc2, r2, mem[Res() := 5]));
  }

  lemma LastStoreGroup(r: Registers, pc2: Pc, r2: Registers, mem: map<int, int>)
    ensures Inside(LateLoad(), 3, 2)
    ensures ExecGroup(LateLoad(), Two(At(3, 2), r, pc2, r2, mem), 0, 3, 2)
            == Next(Two(Halted, map[], pc2, r2, mem[Y() := Get(r, 1)]), [])
  {
    hide *;
    LateLoadInside();
    LateLoadGroups();
    SetTwo(At(3, 2), r, pc2, r2, mem, Halted);
    MainExec(Halted, r, pc2, r2, mem);
    MainExec(Halted, r, pc2, r2, mem[Y() := Get(r, 1)]);
    TwoInstrGroup(LateLoad(), Two(At(3, 2), r, pc2, r2, mem), 0, 3, 2, Two(Halted, r, pc2, r2, mem),
                  Two(Halted, r, pc2, r2, mem[Y() := Get(r, 1)]), [], Two(Halted, map[], pc2, r2, mem[Y() := Get(r, 1)]));
  }

  lemma OtherLoadGroup(pc0: Pc, r: Registers, r2: Registers, mem: map<int, int>)
    ensures Inside(LateLoad(), 2, 0)
    ensures ExecGroup(LateLoad(), Two(pc0, r, At(2, 0), r2, mem), 2, 2, 0)
            == Next(Two(pc0, r, At(2, 1), r2[0 := ReadCell(mem, Res())], mem), [])
  {
    hide LateLoad, Exec, Head, End, Emits, ExecRange, Two, Get, ReadCell;
    LateLoadInside();
    LateLoadGroups();
    SetTwo(pc0, r, At(2, 0), r2, mem, At(2, 1));
    OtherExec(pc0, r, At(2, 1), r2, mem);
    SingleInstr(LateLoad(), Two(pc0, r, At(2, 1), r2, mem), 2, 2, 0);
  }

  lemma OtherStoreGroup(pc0: Pc, r: Registers, r2: Registers, mem: map<int, int>)
    ensures Inside(LateLoad(), 2, 1)
    ensures ExecGroup(LateLoad(), Two(pc0, r, At(2, 1), r2, mem), 2, 2, 1)
            == Next(Two(pc0, r, Halted, map[], mem[X() := Get(r2, 0)]), [])
  {
    hide *;
    LateLoadInside();
    LateLoadGroups();
    SetTwo(pc0, r, At(2, 1), r2, mem, Halted);
    OtherExec(pc0, r, Halted, r2, mem);
    OtherExec(pc0, r, Halted, r2, mem[X() := Get(r2, 0)]);
    TwoInstrGroup(LateLoad(), Two(pc0, r, At(2, 1), r2, mem), 2, 2, 1, Two(pc0, r, Halted, r2, mem),
                  Two(pc0, r, Halted, r2, mem[X() := Get(r2, 0)]), [], Two(pc0, r, Halted, map[], mem[X() := Get(r2, 0)]));
  }

  // ----- Merged steps -----

  /** After an emitting group the loop stops at termination and at the next emitting group. */
  lemma OneGroupStep(P: Program, s: State, p: nat, b: nat, i: nat, e: nat, s1: State, ev1: seq<Event>,
                     c: nat, next: nat, end: nat)
    requires p < |s.procs| && s.procs[p].pc == At(b, i) && IsGroup(P, b, i, e, true) && ExecGroup(P, s, p, b, i) == Next(s1, ev1)
    requires p < |s1.procs| && (s1.procs[p].pc == Halted || (s1.procs[p].pc == At(c, next) && IsGroup(P, c, next, end, true)))
    ensures Steps(P, s, p, s1, ev1)
    ensures forall s', events :: Steps(P, s, p, s', events) ==> s' == s1
  {
    hide ExecGroup, Head, End, Emits;
    assert ev1 + [] == ev1;
    assert Loop(P, s1, p, true, 0) == Report(s1, []);
    assert StepProcess(P, s, p, 1) == Report(s1, ev1);
    forall s', events | Steps(P, s, p, s', events)
      ensures s' == s1
    {
      var fuel :| StepProcess(P, s, p, fuel) == Report(s', events);
      StepFuel(P, s, p, fuel, 1);
    }
  }

  /** What main reads is 0 as long as only merged steps are taken. */
  predicate Unseen(pc0: Pc, r: Registers, pc2: Pc, r2: Registers, mem: map<int, int>) {
    && ReadCell(mem, Y()) == 0 && pc2 in {At(2, 0), At(2, 1), Halted}
    && (|| (pc0 == At(3, 0) && Get(r, 2) == 2 && ReadCell(mem, Res()) == 0 && ReadCell(mem, X()) == 0 && (pc2 == At(2, 1) ==> Get(r2, 0) == 0))
        || (pc0 == At(3, 2) && Get(r, 1) == 0)
        || pc0 == Halted)
  }

  ghost predicate StillUnseen(s: State) {
    exists pc0, r, pc2, r2, mem :: s == Two(pc0, r, pc2, r2, mem) && Unseen(pc0, r, pc2, r2, mem)
  }

  lemma MainStepUnseen(pc0: Pc, r: Registers, pc2: Pc, r2: Registers, mem: map<int, int>, s': State, events: seq<Event>)
    requires Unseen(pc0, r, pc2, r2, mem) && pc0 != Halted && Steps(LateLoad(), Two(pc0, r, pc2, r2, mem), 0, s', events)
    ensures StillUnseen(s')
  {
    var P := LateLoad();
    Addresses();
    LateLoadGroups();
    hide Id1, Id2, Res, X, Y, LateLoad, IsGroup, ExecGroup, Steps, Two, Head;
    if pc0 == At(3, 0) {
      JoinGroup(r, pc2, r2, mem);
      var s1 := Two(At(3, 2), r[0 := 0][1 := ReadCell(mem[Res() := 5], X())], pc2, r2, mem[Res() := 5]);
      OneGroupStep(P, Two(pc0, r, pc2, r2, mem), 0, 3, 0, 2, s1, [Joined(2, 5)], 3, 2, 4);
      assert Unseen(At(3, 2), r[0 := 0][1 := ReadCell(mem[Res() := 5], X())], pc2, r2, mem[Res() := 5]);
    } else {
      LastStoreGroup(r, pc2, r2, mem);
      var s1 := Two(Halted, map[], pc2, r2, mem[Y() := Get(r, 1)]);
      OneGroupStep(P, Two(pc0, r, pc2, r2, mem), 0, 3, 2, 4, s1, [], 0, 0, 0);
      assert Unseen(Halted, map[], pc2, r2, mem[Y() := Get(r, 1)]);
    }
  }

  lemma OtherStepUnseen(pc0: Pc, r: Registers, pc2: Pc, r2: Registers, mem: map<int, int>, s': State, events: seq<Event>)
    requires Unseen(pc0, r, pc2, r2, mem) && pc2 != Halted && Steps(LateLoad(), Two(pc0, r, pc2, r2, mem), 2, s', events)
    ensures StillUnseen(s')
  {
    var P := LateLoad();
    Addresses();
    LateLoadGroups();
    hide Id1, Id2, Res, X, Y, LateLoad, IsGroup, ExecGroup, Steps, Two, Head;
    if pc2 == At(2, 0) {
      OtherLoadGroup(pc0, r, r2, mem);
      var s1 := Two(pc0, r, At(2, 1), r2[0 := ReadCell(mem, Res())], mem);
      OneGroupStep(P, Two(pc0, r, pc2, r2, mem), 2, 2, 0, 1, s1, [], 2, 1, 3);
      assert Unseen(pc0, r, At(2, 1), r2[0 := ReadCell(mem, Res())], mem);
    } else {
      OtherStoreGroup(pc0, r, r2, mem);
      var s1 := Two(pc0, r, Halted, map[], mem[X() := Get(r2, 0)]);
      OneGroupStep(P, Two(pc0, r, pc2, r2, mem), 2, 2, 1, 3, s1, [], 0, 0, 0);
      assert Unseen(pc0, r, Halted, map[], mem[X() := Get(r2, 0)]);
    }
  }

  lemma StepUnseen(s: State, p: nat, s': State, events: seq<Event>)
    requires StillUnseen(s) && Steps(LateLoad(), s, p, s', events)
    ensures StillUnseen(s')
  {
    hide Unseen, LateLoad, Loop;
    var pc0, r, pc2, r2, mem :| s == Two(pc0, r, pc2, r2, mem) && Unseen(pc0, r, pc2, r2, mem);
    assert s.procs[p].pc != Halted;
    hide Steps, Two;
    if p == 0 {
      MainStepUnseen(pc0, r, pc2, r2, mem, s', events);
    } else {
      OtherStepUnseen(pc0, r, pc2, r2, mem, s', events);
    }
  }

  lemma UnseenCell(s: State)
    requires StillUnseen(s)
    ensures ReadCell(s.mem, Y()) == 0
  {
  }

  lemma {:induction false} MergedRunsUnseen(s: State, n: nat, t: State)
    requires StillUnseen(s) && MergedRuns(LateLoad(), s, n, t)
    ensures ReadCell(t.mem, Y()) == 0
    decreases n
  {
    hide StillUnseen, Steps, LateLoad, ReadCell;
    UnseenCell(s);
    if n > 0 {
      var p: nat, s1, events :| Steps(LateLoad(), s, p, s1, events) && MergedRuns(LateLoad(), s1, n - 1, t);
      StepUnseen(s, p, s1, events);
      MergedRunsUnseen(s1, n - 1, t);
    }
  }

  // ----- The instruction run -----

  lemma MainInstr(pc0: Pc, r: Registers, pc2: Pc, r2: Registers, mem: map<int, int>, i: nat, next: Pc, schedule: seq<nat>, t: State)
    requires i < 4 && pc0 == At(3, i) && next == (if i < 3 then At(3, i + 1) else Halted)
    requires var P := LateLoad();
             && |P.blocks| == 4 && |P.blocks[3]| == 4
             && var r' := Exec(P, Two(next, r, pc2, r2, mem), 0, 3, i); r'.Next? && InstrRuns(P, r'.s, schedule, t)
    ensures InstrRuns(LateLoad(), Two(pc0, r, pc2, r2, mem), [0] + schedule, t)
  {
    SetTwo(pc0, r, pc2, r2, mem, next);
    hide LateLoad, Exec, Two;
    assert ([0] + schedule)[1..] == schedule;
  }

  lemma OtherInstr(pc0: Pc, r: Registers, pc2: Pc, r2: Registers, mem: map<int, int>, i: nat, next: Pc, schedule: seq<nat>, t: State)
    requires i < 3 && pc2 == At(2, i) && next == (if i < 2 then At(2, i + 1) else Halted)
    requires var P := LateLoad();
             && |P.blocks| == 4 && |P.blocks[2]| == 3
             && var r' := Exec(P, Two(pc0, r, next, r2, mem), 2, 2, i); r'.Next? && InstrRuns(P, r'.s, schedule, t)
    ensures InstrRuns(LateLoad(), Two(pc0, r, pc2, r2, mem), [2] + schedule, t)
  {
    SetTwo(pc0, r, pc2, r2, mem, next);
    hide LateLoad, Exec, Two;
    assert ([2] + schedule)[1..] == schedule;
  }

  lemma MainEnds(r: Registers, mem: map<int, int>) returns (schedule: seq<nat>)
    ensures InstrRuns(LateLoad(), Two(At(3, 1), r, Halted, map[], mem), schedule,
                      Two(Halted, map[], Halted, map[], mem[Y() := ReadCell(mem, X())]))
  {
    var r1 := r[1 := ReadCell(mem, X())];
    var mem1 := mem[Y() := ReadCell(mem, X())];
    var t := Two(Halted, map[], Halted, map[], mem1);
    assert Get(r1, 1) == ReadCell(mem, X());
    hide LateLoad, Exec, InstrRuns, Two, ReadCell;
    EmptyRun(LateLoad(), t);
    MainExec(Halted, r1, Halted, map[], mem1);
    MainInstr(At(3, 3), r1, Halted, map[], mem1, 3, Halted, [], t);
    MainExec(At(3, 3), r1, Halted, map[], mem);
    MainInstr(At(3, 2), r1, Halted, map[], mem, 2, At(3, 3), [0] + [], t);
    MainExec(At(3, 2), r, Halted, map[], mem);
    MainInstr(At(3, 1), r, Halted, map[], mem, 1, At(3, 2), [0] + ([0] + []), t);
    schedule := [0] + ([0] + ([0] + []));
  }

  lemma OtherStores(r: Registers, q: Registers, mem: map<int, int>, schedule: seq<nat>, t: State)
    requires InstrRuns(LateLoad(), Two(At(3, 1), r, Halted, map[], mem[X() := Get(q, 0)]), schedule, t)
    ensures InstrRuns(LateLoad(), Two(At(3, 1), r, At(2, 1), q, mem), [2] + ([2] + schedule), t)
  {
    hide *;
    OtherExec(At(3, 1), r, Halted, q, mem[X() := Get(q, 0)]);
    OtherInstr(At(3, 1), r, At(2, 2), q, mem[X() := Get(q, 0)], 2, Halted, schedule, t);
    OtherExec(At(3, 1), r, At(2, 2), q, mem);
    OtherInstr(At(3, 1), r, At(2, 1), q, mem, 1, At(2, 2), [2] + schedule, t);
  }

  lemma OtherCopies(r: Registers, r2: Registers, mem: map<int, int>, schedule: seq<nat>, t: State)
    requires InstrRuns(LateLoad(), Two(At(3, 1), r, Halted, map[], mem[X() := ReadCell(mem, Res())]), schedule, t)
    ensures InstrRuns(LateLoad(), Two(At(3, 1), r, At(2, 0), r2, mem), [2] + ([2] + ([2] + schedule)), t)
  {
    var q := r2[0 := ReadCell(mem, Res())];
    assert Get(q, 0) == ReadCell(mem, Res());
    hide *;
    OtherStores(r, q, mem, schedule, t);
    OtherExec(At(3, 1), r, At(2, 1), r2, mem);
    OtherInstr(At(3, 1), r, At(2, 0), r2, mem, 0, At(2, 1), [2] + ([2] + schedule), t);
  }

  /** main joins, the second thread copies the result, and main loads the copy. */
  lemma CopyIsSeen(r: Registers, r2: Registers, mem: map<int, int>) returns (t: State, schedule: seq<nat>)
    requires Get(r, 2) == 2
    ensures InstrRuns(LateLoad(), Two(At(3, 0), r, At(2, 0), r2, mem), schedule, t)
    ensures AllHalted(t) && ReadCell(t.mem, Y()) == 5
  {
    var mem1 := mem[Res() := 5];
    var mem2 := mem1[X() := ReadCell(mem1, Res())];
    t := Two(Halted, map[], Halted, map[], mem2[Y() := ReadCell(mem2, X())]);
    hide LateLoad, Exec, InstrRuns;
    schedule := MainEnds(r[0 := 0], mem2);
    OtherCopies(r[0 := 0], r2, mem1, schedule, t);
    schedule := [2] + ([2] + ([2] + schedule));
    MainExec(At(3, 1), r, At(2, 0), r2, mem);
    MainInstr(At(3, 0), r, At(2, 0), r2, mem, 0, At(3, 1), schedule, t);
    schedule := [0] + schedule;
  }

  // ----- The run up to there -----

  lemma CreateExec(P: Program, s: State, p: nat, b: nat, i: nat, a: int, entry: nat, slot: nat)
    requires p < |s.procs| && Inside(P, b, i) && P.blocks[b][i] == ThreadCreate(Const(a), entry, Const(0))
    requires FreeSlot(s.procs, 0) == Ir.Some(slot) && s.threadsStarted + 1 < TWO32
    ensures Exec(P, s, p, b, i) == Next(Create(s, a, slot, entry), [Created(s.threadsStarted + 1)])
  {
    hide FreeSlot;
  }

  /** What pthread_create makes of the state. */
  function Create(s: State, a: int, slot: nat, entry: nat): State
    requires slot < |s.procs|
  {
    var tid, q := s.threadsStarted + 1, s.procs[slot];
    s.(procs := s.procs[slot := q.(pc := At(entry, 0), regs := q.regs[0 := 0], stack := [], tid := tid)],
       threadsStarted := tid, mem := s.mem[a := tid])
  }

  function Start(): State {
    State(RUNNING_MAIN, 1, map[], map[], [Proc(At(0, 0), map[], [], 64, 0), Idle(), Idle(), Idle(), Idle(), Idle()])
  }

  function OneThread(): State {
    State(RUNNING_MAIN, 2, map[], map[Id1() := 2],
          [Proc(At(0, 1), map[], [], 64, 0), Proc(At(1, 0), map[0 := 0], [], 0, 2), Idle(), Idle(), Idle(), Idle()])
  }

  function IdsStored(): map<int, int> { map[Id1() := 2, Id2() := 3] }

  function TwoThreads(pc0: Pc, regs0: Registers): State {
    State(RUNNING_MAIN, 3, map[], IdsStored(),
          [Proc(pc0, regs0, [], 64, 0), Proc(At(1, 0), map[0 := 0], [], 0, 2), Proc(At(2, 0), map[0 := 0], [], 0, 3), Idle(), Idle(), Idle()])
  }

  /** The first thread has returned, the second one is at its start, and main is about to join. */
  function Joining(): State { Two(At(3, 0), map[2 := 2], At(2, 0), map[0 := 0], IdsStored()) }

  lemma FreeSlots()
    ensures FreeSlot(SetPc(Start(), 0, At(0, 1)).procs, 0) == Ir.Some(1)
    ensures FreeSlot(SetPc(OneThread(), 0, At(0, 2)).procs, 0) == Ir.Some(2)
  {
  }

  lemma StatesOfTheRun()
    ensures |Start().procs| == 6 == |OneThread().procs| && Start().procs[0].pc == At(0, 0) && OneThread().procs[0].pc == At(0, 1)
    ensures Start().threadsStarted == 1 && OneThread().threadsStarted == 2
    ensures Create(SetPc(Start(), 0, At(0, 1)), Id1(), 1, 1) == OneThread()
    ensures Create(SetPc(OneThread(), 0, At(0, 2)), Id2(), 2, 2) == TwoThreads(At(0, 2), map[])
  {
    hide Id1, Id2;
  }

  lemma OneInstrGroup(P: Program, s: State, p: nat, b: nat, i: nat, emits: bool, s1: State, ev1: seq<Event>)
    requires p < |s.procs| && IsGroup(P, b, i, i + 1, emits) && Inside(P, b, i)
    requires Exec(P, SetPc(s, p, NextPc(P, b, i)), p, b, i) == Next(s1, ev1)
    ensures ExecGroup(P, s, p, b, i) == Next(s1, ev1)
  {
    hide Exec, ExecRange, Head, End, Emits, NextPc;
    SingleInstr(P, SetPc(s, p, NextPc(P, b, i)), p, b, i);
  }

  /** A pthread_create of main that is a group of its own. */
  lemma CreateAlone(P: Program, s: State, b: nat, i: nat, a: int, entry: nat, slot: nat)
    requires |s.procs| > 0 && IsGroup(P, b, i, i + 1, true) && Inside(P, b, i + 1)
    requires P.blocks[b][i] == ThreadCreate(Const(a), entry, Const(0)) && s.threadsStarted + 1 < TWO32
    requires FreeSlot(SetPc(s, 0, At(b, i + 1)).procs, 0) == Ir.Some(slot)
    ensures Inside(P, b, i) && slot < |s.procs|
    ensures ExecGroup(P, s, 0, b, i) == Next(Create(SetPc(s, 0, At(b, i + 1)), a, slot, entry), [Created(s.threadsStarted + 1)])
  {
    hide Exec, ExecGroup, Head, End, Emits, FreeSlot, Create;
    CreateExec(P, SetPc(s, 0, At(b, i + 1)), 0, b, i, a, entry, slot);
    OneInstrGroup(P, s, 0, b, i, true, Create(SetPc(s, 0, At(b, i + 1)), a, slot, entry), [Created(s.threadsStarted + 1)]);
  }

  lemma FirstCreate()
    ensures Inside(LateLoad(), 0, 0) && ExecGroup(LateLoad(), Start(), 0, 0, 0) == Next(OneThread(), [Created(2)])
  {
    LateLoadBlocks();
    LateLoadGroups();
    FreeSlots();
    StatesOfTheRun();
    hide LateLoad, Start, OneThread, TwoThreads, Create, SetPc, FreeSlot, IsGroup, ExecGroup, Head, Id1, Id2;
    CreateAlone(LateLoad(), Start(), 0, 0, Id1(), 1, 1);
  }

  lemma SecondCreate()
    ensures Inside(LateLoad(), 0, 1)
    ensures ExecGroup(LateLoad(), OneThread(), 0, 0, 1) == Next(TwoThreads(At(0, 2), map[]), [Created(3)])
  {
    LateLoadBlocks();
    LateLoadGroups();
    FreeSlots();
    StatesOfTheRun();
    hide LateLoad, Start, OneThread, TwoThreads, Create, SetPc, FreeSlot, IsGroup, ExecGroup, Head, Id1, Id2;
    CreateAlone(LateLoad(), OneThread(), 0, 1, Id2(), 2, 2);
  }

  lemma BrExec(P: Program, s: State, p: nat, b: nat, i: nat, target: nat)
    requires p < |s.procs| && Inside(P, b, i) && P.blocks[b][i] == Br(target) && Inside(P, target, 0) && !P.blocks[target][0].Phi?
    ensures Exec(P, s, p, b, i) == Next(SetPc(s, p, At(target, 0)), [])
  {
    assert EnterBlock(P.blocks[target], b, s.procs[p].regs, s.procs[p].regs) == s.procs[p].regs;
    hide EnterBlock;
  }

  lemma IdLoads()
    ensures ReadCell(TwoThreads(Halted, map[]).mem, Id1()) == 2 && |TwoThreads(Halted, map[]).procs| == 6
    ensures SetPc(TwoThreads(At(0, 2), map[]), 0, Halted) == TwoThreads(Halted, map[])
    ensures Changed(TwoThreads(Halted, map[]), 0, TwoThreads(Halted, map[]).procs[0].regs[2 := 2], TwoThreads(Halted, map[]).mem)
            == TwoThreads(Halted, map[2 := 2])
    ensures SetPc(TwoThreads(Halted, map[2 := 2]), 0, At(3, 0)) == TwoThreads(At(3, 0), map[2 := 2])
  {
    Addresses();
    hide Id1, Id2;
  }

  /** main loads the first thread's id. */
  lemma IdGroup()
    ensures Inside(LateLoad(), 0, 2)
    ensures ExecGroup(LateLoad(), TwoThreads(At(0, 2), map[]), 0, 0, 2) == Next(TwoThreads(At(3, 0), map[2 := 2]), [])
  {
    var P := LateLoad();
    LateLoadBlocks();
    LateLoadGroups();
    hide LateLoad, Head, End, Emits, ExecGroup, Exec, SetPc, IsGroup, TwoThreads, Changed, ReadCell, Id1, Id2, Res, X, Y;
    IdLoads();
    LoadExec(P, TwoThreads(Halted, map[]), 0, 0, 2, 2, Id1());
    BrExec(P, TwoThreads(Halted, map[2 := 2]), 0, 0, 3, 3);
    TwoInstrGroup(P, TwoThreads(At(0, 2), map[]), 0, 0, 2, TwoThreads(Halted, map[]), TwoThreads(Halted, map[2 := 2]), [],
                  TwoThreads(At(3, 0), map[2 := 2]));
  }

  lemma ReturnedIsJoining()
    ensures var s0 := SetPc(TwoThreads(At(3, 0), map[2 := 2]), 1, Halted);
            && |s0.procs| == 6 && s0.procs[1].stack == [] && s0.procs[1].tid == 2
            && Joining() == s0.(procs := s0.procs[1 := s0.procs[1].(pc := Halted, regs := map[])], tres := s0.tres[2 := ThreadResult(2, 5)])
  {
    hide IdsStored;
  }

  lemma ReturnGroup()
    ensures Inside(LateLoad(), 1, 0)
    ensures ExecGroup(LateLoad(), TwoThreads(At(3, 0), map[2 := 2]), 1, 1, 0) == Next(Joining(), [Returned(2, 5)])
  {
    var P, s0 := LateLoad(), SetPc(TwoThreads(At(3, 0), map[2 := 2]), 1, Halted);
    LateLoadBlocks();
    C.LocalGroupEnds(P, 1, 0);
    ReturnedIsJoining();
    hide LateLoad, Head, End, Emits, ExecRange, Exec, TwoThreads, Joining;
    RetValueExec(P, s0, 1, 1, 0, 5);
    SingleInstr(P, s0, 1, 1, 0);
  }

  lemma StartIsReached()
    ensures Reachable(LateLoadModel(), 3, Start(), [MainStarted(0)]) && LateLoadModel().program == LateLoad()
  {
    var s := C.MainStarts(LateLoadModel());
    assert s == Start();
  }

  lemma MainSteps()
    ensures Steps(LateLoad(), Start(), 0, OneThread(), [Created(2)])
    ensures Steps(LateLoad(), OneThread(), 0, TwoThreads(At(0, 2), map[]), [Created(3)])
    ensures Steps(LateLoad(), TwoThreads(At(0, 2), map[]), 0, TwoThreads(At(3, 0), map[2 := 2]), [])
  {
    var P := LateLoad();
    hide LateLoad, Head, End, Emits, ExecGroup, Steps, IsGroup, Id1, Id2, Res, X, Y;
    LateLoadGroups();
    FirstCreate();
    SecondCreate();
    IdGroup();
    OneGroupStep(P, Start(), 0, 0, 0, 1, OneThread(), [Created(2)], 0, 1, 2);
    OneGroupStep(P, OneThread(), 0, 0, 1, 2, TwoThreads(At(0, 2), map[]), [Created(3)], 0, 2, 4);
    OneGroupStep(P, TwoThreads(At(0, 2), map[]), 0, 0, 2, 4, TwoThreads(At(3, 0), map[2 := 2]), [], 3, 0, 2);
  }

  lemma ReturnStep()
    ensures Steps(LateLoad(), TwoThreads(At(3, 0), map[2 := 2]), 1, Joining(), [Returned(2, 5)])
  {
    LateLoadBlocks();
    hide LateLoad, Head, End, Emits, ExecGroup, Steps;
    ReturnGroup();
    C.OneGroup(LateLoad(), TwoThreads(At(3, 0), map[2 := 2]), 1, 1);
  }

  /** The run to the state in which the first thread has returned and the other two are about to begin. */
  lemma JoinIsReached() returns (log: seq<Event>)
    ensures Reachable(LateLoadModel(), 7, Joining(), log)
    ensures log == [MainStarted(0), Created(2), Created(3), Returned(2, 5)]
  {
    var M := LateLoadModel();
    StartIsReached();
    MainSteps();
    ReturnStep();
    hide LateLoad, LateLoadModel, Reachable, Steps, IdsStored, Id1;
    var t2, t3 := TwoThreads(At(0, 2), map[]), TwoThreads(At(3, 0), map[2 := 2]);
    C.StepExtends(M, 3, Start(), [MainStarted(0)], 0, OneThread(), [Created(2)]);
    C.StepExtends(M, 4, OneThread(), [MainStarted(0)] + [Created(2)], 0, t2, [Created(3)]);
    log := [MainStarted(0)] + [Created(2)] + [Created(3)];
    C.StepExtends(M, 5, t2, log, 0, t3, []);
    C.StepExtends(M, 6, t3, log + [], 1, Joining(), [Returned(2, 5)]);
    log := log + [] + [Returned(2, 5)];
  }

  // ----- The theorem -----

  /** All that Regions.Region asks for, but for the group at (b0, i0). */
  ghost predicate RegionExcept(P: Program, region: set<nat>, b0: nat, i0: nat) {
    && ClosedRegion(P, region)
    && forall b: nat, i: nat :: b in region && Inside(P, b, i) ==>
         && !P.blocks[b][i].ThreadCreate?
         && (Head(P, b, i) && (b, i) != (b0, i0) ==> ResultJoinIsLast(P, b, i))
  }

  lemma LateLoadRegion()
    ensures RegionExcept(LateLoad(), {2, 3}, 3, 0) && Head(LateLoad(), 3, 0) && !ResultJoinIsLast(LateLoad(), 3, 0)
  {
    var P := LateLoad();
    LateLoadBlocks();
    LateLoadGroups();
    hide LateLoad, Head, End, Emits;
    assert JoinsForResult(P.blocks[3][0]) && !IsLocal(P.blocks[3][1]);
    forall b: nat, i: nat | b in {2, 3} && Inside(P, b, i)
      ensures !P.blocks[b][i].ThreadCreate? && TargetsInside(P.blocks[b][i], {2, 3})
      ensures P.blocks[b][i].ThreadJoin? ==> b == 3 && i == 0
    {
    }
  }

  lemma LateLoadIsValid()
    ensures ValidModel(LateLoadModel()) && LateLoadModel().constructors.None? && LateLoadModel().program == LateLoad()
  {
    LateLoadBlocks();
    hide LateLoad;
  }

  lemma LateLoadOnGlobals()
    ensures C.AllOnGlobals(LateLoadModel())
  {
    LateLoadBlocks();
    hide LateLoad;
  }

  lemma JoiningIsInRegion()
    ensures AllInRegion(Joining(), {2, 3})
  {
    hide IdsStored;
  }

  lemma JoiningIsUnseen()
    ensures StillUnseen(Joining())
  {
    assert Unseen(At(3, 0), map[2 := 2], At(2, 0), map[0 := 0], IdsStored()) by { Addresses(); hide Id1, Id2, Res, X, Y; }
    hide Unseen, Two;
  }

  lemma NoIdWraps(log: seq<Event>)
    requires log == [MainStarted(0), Created(2), Created(3), Returned(2, 5)]
    ensures ThreadIds.NoWrap(log)
  {
  }

  lemma JoiningIsTwo()
    ensures Joining() == Two(At(3, 0), map[2 := 2], At(2, 0), map[0 := 0], IdsStored()) && Get(map[2 := 2], 2) == 2
  {
  }

  /**
   Where a group goes on to a load behind a join that stores a result, merged stepping can lose an outcome:
   between the two, another thread may see the result and change what is loaded. In this run 5 arrives in y
   only if it does.
   */
  lemma LateLoadIsLost() returns (log: seq<Event>, s: State, t: State, schedule: seq<nat>)
    ensures ValidModel(LateLoadModel()) && LateLoadModel().constructors.None? && LateLoadModel().program == LateLoad()
    ensures C.AllOnGlobals(LateLoadModel())
    ensures Reachable(LateLoadModel(), 7, s, log) && ThreadIds.NoWrap(log)
    ensures RegionExcept(LateLoad(), {2, 3}, 3, 0) && AllInRegion(s, {2, 3}) && !ResultJoinIsLast(LateLoad(), 3, 0)
    ensures AllHalted(t) && InstrRuns(LateLoad(), s, schedule, t) && forall n :: !MergedRuns(LateLoad(), s, n, t)
  {
    hide *;
    LateLoadIsValid();
    LateLoadOnGlobals();
    LateLoadRegion();
    s := Joining();
    JoiningIsInRegion();
    JoiningIsUnseen();
    log := JoinIsReached();
    NoIdWraps(log);
    JoiningIsTwo();
    t, schedule := CopyIsSeen(map[2 := 2], map[0 := 0], IdsStored());
    forall n: nat
      ensures !MergedRuns(LateLoad(), s, n, t)
    {
      if MergedRuns(LateLoad(), s, n, t) {
        MergedRunsUnseen(s, n, t);
      }
    }
  }
}
