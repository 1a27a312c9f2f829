/**
 The next-state function that the generator emits, for a small IR.

 A process's pc is `Halted` (location 0) or the instruction `At(b, i)`; Grouping shows that locations
 identify instructions and are never 0. Memory is one flat map of cells (the per-process chunk
 memories refine it, see Memory), the call stack a list of frames (see ChunkStack), phi stores are
 simultaneous (see Phi). Cells, registers and thread results that were never written read as 0.
 `_assumeNonAtomicCollapsable` is false, its default.
 */
module Machine {
  import Ir
  import G = Grouping

  // ----- Programs -----

  datatype Operand = Const(value: int) | Reg(index: nat)

  type Registers = map<nat, int>

  datatype Instr =
    | Compute(dst: nat, f: seq<int> -> int, args: seq<Operand>) // arithmetic, casts, getelementptr, ...
    | Phi(dst: nat, incoming: map<nat, Operand>)
    | Alloca(dst: nat, size: nat)
    | Malloc(dst: nat, bytes: Operand)
    | Load(dst: nat, ptr: Operand, atomic: bool)
    | Store(ptr: Operand, val: Operand, atomic: bool)
    | CmpXchg(dst: nat, dstSuccess: nat, ptr: Operand, expected: Operand, desired: Operand)
    | Br(target: nat)
    | CondBr(cond: Operand, ifTrue: nat, ifFalse: nat)
    | Call(dst: nat, entry: nat, args: seq<Operand>)
    | Ret(result: Ir.Option<Operand>)
    | Unreachable
    | ThreadCreate(ptr: Operand, entry: nat, arg: Operand)
    | ThreadJoin(dst: nat, tid: Operand, resultPtr: Operand)

  function OpcodeOf(instr: Instr): Ir.Opcode {
    match instr
    case Compute(_, _, _) => Ir.Other
    case Phi(_, _) => Ir.PHI
    case Alloca(_, _) => Ir.Alloca
    case Malloc(_, _) => Ir.Call(Ir.Function(Ir.Malloc, true))
    case Load(_, _, atomic) => Ir.Load(atomic)
    case Store(_, _, atomic) => Ir.Store(atomic)
    case CmpXchg(_, _, _, _, _) => Ir.AtomicCmpXchg
    case Br(_) => Ir.Br
    case CondBr(_, _, _) => Ir.Br
    case Call(_, entry, _) => Ir.Call(Ir.Function(Ir.Named(""), false))
    case Ret(_) => Ir.Ret
    case Unreachable => Ir.Unreachable
    case ThreadCreate(_, _, _) => Ir.Call(Ir.Function(Ir.PthreadCreate, true))
    case ThreadJoin(_, _, _) => Ir.Call(Ir.Function(Ir.PthreadJoin, true))
  }

  datatype Program = Program(blocks: seq<seq<Instr>>)

  predicate Inside(P: Program, b: nat, i: nat) {
    b < |P.blocks| && i < |P.blocks[b]|
  }

  function Ops(P: Program, b: nat): (ops: G.Block)
    requires b < |P.blocks|
    ensures |ops| == |P.blocks[b]|
    ensures forall i :: 0 <= i < |ops| ==> ops[i] == OpcodeOf(P.blocks[b][i])
  {
    seq(|P.blocks[b]|, i requires 0 <= i < |P.blocks[b]| => OpcodeOf(P.blocks[b][i]))
  }

  /** (b, i) is the first instruction of a transition group. */
  predicate Head(P: Program, b: nat, i: nat): (head: bool)
    ensures head ==> Inside(P, b, i)
  {
    Inside(P, b, i) && G.HeadFrom(Ops(P, b), false, 0, i)
  }

  function End(P: Program, b: nat, i: nat): (e: nat)
    requires Inside(P, b, i)
    ensures i < e <= |P.blocks[b]|
  {
    G.GroupEnd(Ops(P, b), false, i)
  }

  /** The flag generateNextStateForGroup returns: some instruction of the group is not runtime-collapsable. */
  predicate Emits(P: Program, b: nat, i: nat, e: nat)
    requires b < |P.blocks| && i <= e <= |P.blocks[b]|
  {
    exists k :: i <= k < e && !Ir.RuntimeCollapsable(OpcodeOf(P.blocks[b][k]), false)
  }

  // ----- States -----

  datatype Pc = Halted | At(block: nat, index: nat)

  datatype Frame = Frame(pc: Pc, regs: Registers, resultReg: nat)

  datatype Proc = Proc(pc: Pc, regs: Registers, stack: seq<Frame>, msize: nat, tid: nat)

  /** An element of the list of thread results: `status` is the returning thread's id. */
  datatype ThreadResult = ThreadResult(status: nat, value: int)

  datatype State = State(status: nat, threadsStarted: nat, tres: map<int, ThreadResult>,
                         mem: map<int, int>, procs: seq<Proc>)

  /** What a step did, for stating properties of runs; the machine itself keeps no such record. */
  datatype Event =
    | Allocated(pid: nat, offset: nat, size: nat)
    | Created(tid: nat)
    | NoFreeSlot(block: nat, index: nat)
    | Returned(tid: nat, value: int)
    | Joined(joinedTid: int, value: int)
    | MainStarted(tid: nat)

  const TWO32 := 0x1_0000_0000
  const TWO56 := 0x100_0000_0000_0000
  const TWO64 := 0x1_0000_0000_0000_0000

  function Get(regs: Registers, r: nat): int { if r in regs then regs[r] else 0 }

  function Eval(regs: Registers, o: Operand): int {
    match o
    case Const(v) => v
    case Reg(r) => Get(regs, r)
  }

  function EvalAll(regs: Registers, os: seq<Operand>): seq<int> {
    seq(|os|, i requires 0 <= i < |os| => Eval(regs, os[i]))
  }

  function ReadCell(mem: map<int, int>, a: int): int { if a in mem then mem[a] else 0 }

  function ReadResult(tres: map<int, ThreadResult>, tid: int): ThreadResult {
    if tid in tres then tres[tid] else ThreadResult(0, 0)
  }

  /** makePointer: the creator's number plus one in the top byte, the offset below it. */
  function MakePointer(pid: nat, offset: nat): int { (pid + 1) * TWO56 + offset }

  function SetPc(s: State, p: nat, pc: Pc): (s': State)
    requires p < |s.procs|
    ensures |s'.procs| == |s.procs|
  {
    s.(procs := s.procs[p := s.procs[p].(pc := pc)])
  }

  /** Where the generator sets the pc before it runs an instruction that ends at (b, i): the next one. */
  function NextPc(P: Program, b: nat, i: nat): Pc
    requires Inside(P, b, i)
  {
    if i + 1 < |P.blocks[b]| then At(b, i + 1) else Halted
  }

  // ----- Single instructions -----

  /** Stores for the phi nodes that open a block, from the registers before the branch. */
  function EnterBlock(instrs: seq<Instr>, from: nat, before: Registers, acc: Registers): Registers {
    if instrs == [] || !instrs[0].Phi? then acc
    else
      var value := if from in instrs[0].incoming then Eval(before, instrs[0].incoming[from]) else 0;
      EnterBlock(instrs[1..], from, before, acc[instrs[0].dst := value])
  }

  function Branch(P: Program, from: nat, to: nat, q: Proc): Proc {
    if to < |P.blocks| then q.(pc := At(to, 0), regs := EnterBlock(P.blocks[to], from, q.regs, q.regs))
    else q
  }

  /** Direct calls copy arguments one at a time into the registers 0, 1, ... of the shared register file. */
  function PassArgs(regs: Registers, args: seq<Operand>, k: nat): Registers
    requires k <= |args|
    decreases |args| - k
  {
    if k == |args| then regs else PassArgs(regs[k := Eval(regs, args[k])], args, k + 1)
  }

  /** Result of an instruction that touches only its own process and its own thread result. */
  datatype LocalOut = LocalOut(proc: Proc, result: Ir.Option<int>, events: seq<Event>)

  function Allocate(p: nat, q: Proc, dst: nat, size: nat): LocalOut {
    var newSize := (q.msize + size % TWO32) % TWO32;
    LocalOut(q.(regs := q.regs[dst := MakePointer(p, q.msize)], msize := newSize), Ir.None,
             [Allocated(p, q.msize, size)])
  }

  function PopFrame(q: Proc, val: Ir.Option<Operand>): LocalOut {
    if q.stack == [] then
      var result := if val.Some? then Ir.Some(Eval(q.regs, val.value)) else Ir.None;
      LocalOut(q.(pc := Halted, regs := map[]), result,
               if result.Some? then [Returned(q.tid, result.value)] else [])
    else
      var f := q.stack[0];
      var regs := if val.Some? then f.regs[f.resultReg := Eval(q.regs, val.value)] else f.regs;
      LocalOut(q.(pc := f.pc, regs := regs, stack := q.stack[1..]), Ir.None, [])
  }

  /** The instructions that cannot see or change anything shared. */
  predicate IsLocal(instr: Instr) {
    !instr.Load? && !instr.Store? && !instr.CmpXchg? && !instr.ThreadCreate? && !instr.ThreadJoin?
  }

  function ExecLocal(P: Program, p: nat, b: nat, q: Proc, instr: Instr): LocalOut
    requires IsLocal(instr)
  {
    match instr
    case Compute(dst, f, args) => LocalOut(q.(regs := q.regs[dst := f(EvalAll(q.regs, args))]), Ir.None, [])
    case Phi(_, _) => LocalOut(q, Ir.None, [])
    case Alloca(dst, size) => Allocate(p, q, dst, size)
    case Malloc(dst, bytes) => Allocate(p, q, dst, Eval(q.regs, bytes) % TWO64)
    case Br(target) => LocalOut(Branch(P, b, target, q), Ir.None, [])
    case CondBr(cond, ifTrue, ifFalse) =>
      LocalOut(Branch(P, b, if Eval(q.regs, cond) != 0 then ifTrue else ifFalse, q), Ir.None, [])
    case Call(dst, entry, args) =>
      LocalOut(q.(pc := At(entry, 0), regs := PassArgs(q.regs, args, 0),
                  stack := [Frame(q.pc, q.regs, dst)] + q.stack), Ir.None, [])
    case Ret(val) => PopFrame(q, val)
    case Unreachable => LocalOut(q, Ir.None, [])
  }

  /** Load, store and cmpxchg: one access to memory. */
  function ExecMemory(q: Proc, mem: map<int, int>, instr: Instr): (Proc, map<int, int>)
    requires instr.Load? || instr.Store? || instr.CmpXchg?
  {
    match instr
    case Load(dst, ptr, _) => (q.(regs := q.regs[dst := ReadCell(mem, Eval(q.regs, ptr))]), mem)
    case Store(ptr, val, _) => (q, mem[Eval(q.regs, ptr) := Eval(q.regs, val)])
    case CmpXchg(dst, dstSuccess, ptr, expected, desired) =>
      var a, want, new_ := Eval(q.regs, ptr), Eval(q.regs, expected), Eval(q.regs, desired);
      var loaded := ReadCell(mem, a);
      if loaded == want then (q.(regs := q.regs[dst := loaded][dstSuccess := 1]), mem[a := new_])
      else (q.(regs := q.regs[dst := loaded][dstSuccess := 0]), mem)
  }

  /** The first process that is not running. */
  function FreeSlot(procs: seq<Proc>, i: nat): (slot: Ir.Option<nat>)
    requires i <= |procs|
    ensures slot.Some? ==> i <= slot.value < |procs| && procs[slot.value].pc == Halted
    ensures slot.None? ==> forall k :: i <= k < |procs| ==> procs[k].pc != Halted
    decreases |procs| - i
  {
    if i == |procs| then Ir.None
    else if procs[i].pc == Halted then Ir.Some(i)
    else FreeSlot(procs, i + 1)
  }

  datatype Result = Next(s: State, events: seq<Event>) | Blocked

  function ExecCreate(s: State, p: nat, b: nat, i: nat, instr: Instr): Result
    requires p < |s.procs| && instr.ThreadCreate?
  {
    var slot := FreeSlot(s.procs, 0);
    if slot.None? then Next(SetPc(s, p, At(b, i)), [NoFreeSlot(b, i)])
    else
      var regs := s.procs[p].regs;
      var t := s.procs[slot.value];
      var tid := (s.threadsStarted + 1) % TWO32;
      var t' := t.(pc := At(instr.entry, 0), regs := t.regs[0 := Eval(regs, instr.arg)], stack := [], tid := tid);
      Next(s.(procs := s.procs[slot.value := t'], threadsStarted := tid, mem := s.mem[Eval(regs, instr.ptr) := tid]),
           [Created(tid)])
  }

  function ExecJoin(s: State, p: nat, instr: Instr): Result
    requires p < |s.procs| && instr.ThreadJoin?
  {
    var q := s.procs[p];
    var regs := q.regs[instr.dst := 0];
    var tid, ptr := Eval(regs, instr.tid), Eval(regs, instr.resultPtr);
    var element := ReadResult(s.tres, tid);
    if element.status == 0 then Blocked
    else Next(s.(procs := s.procs[p := q.(regs := regs)],
                 mem := if ptr != 0 then s.mem[ptr := element.value] else s.mem),
              [Joined(tid, element.value)])
  }

  /** Instruction (b, i) run by process p, whose pc has already been set past it. */
  function Exec(P: Program, s: State, p: nat, b: nat, i: nat): (r: Result)
    requires p < |s.procs| && Inside(P, b, i)
    ensures r.Next? ==> |r.s.procs| == |s.procs|
  {
    var instr, q := P.blocks[b][i], s.procs[p];
    if IsLocal(instr) then
      var out := ExecLocal(P, p, b, q, instr);
      var tres := if out.result.Some? then s.tres[q.tid := ThreadResult(q.tid, out.result.value)] else s.tres;
      Next(s.(procs := s.procs[p := out.proc], tres := tres), out.events)
    else if instr.ThreadCreate? then ExecCreate(s, p, b, i, instr)
    else if instr.ThreadJoin? then ExecJoin(s, p, instr)
    else
      var (q', mem') := ExecMemory(q, s.mem, instr);
      Next(s.(procs := s.procs[p := q'], mem := mem'), [])
  }

  /** One instruction on its own: the reference semantics, an interleaving of single instructions. */
  function InstrStep(P: Program, s: State, p: nat): (r: Result)
    requires p < |s.procs| && s.procs[p].pc.At? && Inside(P, s.procs[p].pc.block, s.procs[p].pc.index)
    ensures r.Next? ==> |r.s.procs| == |s.procs|
  {
    var b, i := s.procs[p].pc.block, s.procs[p].pc.index;
    Exec(P, SetPc(s, p, NextPc(P, b, i)), p, b, i)
  }

  // ----- Groups and model_step -----

  /** Instructions i..e of block b, in order. */
  function ExecRange(P: Program, s: State, p: nat, b: nat, i: nat, e: nat): (r: Result)
    requires p < |s.procs| && b < |P.blocks| && i <= e <= |P.blocks[b]|
    ensures r.Next? ==> |r.s.procs| == |s.procs|
    decreases e - i
  {
    if i == e then Next(s, [])
    else
      match Exec(P, s, p, b, i)
      case Blocked => Blocked
      case Next(s1, ev1) =>
        match ExecRange(P, s1, p, b, i + 1, e)
        case Blocked => Blocked
        case Next(s2, ev2) => Next(s2, ev1 + ev2)
  }

  /** The group at (b, i): the pc is set past the whole group first. */
  function ExecGroup(P: Program, s: State, p: nat, b: nat, i: nat): (r: Result)
    requires p < |s.procs| && Inside(P, b, i)
    ensures r.Next? ==> |r.s.procs| == |s.procs|
  {
    var e := End(P, b, i);
    ExecRange(P, SetPc(s, p, NextPc(P, b, e - 1)), p, b, i, e)
  }

  datatype Outcome =
    | Report(s: State, events: seq<Event>)
    | NoReport
    | NoSuchPc(events: seq<Event>)
    | OutOfFuel

  function After(events: seq<Event>, o: Outcome): Outcome {
    match o
    case Report(s, ev) => Report(s, events + ev)
    case NoSuchPc(ev) => NoSuchPc(events + ev)
    case _ => o
  }

  /** The while loop of model_step, for at most `fuel` groups. */
  function Loop(P: Program, s: State, p: nat, emitted: bool, fuel: nat): (o: Outcome)
    requires p < |s.procs|
    ensures o.Report? ==> |o.s.procs| == |s.procs|
    decreases fuel
  {
    match s.procs[p].pc
    case Halted => Report(s, [])
    case At(b, i) =>
      if !Head(P, b, i) then NoSuchPc([])
      else
        var emits := Emits(P, b, i, End(P, b, i));
        if emits && emitted then Report(s, [])
        else if fuel == 0 then OutOfFuel
        else
          match ExecGroup(P, s, p, b, i)
          case Blocked => NoReport
          case Next(s1, ev) => After(ev, Loop(P, s1, p, emitted || emits, fuel - 1))
  }

  function StepProcess(P: Program, s: State, p: nat, fuel: nat): (o: Outcome)
    requires p < |s.procs|
    ensures o.Report? ==> |o.s.procs| == |s.procs|
  {
    if s.procs[p].pc == Halted then NoReport else Loop(P, s, p, false, fuel)
  }

  /** model_step terminates for process p and reports s'. */
  ghost predicate Steps(P: Program, s: State, p: nat, s': State, events: seq<Event>) {
    p < |s.procs| && exists fuel :: StepProcess(P, s, p, fuel) == Report(s', events)
  }

  /** model_step terminates for process p and reports nothing. */
  ghost predicate CannotStep(P: Program, s: State, p: nat) {
    p < |s.procs| && exists fuel ::
      StepProcess(P, s, p, fuel) == NoReport || StepProcess(P, s, p, fuel).NoSuchPc?
  }

  /** Once the loop comes to an end, more fuel changes nothing: the outcome does not depend on it. */
  lemma {:induction false} LoopFuel(P: Program, s: State, p: nat, emitted: bool, fuel: nat, more: nat)
    requires p < |s.procs| && fuel <= more && Loop(P, s, p, emitted, fuel) != OutOfFuel
    ensures Loop(P, s, p, emitted, more) == Loop(P, s, p, emitted, fuel)
    decreases fuel
  {
    hide ExecGroup, Head, Emits, End;
    if s.procs[p].pc.At? && Head(P, s.procs[p].pc.block, s.procs[p].pc.index) && fuel > 0 {
      var b, i := s.procs[p].pc.block, s.procs[p].pc.index;
      var emits := Emits(P, b, i, End(P, b, i));
      var r := ExecGroup(P, s, p, b, i);
      if !(emits && emitted) && r.Next? {
        LoopFuel(P, r.s, p, emitted || emits, fuel - 1, more - 1);
      }
    }
  }

  lemma StepFuel(P: Program, s: State, p: nat, fuel: nat, other: nat)
    requires p < |s.procs|
    requires StepProcess(P, s, p, fuel) != OutOfFuel && StepProcess(P, s, p, other) != OutOfFuel
    ensures StepProcess(P, s, p, fuel) == StepProcess(P, s, p, other)
  {
    if s.procs[p].pc != Halted {
      if fuel <= other {
        LoopFuel(P, s, p, false, fuel, other);
      } else {
        LoopFuel(P, s, p, false, other, fuel);
      }
    }
  }

  lemma AfterAfter(a: seq<Event>, b: seq<Event>, o: Outcome)
    ensures After(a, After(b, o)) == After(a + b, o)
    ensures After([], o) == o
  {
    match o
    case Report(s, ev) => assert a + (b + ev) == a + b + ev && [] + ev == ev;
    case NoSuchPc(ev) => assert a + (b + ev) == a + b + ev && [] + ev == ev;
    case _ =>
  }

  /** model_step as emitted: a loop over groups that updates the output state vector. It is called where it terminates. */
  method ModelStep(P: Program, src: State, p: nat, ghost fuel: nat) returns (o: Outcome)
    requires p < |src.procs| && StepProcess(P, src, p, fuel) != OutOfFuel
    ensures o == StepProcess(P, src, p, fuel)
  {
    hide ExecGroup, Head, End, Emits;
    var svout, events, emitted := src, [], false;
    if svout.procs[p].pc == Halted {
      return NoReport;
    }
    ghost var left := fuel;
    AfterAfter([], [], Loop(P, src, p, false, fuel));
    while svout.procs[p].pc != Halted
      invariant p < |svout.procs|
      invariant Loop(P, svout, p, emitted, left) != OutOfFuel
      invariant After(events, Loop(P, svout, p, emitted, left)) == Loop(P, src, p, false, fuel)
      decreases left
    {
      var b, i := svout.procs[p].pc.block, svout.procs[p].pc.index;
      if !Head(P, b, i) {
        return NoSuchPc(events);
      }
      var emits := Emits(P, b, i, End(P, b, i));
      if emits && emitted {
        break;
      }
      var r := ExecGroup(P, svout, p, b, i);
      if r.Blocked? {
        return NoReport;
      }
      AfterAfter(events, r.events, Loop(P, r.s, p, emitted || emits, left - 1));
      svout, events, emitted := r.s, events + r.events, emitted || emits;
      left := left - 1;
    }
    o := Report(svout, events);
  }
}
