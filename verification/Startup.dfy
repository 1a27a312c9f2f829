/**
 The start of a run: initialised globals, one idle process per slot, and the setup of constructors and main. Globals
 that no instruction writes hold their initialisers for ever.
 */
module Startup {
  import Ir
  import opened Machine
  import opened GlobalStatus
  import opened RunInvariants
  import PcClosure

  /** What a global is initialised to; memory without an initialiser is zero. */
  function Initialiser(M: Model, a: int): int { if a in M.globals then M.globals[a] else 0 }

  predicate IsIdle(q: Proc) {
    q.pc == Halted && q.stack == [] && q.tid == 0 && forall r :: r in q.regs ==> q.regs[r] == 0
  }

  /** Every load before the first store reads an initialiser, and memory is allocated behind the globals. */
  lemma RunsStartFresh(M: Model)
    ensures var s := InitialState(M);
            && s.status == START && s.threadsStarted == 1 && |s.procs| == MAX_THREADS
            && (forall a :: ReadCell(s.mem, a) == Initialiser(M, a))
            && (forall t :: ReadResult(s.tres, t).status == 0)
            && (forall p :: 0 <= p < |s.procs| ==> IsIdle(s.procs[p]) && s.procs[p].msize == if p == 0 then M.globalsSize else 0)
  {
  }

  /** s' is s with process 0 at the start of block `entry`, if there is one, on an empty stack. */
  predicate SetUp(s: State, s': State, entry: Ir.Option<nat>) {
    && |s.procs| == |s'.procs| > 0 && s'.mem == s.mem && s'.tres == s.tres && s'.threadsStarted == s.threadsStarted
    && (forall p :: 0 < p < |s.procs| ==> s'.procs[p] == s.procs[p])
    && s'.procs[0].tid == s.procs[0].tid && s'.procs[0].msize == s.procs[0].msize && s'.procs[0].regs == s.procs[0].regs
    && (entry.None? ==> s'.procs[0] == s.procs[0])
    && (entry.Some? ==> s'.procs[0].pc == At(entry.value, 0) && s'.procs[0].stack == [])
  }

  /** The first step sets up the constructors, and the step between the phases sets up main. */
  lemma PhasesAreSetUp(M: Model, s: State, s': State, events: seq<Event>)
    requires Successor(M, s, s', events) && (s.status == START || s.status == STARTING_MAIN)
    ensures s'.status == s.status + 1 && SetUp(s, s', if s.status == START then M.constructors else M.main)
    ensures forall e :: e in events <==> s.status == STARTING_MAIN && M.main.Some? && e == MainStarted(s.procs[0].tid)
  {
    hide Steps, NoneSteps;
  }

  // ----- Constant globals -----

  predicate WritesElsewhere(ptr: Operand, a: int) { ptr.Const? && ptr.value != a }

  /** The instruction does not write address a. */
  predicate NeverWrites(instr: Instr, a: int) {
    match instr
    case Store(ptr, _, _) => WritesElsewhere(ptr, a)
    case CmpXchg(_, _, ptr, _, _) => WritesElsewhere(ptr, a)
    case ThreadCreate(ptr, _, _) => WritesElsewhere(ptr, a)
    case ThreadJoin(_, _, resultPtr) => resultPtr == Const(0) || WritesElsewhere(resultPtr, a)
    case _ => true
  }

  predicate NobodyWrites(P: Program, a: int) {
    forall b, i {:trigger P.blocks[b][i]} :: 0 <= b < |P.blocks| && 0 <= i < |P.blocks[b]| ==> NeverWrites(P.blocks[b][i], a)
  }

  ghost function Reads(a: int, v: int): Invariant {
    (s: State, log: seq<Event>, p: int) => ReadCell(s.mem, a) == v
  }

  lemma ExecKeepsCell(P: Program, s: State, p: nat, b: nat, i: nat, a: int)
    requires p < |s.procs| && Inside(P, b, i) && NeverWrites(P.blocks[b][i], a)
    ensures var r := Exec(P, s, p, b, i); r.Next? ==> ReadCell(r.s.mem, a) == ReadCell(s.mem, a)
  {
    hide ExecLocal, FreeSlot;
  }

  lemma StepKeepsCell(P: Program, s: State, p: nat, s': State, events: seq<Event>, a: int)
    requires PcClosure.WellFormed(P) && NobodyWrites(P, a) && Steps(P, s, p, s', events)
    ensures ReadCell(s'.mem, a) == ReadCell(s.mem, a)
  {
    var inv := Reads(a, ReadCell(s.mem, a));
    hide Steps;
    assert KeptByInstructions(P, inv) by {
      forall s1: State, log, q: int, b: int, i: int
        | 0 <= q < |s1.procs| && 0 <= b && 0 <= i && Inside(P, b, i) && Exec(P, s1, q, b, i).Next? && inv(s1, log, q)
        ensures var r := Exec(P, s1, q, b, i); inv(r.s, log + r.events, q) && inv(r.s, log + r.events, -1)
      {
        ExecKeepsCell(P, s1, q, b, i, a);
      }
    }
    assert KeptByPc(inv);
    hide KeptByInstructions, KeptByPc;
    StepKeeps(P, inv, s, [], p, s', events);
  }

  /** A global that no instruction of the program writes holds its initialiser in every reachable state. */
  lemma {:induction false} ConstantGlobalsStay(M: Model, n: nat, s: State, log: seq<Event>, a: int)
    requires ValidModel(M) && Reachable(M, n, s, log) && NobodyWrites(M.program, a)
    ensures ReadCell(s.mem, a) == Initialiser(M, a)
  {
    hide Steps, NoneSteps, NobodyWrites, ReadCell;
    if n == 0 {
      RunsStartFresh(M);
    } else {
      var s0, log0, events :| Reachable(M, n - 1, s0, log0) && Successor(M, s0, s, events) && log == log0 + events;
      ConstantGlobalsStay(M, n - 1, s0, log0, a);
      if p: nat :| Steps(M.program, s0, p, s, events) {
        StepKeepsCell(M.program, s0, p, s, events, a);
      }
    }
  }
}
