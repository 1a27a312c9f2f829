/**
 What the remaining instructions do to the process that runs them. Calls, branches and memory accesses are in Calls,
 Phi and Cells.
 */
module Locals {
  import M = Machine
  import A = Allocation
  import opened Cells

  /** Only p's pc, which is set behind the instruction, its registers and the size of its memory differ. */
  predicate RanLocally(P: M.Program, s: M.State, s': M.State, p: nat, b: nat, i: nat)
    requires M.Inside(P, b, i)
  {
    && p < |s.procs| == |s'.procs|
    && s' == s.(procs := s.procs[p := s.procs[p].(pc := M.NextPc(P, b, i), regs := s'.procs[p].regs, msize := s'.procs[p].msize)])
  }

  /** `values` are what the operands stand for. */
  predicate AreValues(values: seq<int>, regs: M.Registers, operands: seq<M.Operand>) {
    |values| == |operands| && forall k :: 0 <= k < |values| ==> values[k] == M.Eval(regs, operands[k])
  }

  /** Arithmetic and the like: the result of the operation on its operands' values is in the one register written. */
  lemma ComputeApplies(P: M.Program, s: M.State, p: nat, b: nat, i: nat, values: seq<int>)
    requires At(P, s, p, b, i) && P.blocks[b][i].Compute? && AreValues(values, s.procs[p].regs, P.blocks[b][i].args)
    ensures var r, instr := M.InstrStep(P, s, p), P.blocks[b][i];
            && r.Next? && r.events == [] && RanLocally(P, s, r.s, p, b, i) && r.s.procs[p].msize == s.procs[p].msize
            && M.Get(r.s.procs[p].regs, instr.dst) == instr.f(values)
            && OnlyRegisters(s.procs[p].regs, r.s.procs[p].regs, {instr.dst})
  {
    assert values == M.EvalAll(s.procs[p].regs, P.blocks[b][i].args);
    hide M.Eval, M.EvalAll;
  }

  /** The number of bytes an alloca or malloc asks for. */
  function Requested(regs: M.Registers, instr: M.Instr): nat
    requires instr.Alloca? || instr.Malloc?
  {
    if instr.Alloca? then instr.size else M.Eval(regs, instr.bytes) % M.TWO64
  }

  /**
   An alloca or malloc hands out the address of the block it records: the block begins there, has the size asked
   for, and belongs to the process. The process's memory grows by that size, in 32 bits.
   */
  lemma AllocationHandsOut(P: M.Program, s: M.State, p: nat, b: nat, i: nat)
    requires At(P, s, p, b, i) && (P.blocks[b][i].Alloca? || P.blocks[b][i].Malloc?)
    ensures var r, instr, q := M.InstrStep(P, s, p), P.blocks[b][i], s.procs[p];
            var size := Requested(q.regs, instr);
            && r.Next? && RanLocally(P, s, r.s, p, b, i)
            && |r.events| == 1 && r.events[0] == M.Allocated(p, q.msize, size)
            && var q' := r.s.procs[p];
               && (forall a: nat :: A.InBlock(r.events[0], a) <==> M.Get(q'.regs, instr.dst) <= a < M.Get(q'.regs, instr.dst) + size)
               && (size == 0 ==> M.Get(q'.regs, instr.dst) == M.MakePointer(p, q.msize))
               && OnlyRegisters(q.regs, q'.regs, {instr.dst})
               && (q'.msize - q.msize - size) % M.TWO32 == 0 && q'.msize < M.TWO32
  {
    hide M.Eval;
    var q, size := s.procs[p], Requested(s.procs[p].regs, P.blocks[b][i]);
    GrowsBy(q.msize, size);
  }

  lemma GrowsBy(msize: nat, size: nat)
    ensures var grown := (msize + size % M.TWO32) % M.TWO32; (grown - msize - size) % M.TWO32 == 0 && grown < M.TWO32
  {
  }

  /** A phi is done by the branch before it, and nothing is generated for unreachable. */
  lemma NothingHappens(P: M.Program, s: M.State, p: nat, b: nat, i: nat)
    requires At(P, s, p, b, i) && (P.blocks[b][i].Phi? || P.blocks[b][i].Unreachable?)
    ensures var r := M.InstrStep(P, s, p);
            && r.Next? && r.events == [] && RanLocally(P, s, r.s, p, b, i)
            && r.s.procs[p] == s.procs[p].(pc := M.NextPc(P, b, i))
  {
  }

  /** A pthread_create that finds no free slot leaves everything as it is, and will be run again. */
  lemma CreateIsRetried(P: M.Program, s: M.State, p: nat, b: nat, i: nat)
    requires At(P, s, p, b, i) && P.blocks[b][i].ThreadCreate? && i + 1 < |P.blocks[b]|
    requires forall q :: 0 <= q < |s.procs| ==> s.procs[q].pc != M.Halted
    ensures M.InstrStep(P, s, p) == M.Next(s, [M.NoFreeSlot(b, i)])
  {
    var s0 := M.SetPc(s, p, M.At(b, i + 1));
    assert M.SetPc(s0, p, M.At(b, i)) == s;
    hide M.FreeSlot;
  }
}
