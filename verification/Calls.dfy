/**
 The machine's calls and returns are those of the emitted code. The machine keeps a list of frames and registers
 of any number; the emitted code keeps a register file of fixed size and the id of a chain of chunks.
 */
module Calls {
  import Ir
  import G = Grouping
  import M = Machine
  import C = ChunkStack

  // ----- One process in both forms -----

  function BlocksOf(P: M.Program): (blocks: seq<G.Block>)
    ensures |blocks| == |P.blocks| && forall b :: 0 <= b < |blocks| ==> blocks[b] == M.Ops(P, b)
  {
    seq(|P.blocks|, b requires 0 <= b < |P.blocks| => M.Ops(P, b))
  }

  /** The location that the emitted code stores for a pc. */
  function LocationOf(P: M.Program, pc: M.Pc): nat {
    if pc.At? && pc.block <= |P.blocks| then G.Location(BlocksOf(P), pc.block, pc.index) else 0
  }

  /** The register file holds what the machine's registers hold, and those behind its end are unused. */
  predicate SameRegisters(file: seq<int>, regs: M.Registers) {
    && (forall r :: 0 <= r < |file| ==> file[r] == M.Get(regs, r))
    && forall r :: r in regs ==> r < |file|
  }

  predicate SameFrame(P: M.Program, f: C.Frame, g: M.Frame, size: nat) {
    && f.pc == LocationOf(P, g.pc) && f.result == g.resultReg < size
    && |f.regs| == size && SameRegisters(f.regs, g.regs)
  }

  predicate SameFrames(P: M.Program, frames: seq<C.Frame>, stack: seq<M.Frame>, size: nat) {
    |frames| == |stack| && forall k :: 0 <= k < |frames| ==> SameFrame(P, frames[k], stack[k], size)
  }

  /** The state of the emitted code stands for the machine's process. */
  predicate StandsFor(P: M.Program, s: C.State, frames: seq<C.Frame>, q: M.Proc) {
    && s.pc == LocationOf(P, q.pc) && SameRegisters(s.regs, q.regs)
    && C.Represents(s.chunks, s.stk, frames) && SameFrames(P, frames, q.stack, |s.regs|)
  }

  lemma SameEval(file: seq<int>, regs: M.Registers, o: M.Operand)
    requires SameRegisters(file, regs)
    ensures C.Eval(o, file) == M.Eval(regs, o)
  {
  }

  lemma SameWrite(file: seq<int>, regs: M.Registers, r: nat, v: int)
    requires SameRegisters(file, regs) && r < |file|
    ensures SameRegisters(file[r := v], regs[r := v])
  {
  }

  // ----- Calls -----

  /** Parameter k has register k. */
  function Params(n: nat): (params: seq<nat>)
    ensures |params| == n && (forall k :: 0 <= k < n ==> params[k] == k) && C.DistinctParams(params)
  {
    seq(n, k => k)
  }

  /** The arguments from the k-th on, after those before it. */
  lemma {:induction false} SameArguments(file: seq<int>, regs: M.Registers, args: seq<M.Operand>, k: nat, n: nat, sofar: M.Registers)
    requires k <= |args| <= n <= |file|
    requires SameRegisters(C.CopyInTurn(file, Params(n), args[..k]), sofar)
    ensures SameRegisters(C.CopyInTurn(file, Params(n), args), M.PassArgs(sofar, args, k))
    decreases |args| - k
  {
    if k == |args| {
      assert args[..k] == args;
    } else {
      var before, upTo := C.CopyInTurn(file, Params(n), args[..k]), args[..k + 1];
      assert upTo[..k] == args[..k];
      SameEval(before, sofar, args[k]);
      SameWrite(before, sofar, k, M.Eval(sofar, args[k]));
      assert C.CopyInTurn(file, Params(n), upTo) == before[k := C.Eval(args[k], before)];
      SameArguments(file, regs, args, k + 1, n, sofar[k := M.Eval(sofar, args[k])]);
    }
  }

  /** Process p is at a call, with its pc already behind it. */
  predicate AtCall(P: M.Program, s: M.State, p: nat, b: nat, i: nat, size: nat) {
    && p < |s.procs| && s.procs[p].pc == M.At(b, i) && M.Inside(P, b, i) && P.blocks[b][i].Call?
    && P.blocks[b][i].entry < |P.blocks| && |P.blocks[b][i].args| <= size && P.blocks[b][i].dst < size
  }

  /** s' differs from s only in process p. */
  predicate OnlyProcess(s: M.State, s': M.State, p: nat) {
    && p < |s.procs| == |s'.procs|
    && s' == s.(procs := s.procs[p := s'.procs[p]]) && s'.procs[p].tid == s.procs[p].tid && s'.procs[p].msize == s.procs[p].msize
  }

  /**
   A call of the machine is the emitted direct call: if the emitted state stands for the process whose pc has been
   set behind the call, then after the call it stands for the process that has called.
   */
  lemma CallIsInvoke(P: M.Program, s: M.State, p: nat, b: nat, i: nat, c: C.State, frames: seq<C.Frame>)
    requires AtCall(P, s, p, b, i, |c.regs|) && C.RoomFor(c, 2)
    requires StandsFor(P, c, frames, s.procs[p].(pc := M.NextPc(P, b, i)))
    ensures var call, r := P.blocks[b][i], M.InstrStep(P, s, p);
            var params := Params(|call.args|);
            && C.ArgsFit(params, call.args, call.dst, |c.regs|)
            && r.Next? && r.events == [] && OnlyProcess(s, r.s, p)
            && var c' := C.Invoke(c, true, LocationOf(P, M.At(call.entry, 0)), params, call.args, call.dst);
               StandsFor(P, c', [C.Frame(c.pc, c.regs, call.dst)] + frames, r.s.procs[p])
  {
    var call, q := P.blocks[b][i], s.procs[p].(pc := M.NextPc(P, b, i));
    var params := Params(|call.args|);
    CallStep(P, s, p, b, i, |c.regs|);
    C.InvokePushes(c, true, LocationOf(P, M.At(call.entry, 0)), params, call.args, call.dst, frames);
    InvokeRegisters(c, LocationOf(P, M.At(call.entry, 0)), call.args, call.dst);
    assert call.args[..0] == [];
    SameArguments(c.regs, q.regs, call.args, 0, |call.args|, q.regs);
    FramesPush(P, frames, q.stack, C.Frame(c.pc, c.regs, call.dst), M.Frame(q.pc, q.regs, call.dst), |c.regs|);
    hide C.Invoke, C.Represents, SameRegisters, M.PassArgs, LocationOf, M.InstrStep, SameFrames, C.RoomFor;
  }

  lemma CallStep(P: M.Program, s: M.State, p: nat, b: nat, i: nat, size: nat)
    requires AtCall(P, s, p, b, i, size)
    ensures var call, q, r := P.blocks[b][i], s.procs[p].(pc := M.NextPc(P, b, i)), M.InstrStep(P, s, p);
            && r.Next? && r.events == [] && OnlyProcess(s, r.s, p)
            && r.s.procs[p] == q.(pc := M.At(call.entry, 0), regs := M.PassArgs(q.regs, call.args, 0),
                                  stack := [M.Frame(q.pc, q.regs, call.dst)] + q.stack)
  {
    hide M.PassArgs;
  }

  lemma InvokeRegisters(c: C.State, entry: nat, args: seq<M.Operand>, dst: nat)
    requires C.RoomFor(c, 2) && C.ArgsFit(Params(|args|), args, dst, |c.regs|)
    ensures var c' := C.Invoke(c, true, entry, Params(|args|), args, dst);
            c'.regs == C.CopyInTurn(c.regs, Params(|args|), args)
  {
    hide C.CopyInTurn, C.Put;
  }

  lemma FramesPush(P: M.Program, frames: seq<C.Frame>, stack: seq<M.Frame>, f: C.Frame, g: M.Frame, size: nat)
    requires SameFrames(P, frames, stack, size) && SameFrame(P, f, g, size)
    ensures SameFrames(P, [f] + frames, [g] + stack, size)
  {
    hide SameFrame;
  }

  // ----- Returns -----

  predicate AtRet(P: M.Program, s: M.State, p: nat, b: nat, i: nat) {
    p < |s.procs| && s.procs[p].pc == M.At(b, i) && M.Inside(P, b, i) && P.blocks[b][i].Ret?
  }

  /**
   A return of the machine is the emitted one. From a frame it goes back to the caller and the result is in its
   register; without a frame the process terminates and its result is recorded under its id.
   */
  lemma RetIsReturn(P: M.Program, s: M.State, p: nat, b: nat, i: nat, c: C.State, frames: seq<C.Frame>)
    requires AtRet(P, s, p, b, i) && StandsFor(P, c, frames, s.procs[p].(pc := M.NextPc(P, b, i)))
    ensures c.stk != 0 ==> C.FrameAt(c)
    ensures var q, val, r := s.procs[p], P.blocks[b][i].result, M.InstrStep(P, s, p);
            var c' := C.Return(c, q.tid, val);
            && r.Next? && |r.s.procs| == |s.procs|
            && r.s.procs == s.procs[p := r.s.procs[p]] && r.s.procs[p].tid == q.tid && r.s.procs[p].msize == q.msize
            && r.s.mem == s.mem && r.s.status == s.status && r.s.threadsStarted == s.threadsStarted
            && StandsFor(P, c', if frames == [] then [] else frames[1..], r.s.procs[p])
            && r.s.tres == (if frames == [] && val.Some? then s.tres[q.tid := M.ThreadResult(q.tid, c'.tres[q.tid])] else s.tres)
  {
    var q, val := s.procs[p], P.blocks[b][i].result;
    if frames != [] {
      FramesPop(P, frames, q.stack, |c.regs|);
    }
    hide C.Return, C.Represents, SameRegisters, LocationOf, M.InstrStep, SameFrames, C.FrameAt;
    C.ReturnPops(c, q.tid, val, frames);
    RetStep(P, s, p, b, i);
    if val.Some? {
      SameEval(c.regs, q.regs, val.value);
    }
    if frames == [] {
      ReturnsToNobody(P, c, q.tid, val);
    } else {
      ReturnsToCaller(P, c, q.tid, val, frames, q);
    }
  }

  lemma RetStep(P: M.Program, s: M.State, p: nat, b: nat, i: nat)
    requires AtRet(P, s, p, b, i)
    ensures var q, val, r := s.procs[p], P.blocks[b][i].result, M.InstrStep(P, s, p);
            && r.Next? && |r.s.procs| == |s.procs|
            && r.s == s.(procs := s.procs[p := r.s.procs[p]], tres := r.s.tres)
            && if q.stack == [] then
                 && r.s.procs[p] == q.(pc := M.Halted, regs := map[])
                 && r.s.tres == if val.Some? then s.tres[q.tid := M.ThreadResult(q.tid, M.Eval(q.regs, val.value))] else s.tres
               else
                 && r.s.tres == s.tres
                 && var f := q.stack[0];
                    r.s.procs[p] == q.(pc := f.pc, stack := q.stack[1..],
                                       regs := if val.Some? then f.regs[f.resultReg := M.Eval(q.regs, val.value)] else f.regs)
  {
  }

  lemma ReturnsToNobody(P: M.Program, c: C.State, tid: nat, val: Ir.Option<M.Operand>)
    requires c.stk == 0
    ensures var c' := C.Return(c, tid, val);
            && c'.pc == LocationOf(P, M.Halted) && c'.stk == 0 && SameRegisters(c'.regs, map[]) && |c'.regs| == |c.regs|
            && (val.Some? ==> tid in c'.tres && c'.tres[tid] == C.Eval(val.value, c.regs))
  {
  }

  lemma FramesPop(P: M.Program, frames: seq<C.Frame>, stack: seq<M.Frame>, size: nat)
    requires frames != [] && SameFrames(P, frames, stack, size)
    ensures SameFrame(P, frames[0], stack[0], size) && SameFrames(P, frames[1..], stack[1..], size)
  {
    hide SameFrame;
  }

  lemma ReturnsToCaller(P: M.Program, c: C.State, tid: nat, val: Ir.Option<M.Operand>, frames: seq<C.Frame>, q: M.Proc)
    requires frames != [] && C.Represents(c.chunks, c.stk, frames) && SameFrames(P, frames, q.stack, |c.regs|)
    requires SameRegisters(c.regs, q.regs)
    ensures c.stk != 0 ==> C.FrameAt(c)
    ensures var c', f := C.Return(c, tid, val), q.stack[0];
            && SameRegisters(c'.regs, if val.Some? then f.regs[f.resultReg := M.Eval(q.regs, val.value)] else f.regs)
            && |c'.regs| == |c.regs|
            && SameFrames(P, frames[1..], q.stack[1..], |c.regs|)
  {
    hide C.Return, C.Represents, C.FrameAt, C.Eval, LocationOf, SameFrames;
    FramesPop(P, frames, q.stack, |c.regs|);
    C.ReturnPops(c, tid, val, frames);
    if val.Some? {
      SameEval(c.regs, q.regs, val.value);
    }
  }
}
