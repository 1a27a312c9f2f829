/**
 Calls and returns on a stack of immutable chunks.

 The store is canonical and persistent: putting equal content again gives the same id, and nothing put
 is ever changed. An id has the length of its chunk above bit 40. Lengths and offsets are in one unit,
 the register.
 */
module ChunkStack {
  import Ir
  import M = Machine

  /** What a call passes, or a function returns. */
  type Operand = M.Operand

  type Chunks = seq<seq<int>>

  // ----- The store -----

  const LENGTH_UNIT := 0x100_0000_0000

  function LengthOf(id: nat): nat { id / LENGTH_UNIT }

  function IdOf(chunks: Chunks, i: nat): (id: nat)
    requires i < |chunks|
    ensures i < LENGTH_UNIT ==> id % LENGTH_UNIT == i && LengthOf(id) == |chunks[i]|
  {
    |chunks[i]| * LENGTH_UNIT + i
  }

  predicate IsId(chunks: Chunks, id: nat) {
    id % LENGTH_UNIT < |chunks| && LengthOf(id) == |chunks[id % LENGTH_UNIT]|
  }

  /** The content behind an id. */
  function Get(chunks: Chunks, id: nat): seq<int> {
    if IsId(chunks, id) then chunks[id % LENGTH_UNIT] else []
  }

  /** The index of a chunk, or one past the end. */
  function Find(chunks: Chunks, c: seq<int>): (i: nat)
    ensures i <= |chunks| && (i < |chunks| ==> chunks[i] == c)
    ensures i == |chunks| ==> c !in chunks
  {
    if chunks == [] then 0
    else
      var i := Find(chunks[..|chunks| - 1], c);
      if i < |chunks| - 1 || chunks[i] == c then i else |chunks|
  }

  predicate Canonical(chunks: Chunks) {
    |chunks| <= LENGTH_UNIT && forall i, j :: 0 <= i < j < |chunks| ==> chunks[i] != chunks[j]
  }

  function Put(chunks: Chunks, c: seq<int>): (r: (Chunks, nat))
    requires Canonical(chunks) && |chunks| < LENGTH_UNIT
    ensures Canonical(r.0) && chunks <= r.0 && |r.0| <= |chunks| + 1
    ensures IsId(r.0, r.1) && Get(r.0, r.1) == c && LengthOf(r.1) == |c|
  {
    var i := Find(chunks, c);
    if i < |chunks| then (chunks, IdOf(chunks, i)) else (chunks + [c], IdOf(chunks + [c], i))
  }

  /** Equal content, equal id. */
  lemma IdsAreCanonical(chunks: Chunks, a: nat, b: nat)
    requires Canonical(chunks) && IsId(chunks, a) && IsId(chunks, b)
    ensures a == b <==> Get(chunks, a) == Get(chunks, b)
  {
    var i, j := a % LENGTH_UNIT, b % LENGTH_UNIT;
    if i == j {
      assert a == LengthOf(a) * LENGTH_UNIT + i && b == LengthOf(b) * LENGTH_UNIT + j;
    }
  }

  lemma IdsPersist(chunks: Chunks, more: Chunks, id: nat)
    requires chunks <= more && IsId(chunks, id)
    ensures IsId(more, id) && Get(more, id) == Get(chunks, id)
  {
  }

  // ----- The stack it stands for -----

  datatype Frame = Frame(pc: int, regs: seq<int>, result: nat)

  /** Chunk `id` is the top of a chain of frame chunks that stand for `frames`, innermost first. */
  predicate Represents(chunks: Chunks, id: nat, frames: seq<Frame>)
    decreases frames
  {
    if frames == [] then id == 0
    else
      && IsId(chunks, id)
      && var c := Get(chunks, id);
         && |c| == 4 && c[0] == frames[0].pc && c[2] == frames[0].result && c[1] >= 0 && c[3] >= 0
         && IsId(chunks, c[1]) && Get(chunks, c[1]) == frames[0].regs
         && Represents(chunks, c[3], frames[1..])
  }

  lemma {:induction false} RepresentsPersists(chunks: Chunks, more: Chunks, id: nat, frames: seq<Frame>)
    requires chunks <= more && Represents(chunks, id, frames)
    ensures Represents(more, id, frames)
    decreases frames
  {
    if frames != [] {
      IdsPersist(chunks, more, id);
      IdsPersist(chunks, more, Get(chunks, id)[1]);
      RepresentsPersists(chunks, more, Get(chunks, id)[3], frames[1..]);
    }
  }

  /** Two ids are equal exactly when the stacks they stand for are; 0 stands for the empty stack alone. */
  lemma {:induction false} StackIdsAreCanonical(chunks: Chunks, a: nat, b: nat, fa: seq<Frame>, fb: seq<Frame>)
    requires Canonical(chunks) && Represents(chunks, a, fa) && Represents(chunks, b, fb)
    ensures a == b <==> fa == fb
    ensures a == 0 <==> fa == []
    decreases fa
  {
    FramesAreNonzero(chunks, a, fa);
    FramesAreNonzero(chunks, b, fb);
    if fa != [] && fb != [] {
      var ca, cb := Get(chunks, a), Get(chunks, b);
      IdsAreCanonical(chunks, a, b);
      IdsAreCanonical(chunks, ca[1], cb[1]);
      StackIdsAreCanonical(chunks, ca[3], cb[3], fa[1..], fb[1..]);
      hide Represents, Get, IsId;
      if a == b {
        assert fa == [fa[0]] + fa[1..] && fb == [fb[0]] + fb[1..];
      }
      if fa == fb {
        assert ca == [ca[0], ca[1], ca[2], ca[3]] && cb == [cb[0], cb[1], cb[2], cb[3]];
      }
    }
  }

  lemma FramesAreNonzero(chunks: Chunks, id: nat, frames: seq<Frame>)
    requires Represents(chunks, id, frames)
    ensures id == 0 <==> frames == []
  {
    if frames != [] {
      assert LengthOf(id) == 4;
    }
  }

  // ----- Calls and returns as functions on the state -----

  datatype State = State(pc: int, stk: nat, regs: seq<int>, chunks: Chunks, tres: map<nat, int>)

  function Eval(v: Operand, regs: seq<int>): int {
    match v
    case Const(c) => c
    case Reg(r) => if r < |regs| then regs[r] else 0
  }

  predicate RoomFor(s: State, chunks: nat) {
    Canonical(s.chunks) && |s.chunks| + chunks <= LENGTH_UNIT
  }

  /** Saves the registers, the pc and the register for the result in a new frame. */
  function SaveFrame(s: State, result: nat): (s': State)
    requires RoomFor(s, 2)
    ensures Canonical(s'.chunks) && s.chunks <= s'.chunks
  {
    var (chunks1, regsId) := Put(s.chunks, s.regs);
    var (chunks2, stk) := Put(chunks1, [s.pc, regsId, result, s.stk]);
    s.(chunks := chunks2, stk := stk)
  }

  predicate SlotsFit(params: seq<nat>, size: nat) {
    forall k :: 0 <= k < |params| ==> params[k] < size
  }

  /** Arguments of a direct call: each is loaded after the ones before it were stored. */
  function CopyInTurn(regs: seq<int>, params: seq<nat>, args: seq<Operand>): (regs': seq<int>)
    requires |args| <= |params| && SlotsFit(params, |regs|)
    ensures |regs'| == |regs|
  {
    if args == [] then regs
    else
      var last := |args| - 1;
      var before := CopyInTurn(regs, params, args[..last]);
      before[params[last] := Eval(args[last], before)]
  }

  /** Arguments of an indirect call: all are loaded first. */
  function CopyAtOnce(regs: seq<int>, params: seq<nat>, values: seq<int>): (regs': seq<int>)
    requires |values| <= |params| && SlotsFit(params, |regs|)
    ensures |regs'| == |regs|
  {
    if values == [] then regs
    else
      var last := |values| - 1;
      CopyAtOnce(regs, params, values[..last])[params[last] := values[last]]
  }

  function Values(args: seq<Operand>, regs: seq<int>): (values: seq<int>)
    ensures |values| == |args| && forall k :: 0 <= k < |args| ==> values[k] == Eval(args[k], regs)
  {
    seq(|args|, k requires 0 <= k < |args| => Eval(args[k], regs))
  }

  predicate ArgsFit(params: seq<nat>, args: seq<Operand>, result: nat, size: nat) {
    && |args| <= |params| && result < size
    && SlotsFit(params, size)
  }

  /** A call with its call site: `direct` tells a call of a named function from one through a pointer. */
  function Invoke(s: State, direct: bool, entry: int, params: seq<nat>, args: seq<Operand>, result: nat): (s': State)
    requires RoomFor(s, 2) && ArgsFit(params, args, result, |s.regs|)
    ensures Canonical(s'.chunks) && s.chunks <= s'.chunks && |s'.chunks| <= |s.chunks| + 2
    ensures |s'.regs| == |s.regs| && s'.tres == s.tres
    ensures IsCallerFrame(s', s, result)
  {
    var s1 := SaveFrame(s, result);
    var regs := if direct then CopyInTurn(s1.regs, params, args) else CopyAtOnce(s1.regs, params, Values(args, s1.regs));
    s1.(regs := regs, pc := entry)
  }

  /** The frame on top of s' holds what s had when it called. */
  predicate IsCallerFrame(s': State, s: State, result: nat) {
    && s'.stk != 0 && IsId(s'.chunks, s'.stk)
    && var c := Get(s'.chunks, s'.stk);
       && |c| == 4 && c[0] == s.pc && c[1] >= 0 && c[2] == result && c[3] == s.stk
       && IsId(s'.chunks, c[1]) && Get(s'.chunks, c[1]) == s.regs
  }

  /** The chunk on top is a frame for this register file. */
  predicate FrameAt(s: State) {
    && IsId(s.chunks, s.stk) && |Get(s.chunks, s.stk)| == 4
    && var c := Get(s.chunks, s.stk);
       && c[1] >= 0 && c[2] >= 0 && c[3] >= 0
       && IsId(s.chunks, c[1]) && |Get(s.chunks, c[1])| == |s.regs|
       && c[2] < |s.regs|
  }

  function Return(s: State, tid: nat, ret: Ir.Option<Operand>): (s': State)
    requires s.stk != 0 ==> FrameAt(s)
    ensures |s'.regs| == |s.regs| && s'.chunks == s.chunks
  {
    if s.stk != 0 then
      var c := Get(s.chunks, s.stk);
      var saved := Get(s.chunks, c[1]);
      s.(stk := c[3], pc := c[0], regs := if ret.Some? then saved[c[2] := Eval(ret.value, s.regs)] else saved)
    else
      s.(pc := 0, regs := seq(|s.regs|, _ => 0),
         tres := if ret.Some? then s.tres[tid := Eval(ret.value, s.regs)] else s.tres)
  }

  // ----- They act on the stack as on a list of frames -----

  lemma InvokePushes(s: State, direct: bool, entry: int, params: seq<nat>, args: seq<Operand>, result: nat, frames: seq<Frame>)
    requires RoomFor(s, 2) && ArgsFit(params, args, result, |s.regs|) && Represents(s.chunks, s.stk, frames)
    ensures var s' := Invoke(s, direct, entry, params, args, result);
            && s'.pc == entry
            && Represents(s'.chunks, s'.stk, [Frame(s.pc, s.regs, result)] + frames)
  {
    var s' := Invoke(s, direct, entry, params, args, result);
    RepresentsPersists(s.chunks, s'.chunks, s.stk, frames);
    hide Invoke;
    assert ([Frame(s.pc, s.regs, result)] + frames)[1..] == frames;
  }

  lemma ReturnPops(s: State, tid: nat, ret: Ir.Option<Operand>, frames: seq<Frame>)
    requires Represents(s.chunks, s.stk, frames)
    requires frames != [] ==> |frames[0].regs| == |s.regs| && frames[0].result < |s.regs|
    ensures s.stk != 0 ==> FrameAt(s)
    ensures var s' := Return(s, tid, ret);
            if frames != [] then
              && Represents(s'.chunks, s'.stk, frames[1..]) && s'.pc == frames[0].pc && s'.tres == s.tres
              && |s'.regs| == |s.regs|
              && forall r :: 0 <= r < |s.regs| ==>
                   s'.regs[r] == if ret.Some? && r == frames[0].result then Eval(ret.value, s.regs) else frames[0].regs[r]
            else
              && s'.stk == 0 && s'.pc == 0 && (forall r :: 0 <= r < |s.regs| ==> s'.regs[r] == 0)
              && s'.tres == if ret.Some? then s.tres[tid := Eval(ret.value, s.regs)] else s.tres
  {
    FramesAreNonzero(s.chunks, s.stk, frames);
  }

  // ----- Well-nested runs -----

  /** A local instruction with what it leaves in pc and registers, or a call with all that runs inside it. */
  datatype Op =
    | Local(pc: int, writes: map<nat, int>)
    | Call(direct: bool, entry: int, params: seq<nat>, args: seq<Operand>, result: nat, body: seq<Op>, ret: Ir.Option<Operand>)

  predicate OpFits(op: Op, size: nat) {
    match op
    case Local(_, _) => true
    case Call(_, _, params, args, result, body, _) => ArgsFit(params, args, result, size) && OpsFit(body, size)
  }

  predicate OpsFit(ops: seq<Op>, size: nat) {
    ops != [] ==> OpFits(ops[0], size) && OpsFit(ops[1..], size)
  }

  /** How many chunks an operation, and a run, may add. */
  function ChunksForOp(op: Op): nat {
    match op
    case Local(_, _) => 0
    case Call(_, _, _, _, _, body, _) => 2 + ChunksFor(body)
  }

  function ChunksFor(ops: seq<Op>): nat {
    if ops == [] then 0 else ChunksForOp(ops[0]) + ChunksFor(ops[1..])
  }

  function RunLocal(s: State, op: Op): (s': State)
    requires op.Local?
    ensures |s'.regs| == |s.regs|
  {
    s.(pc := op.pc, regs := seq(|s.regs|, r requires 0 <= r < |s.regs| => if r in op.writes then op.writes[r] else s.regs[r]))
  }

  /** The stack id, the thread results and the size of the register file are as before; chunks were only added. */
  predicate KeepsStack(s: State, s': State, chunks: nat) {
    && s'.stk == s.stk && |s'.regs| == |s.regs| && s'.tres == s.tres
    && Canonical(s'.chunks) && s.chunks <= s'.chunks && |s'.chunks| <= |s.chunks| + chunks
  }

  /** However calls nest, a run leaves the stack id as it was and only adds chunks. */
  function Run(s: State, tid: nat, ops: seq<Op>): (s': State)
    requires RoomFor(s, ChunksFor(ops)) && OpsFit(ops, |s.regs|)
    ensures KeepsStack(s, s', ChunksFor(ops))
    decreases ops
  {
    if ops == [] then s
    else
      hide OpFits, ChunksForOp, Canonical;
      Run(RunOp(s, tid, ops[0]), tid, ops[1..])
  }

  function RunOp(s: State, tid: nat, op: Op): (s': State)
    requires RoomFor(s, ChunksForOp(op)) && OpFits(op, |s.regs|)
    ensures KeepsStack(s, s', ChunksForOp(op))
    decreases op
  {
    match op
    case Local(_, _) => RunLocal(s, op)
    case Call(direct, entry, params, args, result, body, ret) =>
      hide IsCallerFrame, FrameAt, Canonical, ArgsFit, OpsFit, ChunksFor, Invoke;
      var s1 := Invoke(s, direct, entry, params, args, result);
      var s2 := Run(s1, tid, body);
      assert s2.stk != 0 && FrameAt(s2) && ReturnRestores(s, s2, tid, ret, result) by { FrameStays(s, s1, s2, tid, ret, result); }
      hide Return;
      Return(s2, tid, ret)
  }

  /** Returning from s2 brings back what s had when it called. */
  predicate ReturnRestores(s: State, s2: State, tid: nat, ret: Ir.Option<Operand>, result: nat)
    requires FrameAt(s2)
  {
    var s' := Return(s2, tid, ret);
    && s'.pc == s.pc && s'.stk == s.stk && s'.tres == s2.tres && s'.chunks == s2.chunks && |s'.regs| == |s.regs|
    && forall r :: 0 <= r < |s.regs| ==>
         s'.regs[r] == if ret.Some? && r == result then Eval(ret.value, s2.regs) else s.regs[r]
  }

  lemma FrameStays(s: State, s1: State, s2: State, tid: nat, ret: Ir.Option<Operand>, result: nat)
    requires IsCallerFrame(s1, s, result) && s1.chunks <= s2.chunks && s2.stk == s1.stk
    requires |s.regs| == |s2.regs| && result < |s.regs|
    ensures s2.stk != 0 && FrameAt(s2) && ReturnRestores(s, s2, tid, ret, result)
  {
  }

  /**
   A call and everything that runs inside it, up to its return: pc, stack id and every register but the
   recorded one are as before, and that one holds the value returned.
   */
  lemma CallReturns(s: State, tid: nat, op: Op)
    requires op.Call? && RoomFor(s, ChunksForOp(op)) && OpFits(op, |s.regs|)
    ensures var s1 := Invoke(s, op.direct, op.entry, op.params, op.args, op.result);
            var s' := RunOp(s, tid, op);
            && RoomFor(s1, ChunksFor(op.body)) && OpsFit(op.body, |s1.regs|)
            && s'.pc == s.pc && s'.stk == s.stk
            && forall r :: 0 <= r < |s.regs| ==>
                 s'.regs[r] == if op.ret.Some? && r == op.result then Eval(op.ret.value, Run(s1, tid, op.body).regs) else s.regs[r]
  {
    hide IsCallerFrame, FrameAt, Canonical, Invoke;
    var s1 := Invoke(s, op.direct, op.entry, op.params, op.args, op.result);
    var s2 := Run(s1, tid, op.body);
    FrameStays(s, s1, s2, tid, op.ret, op.result);
  }

  /** Runs include all that a function may do to its registers: some run leaves any pc and any registers. */
  lemma RunsReachAnyRegisters(s: State, tid: nat, pc: int, regs: seq<int>)
    requires RoomFor(s, 0) && |regs| == |s.regs|
    ensures exists ops :: OpsFit(ops, |s.regs|) && ChunksFor(ops) == 0 && Run(s, tid, ops) == s.(pc := pc, regs := regs)
  {
    var op := Local(pc, map r: nat | r < |regs| :: regs[r]);
    var ops := [op];
    assert ops[1..] == [] && OpFits(op, |s.regs|) && ChunksForOp(op) == 0;
    assert OpsFit([], |s.regs|) && ChunksFor([]) == 0;
    assert RunLocal(s, op).regs == regs;
    var after := RunOp(s, tid, op);
    assert Run(s, tid, ops) == Run(after, tid, []);
  }

  /** A well-nested run leaves the stack it started on standing for the same frames. */
  lemma RunKeepsFrames(s: State, tid: nat, ops: seq<Op>, frames: seq<Frame>)
    requires RoomFor(s, ChunksFor(ops)) && OpsFit(ops, |s.regs|) && Represents(s.chunks, s.stk, frames)
    ensures var s' := Run(s, tid, ops); Represents(s'.chunks, s'.stk, frames)
  {
    RepresentsPersists(s.chunks, Run(s, tid, ops).chunks, s.stk, frames);
  }

  // ----- Arguments of direct calls -----

  predicate DistinctParams(params: seq<nat>) {
    forall i, j :: 0 <= i < j < |params| ==> params[i] != params[j]
  }

  /** Argument j is read from a parameter slot that an earlier argument has changed. */
  predicate Overlaps(params: seq<nat>, args: seq<Operand>, i: nat, j: nat)
    requires |args| <= |params|
  {
    i < j < |args| && args[j] == M.Reg(params[i]) && args[i] != M.Reg(params[i])
  }

  ghost predicate NoOverlap(params: seq<nat>, args: seq<Operand>)
    requires |args| <= |params|
  {
    forall i: nat, j: nat :: !Overlaps(params, args, i, j)
  }

  /** The parameter slots end up with what the call site means. */
  predicate PassesArgs(regs: seq<int>, params: seq<nat>, args: seq<Operand>)
    requires |args| <= |params| && SlotsFit(params, |regs|)
  {
    CopyInTurn(regs, params, args) == CopyAtOnce(regs, params, Values(args, regs))
  }

  /** A parameter slot holds its argument. */
  lemma {:induction false} CopiedSlot(regs: seq<int>, params: seq<nat>, values: seq<int>, k: nat)
    requires k < |values| <= |params| && DistinctParams(params) && SlotsFit(params, |regs|)
    ensures CopyAtOnce(regs, params, values)[params[k]] == values[k]
  {
    var last := |values| - 1;
    if k < last {
      CopiedSlot(regs, params, values[..last], k);
    }
  }

  /** Every other register is untouched. */
  lemma {:induction false} OtherRegister(regs: seq<int>, params: seq<nat>, values: seq<int>, r: nat)
    requires |values| <= |params| && SlotsFit(params, |regs|) && r < |regs|
    requires forall k :: 0 <= k < |values| ==> r != params[k]
    ensures CopyAtOnce(regs, params, values)[r] == regs[r]
  {
    if values != [] {
      OtherRegister(regs, params, values[..|values| - 1], r);
    }
  }

  /** The last argument means the same after the others were copied. */
  lemma LastArgUnaffected(regs: seq<int>, params: seq<nat>, args: seq<Operand>)
    requires 0 < |args| <= |params| && DistinctParams(params) && NoOverlap(params, args)
    requires SlotsFit(params, |regs|)
    ensures var init := args[..|args| - 1];
            Eval(args[|args| - 1], CopyAtOnce(regs, params, Values(init, regs))) == Eval(args[|args| - 1], regs)
  {
    var last := |args| - 1;
    var values := Values(args[..last], regs);
    var arg := args[last];
    if arg.Reg? && arg.index < |regs| {
      hide CopyAtOnce, NoOverlap, DistinctParams, SlotsFit;
      if k: nat :| k < last && params[k] == arg.index {
        OwnSlotOnly(params, args, k, last);
        CopiedSlot(regs, params, values, k);
      } else {
        OtherRegister(regs, params, values, arg.index);
      }
    }
  }

  lemma OwnSlotOnly(params: seq<nat>, args: seq<Operand>, i: nat, j: nat)
    requires i < j < |args| <= |params| && NoOverlap(params, args) && args[j] == M.Reg(params[i])
    ensures args[i] == M.Reg(params[i])
  {
    assert !Overlaps(params, args, i, j);
  }

  lemma NoOverlapInPrefix(params: seq<nat>, args: seq<Operand>, n: nat)
    requires n <= |args| <= |params| && NoOverlap(params, args)
    ensures NoOverlap(params, args[..n])
  {
    forall i: nat, j: nat
      ensures !Overlaps(params, args[..n], i, j)
    {
      assert !Overlaps(params, args, i, j);
    }
  }

  lemma {:induction false} NoOverlapCopies(regs: seq<int>, params: seq<nat>, args: seq<Operand>)
    requires |args| <= |params| && DistinctParams(params) && NoOverlap(params, args)
    requires SlotsFit(params, |regs|)
    ensures CopyInTurn(regs, params, args) == CopyAtOnce(regs, params, Values(args, regs))
  {
    hide NoOverlap, Eval;
    if args != [] {
      var last := |args| - 1;
      NoOverlapInPrefix(params, args, last);
      NoOverlapCopies(regs, params, args[..last]);
      LastArgUnaffected(regs, params, args);
      assert Values(args, regs)[..last] == Values(args[..last], regs);
    }
  }

  /** Registers on which copying in turn goes wrong. */
  function Telling(params: seq<nat>, args: seq<Operand>, i: nat, size: nat): (regs: seq<int>)
    requires i < |args| <= |params|
    ensures |regs| == size
  {
    seq(size, r => if r != params[i] then 0 else if args[i].Const? then args[i].value + 1 else 1)
  }

  lemma TellingDiffers(params: seq<nat>, args: seq<Operand>, i: nat, size: nat)
    requires i < |args| <= |params| && params[i] < size && args[i] != M.Reg(params[i])
    ensures var regs := Telling(params, args, i, size); Eval(args[i], regs) != regs[params[i]]
  {
  }

  /** Once the arguments before j are copied, the slot of parameter i holds another value than at first. */
  lemma SlotChanged(params: seq<nat>, args: seq<Operand>, i: nat, j: nat, size: nat)
    requires |args| <= |params| && DistinctParams(params) && Overlaps(params, args, i, j)
    requires SlotsFit(params, size)
    requires NoOverlap(params, args[..j])
    ensures var regs := Telling(params, args, i, size);
            CopyInTurn(regs, params, args[..j])[params[i]] != regs[params[i]]
  {
    var regs := Telling(params, args, i, size);
    TellingDiffers(params, args, i, size);
    NoOverlapCopies(regs, params, args[..j]);
    hide Telling, NoOverlap, CopyInTurn, CopyAtOnce;
    CopiedSlot(regs, params, Values(args[..j], regs), i);
    assert Values(args[..j], regs)[i] == Eval(args[i], regs);
  }

  lemma OverlapTells(params: seq<nat>, args: seq<Operand>, i: nat, j: nat, size: nat)
    requires |args| <= |params| && DistinctParams(params) && Overlaps(params, args, i, j)
    requires SlotsFit(params, size)
    requires NoOverlap(params, args[..j])
    ensures !PassesArgs(Telling(params, args, i, size), params, args[..j + 1])
  {
    var regs := Telling(params, args, i, size);
    SlotChanged(params, args, i, j, size);
    hide Telling, NoOverlap;
    var upTo := args[..j + 1];
    assert upTo[..j] == args[..j];
    assert CopyInTurn(regs, params, upTo)[params[j]] == Eval(args[j], CopyInTurn(regs, params, args[..j]));
    assert CopyAtOnce(regs, params, Values(upTo, regs))[params[j]] == Eval(args[j], regs);
  }

  /** Later copies do not repair a parameter slot. */
  lemma {:induction false} LaterCopiesKeep(regs: seq<int>, params: seq<nat>, args: seq<Operand>, n: nat)
    requires n <= |args| <= |params| && DistinctParams(params)
    requires SlotsFit(params, |regs|)
    requires PassesArgs(regs, params, args)
    ensures PassesArgs(regs, params, args[..n])
  {
    if n == |args| {
      assert args[..n] == args;
    } else {
      var last := |args| - 1;
      var init := args[..last];
      assert Values(args, regs)[..last] == Values(init, regs);
      var inTurn, atOnce := CopyInTurn(regs, params, init), CopyAtOnce(regs, params, Values(init, regs));
      forall r | 0 <= r < |regs|
        ensures inTurn[r] == atOnce[r]
      {
        if r == params[last] {
          UntouchedInTurn(regs, params, init, r);
          OtherRegister(regs, params, Values(init, regs), r);
        } else {
          assert inTurn[r] == CopyInTurn(regs, params, args)[r];
        }
      }
      LaterCopiesKeep(regs, params, init, n);
      assert init[..n] == args[..n];
    }
  }

  lemma {:induction false} UntouchedInTurn(regs: seq<int>, params: seq<nat>, args: seq<Operand>, r: nat)
    requires |args| <= |params| && r < |regs|
    requires SlotsFit(params, |regs|)
    requires forall k :: 0 <= k < |args| ==> r != params[k]
    ensures CopyInTurn(regs, params, args)[r] == regs[r]
  {
    if args != [] {
      UntouchedInTurn(regs, params, args[..|args| - 1], r);
    }
  }

  /** The first argument that overlaps an earlier one. */
  lemma {:induction false} FirstOverlap(params: seq<nat>, args: seq<Operand>) returns (i: nat, j: nat)
    requires |args| <= |params| && !NoOverlap(params, args)
    ensures Overlaps(params, args, i, j) && NoOverlap(params, args[..j])
  {
    var init := args[..|args| - 1];
    if NoOverlap(params, init) {
      i, j :| Overlaps(params, args, i, j);
      assert j < |init| ==> Overlaps(params, init, i, j);
    } else {
      i, j := FirstOverlap(params, init);
      assert init[..j] == args[..j];
    }
  }

  /**
   A direct call passes the arguments the call site means, on all register contents, exactly when no
   argument is read from the slot of an earlier parameter, unless that parameter got its own slot.
   */
  lemma DirectPassesArgsIff(params: seq<nat>, args: seq<Operand>, size: nat)
    requires |args| <= |params| && DistinctParams(params) && SlotsFit(params, size)
    ensures NoOverlap(params, args) <==>
            forall regs: seq<int> :: |regs| == size ==> PassesArgs(regs, params, args)
  {
    hide CopyInTurn, CopyAtOnce, Values, Telling, Eval;
    if NoOverlap(params, args) {
      forall regs: seq<int> | |regs| == size
        ensures PassesArgs(regs, params, args)
      {
        NoOverlapCopies(regs, params, args);
      }
    } else {
      var i, j := FirstOverlap(params, args);
      hide NoOverlap, Overlaps;
      var regs := Telling(params, args, i, size);
      OverlapTells(params, args, i, j, size);
      if PassesArgs(regs, params, args) {
        LaterCopiesKeep(regs, params, args, j + 1);
      }
    }
  }

  /** After the call, every parameter slot holds its argument as it was before, and nothing else has changed. */
  predicate Passed(s: State, s': State, params: seq<nat>, args: seq<Operand>)
    requires |args| <= |params| && SlotsFit(params, |s.regs|) && |s'.regs| == |s.regs|
  {
    && (forall k :: 0 <= k < |args| ==> s'.regs[params[k]] == Eval(args[k], s.regs))
    && OthersUntouched(s, s', params, |args|)
  }

  predicate OthersUntouched(s: State, s': State, params: seq<nat>, n: nat)
    requires n <= |params| && |s'.regs| == |s.regs|
  {
    forall r :: 0 <= r < |s.regs| && (forall k :: 0 <= k < n ==> params[k] != r) ==> s'.regs[r] == s.regs[r]
  }

  /** A call through a pointer passes its arguments. */
  lemma IndirectCallPasses(s: State, entry: int, params: seq<nat>, args: seq<Operand>, result: nat)
    requires RoomFor(s, 2) && ArgsFit(params, args, result, |s.regs|) && DistinctParams(params)
    ensures Passed(s, Invoke(s, false, entry, params, args, result), params, args)
  {
    hide SaveFrame, CopyAtOnce, Eval;
    SaveKeepsRegisters(s, result);
    CopyPasses(s.regs, params, args);
  }

  lemma SaveKeepsRegisters(s: State, result: nat)
    requires RoomFor(s, 2)
    ensures SaveFrame(s, result).regs == s.regs
  {
  }

  lemma CopyPasses(regs: seq<int>, params: seq<nat>, args: seq<Operand>)
    requires |args| <= |params| && SlotsFit(params, |regs|) && DistinctParams(params)
    ensures var copied := CopyAtOnce(regs, params, Values(args, regs));
            && (forall k :: 0 <= k < |args| ==> copied[params[k]] == Eval(args[k], regs))
            && forall r :: 0 <= r < |regs| && (forall k :: 0 <= k < |args| ==> params[k] != r) ==> copied[r] == regs[r]
  {
    hide CopyAtOnce, Eval, DistinctParams;
    var values := Values(args, regs);
    forall k | 0 <= k < |args|
      ensures CopyAtOnce(regs, params, values)[params[k]] == Eval(args[k], regs)
    {
      CopiedSlot(regs, params, values, k);
    }
    forall r | 0 <= r < |regs| && forall k :: 0 <= k < |args| ==> params[k] != r
      ensures CopyAtOnce(regs, params, values)[r] == regs[r]
    {
      OtherRegister(regs, params, values, r);
    }
  }

  /** The copies determine all registers. */
  lemma PassedIsCopied(s: State, s': State, params: seq<nat>, args: seq<Operand>)
    requires |args| <= |params| && SlotsFit(params, |s.regs|) && DistinctParams(params) && |s'.regs| == |s.regs|
    requires Passed(s, s', params, args)
    ensures s'.regs == CopyAtOnce(s.regs, params, Values(args, s.regs))
  {
    hide CopyAtOnce, Eval, DistinctParams;
    CopyPasses(s.regs, params, args);
    var copied := CopyAtOnce(s.regs, params, Values(args, s.regs));
    forall r | 0 <= r < |s.regs|
      ensures s'.regs[r] == copied[r]
    {
      if k :| 0 <= k < |args| && params[k] == r {
        assert s'.regs[params[k]] == copied[params[k]];
      }
    }
  }

  /**
   Argument k of a direct call that is read from the slot of an earlier parameter gets what that parameter got;
   every other argument gets what it was before the call.
   */
  predicate PassedInTurn(s: State, s': State, params: seq<nat>, args: seq<Operand>)
    requires |args| <= |params| && SlotsFit(params, |s.regs|) && |s'.regs| == |s.regs|
  {
    && (forall i, k :: 0 <= i < k < |args| && args[k] == M.Reg(params[i]) ==> s'.regs[params[k]] == s'.regs[params[i]])
    && (forall k :: 0 <= k < |args| && ReadsNoSlot(params, args, k) ==> s'.regs[params[k]] == Eval(args[k], s.regs))
    && OthersUntouched(s, s', params, |args|)
  }

  predicate ReadsNoSlot(params: seq<nat>, args: seq<Operand>, k: nat)
    requires k < |args| <= |params|
  {
    forall i :: 0 <= i < k ==> args[k] != M.Reg(params[i])
  }

  lemma DirectCallPassesInTurn(s: State, entry: int, params: seq<nat>, args: seq<Operand>, result: nat)
    requires RoomFor(s, 2) && ArgsFit(params, args, result, |s.regs|) && DistinctParams(params)
    ensures PassedInTurn(s, Invoke(s, true, entry, params, args, result), params, args)
  {
    hide SaveFrame, CopyInTurn, Eval, DistinctParams;
    SaveKeepsRegisters(s, result);
    forall k: nat | k < |args|
      ensures var copied := CopyInTurn(s.regs, params, args);
              && (ReadsNoSlot(params, args, k) ==> copied[params[k]] == Eval(args[k], s.regs))
              && forall i: nat :: i < k && args[k] == M.Reg(params[i]) ==> copied[params[k]] == copied[params[i]]
    {
      InTurnSlot(s.regs, params, args, k);
    }
    forall r | 0 <= r < |s.regs| && forall k :: 0 <= k < |args| ==> params[k] != r
      ensures CopyInTurn(s.regs, params, args)[r] == s.regs[r]
    {
      UntouchedInTurn(s.regs, params, args, r);
    }
  }

  lemma {:induction false} InTurnSlot(regs: seq<int>, params: seq<nat>, args: seq<Operand>, k: nat)
    requires k < |args| <= |params| && SlotsFit(params, |regs|) && DistinctParams(params)
    ensures var copied := CopyInTurn(regs, params, args);
            && (ReadsNoSlot(params, args, k) ==> copied[params[k]] == Eval(args[k], regs))
            && forall i: nat :: i < k && args[k] == M.Reg(params[i]) ==> copied[params[k]] == copied[params[i]]
  {
    var last := |args| - 1;
    var before := CopyInTurn(regs, params, args[..last]);
    if k < last {
      InTurnSlot(regs, params, args[..last], k);
    } else if ReadsNoSlot(params, args, k) && args[k].Reg? && args[k].index < |regs| {
      UntouchedInTurn(regs, params, args[..last], args[k].index);
    }
  }

  /**
   A direct call passes the arguments the call site means, in every state, exactly when no argument is read from
   the slot of an earlier parameter, unless that parameter got its own slot.
   */
  lemma DirectCallPassesIff(entry: int, params: seq<nat>, args: seq<Operand>, result: nat, size: nat)
    requires ArgsFit(params, args, result, size) && DistinctParams(params)
    ensures NoOverlap(params, args) <==>
            forall s: State :: |s.regs| == size && RoomFor(s, 2) ==> Passed(s, Invoke(s, true, entry, params, args, result), params, args)
  {
    hide NoOverlap, SaveFrame, CopyInTurn, CopyAtOnce, Values, Eval, DistinctParams;
    DirectPassesArgsIff(params, args, size);
    if NoOverlap(params, args) {
      forall s: State | |s.regs| == size && RoomFor(s, 2)
        ensures Passed(s, Invoke(s, true, entry, params, args, result), params, args)
      {
        SaveKeepsRegisters(s, result);
        CopyPasses(s.regs, params, args);
      }
    }
    if forall s: State :: |s.regs| == size && RoomFor(s, 2) ==> Passed(s, Invoke(s, true, entry, params, args, result), params, args) {
      forall regs: seq<int> | |regs| == size
        ensures PassesArgs(regs, params, args)
      {
        var s := State(0, 0, regs, [], map[]);
        SaveKeepsRegisters(s, result);
        PassedIsCopied(s, Invoke(s, true, entry, params, args, result), params, args);
      }
    }
  }

  /** f(x, y) calling f(y, x) directly: both parameters end up with y. */
  lemma SwappedArgumentsAreLost(x: int, y: int)
    ensures CopyInTurn([x, y], [0, 1], [M.Reg(1), M.Reg(0)]) == [y, y]
    ensures CopyAtOnce([x, y], [0, 1], Values([M.Reg(1), M.Reg(0)], [x, y])) == [y, x]
  {
    var args := [M.Reg(1), M.Reg(0)];
    var values := Values(args, [x, y]);
    assert args[..1][..0] == [] && values[..1][..0] == [];
    assert CopyInTurn([x, y], [0, 1], args[..1]) == [y, y];
    assert CopyAtOnce([x, y], [0, 1], values[..1]) == [y, y];
  }

  // ----- The code -----

  /** One process of the state vector, with the shared chunk store and thread results. */
  class Process {
    const tid: nat
    const regs: array<int>
    var pc: int
    var stk: nat
    var chunks: Chunks
    var tres: map<nat, int>

    constructor (tid: nat, size: nat, chunks: Chunks, tres: map<nat, int>)
      ensures Snapshot() == State(0, 0, seq(size, _ => 0), chunks, tres) && this.tid == tid && fresh(regs)
    {
      this.tid, this.chunks, this.tres := tid, chunks, tres;
      pc, stk := 0, 0;
      regs := new int[size](_ => 0);
      new;
      assert regs[..] == seq(size, _ => 0);
    }

    function Snapshot(): (s: State)
      reads this, regs
    {
      State(pc, stk, regs[..], chunks, tres)
    }

    method PutChunk(c: seq<int>) returns (id: nat)
      requires Canonical(chunks) && |chunks| < LENGTH_UNIT
      modifies this`chunks
      ensures (chunks, id) == Put(old(chunks), c)
    {
      var (chunks', id') := Put(chunks, c);
      chunks, id := chunks', id';
    }

    /** Uploads the registers and a frame, and puts the frame on the stack. */
    method PushFrame(result: nat)
      requires RoomFor(Snapshot(), 2)
      modifies this`stk, this`chunks
      ensures Snapshot() == SaveFrame(old(Snapshot()), result)
    {
      var regsId := PutChunk(regs[..]);
      var frameId := PutChunk([pc, regsId, result, stk]);
      stk := frameId;
    }

    /** A call of a named function. */
    method PushDirect(entry: int, params: seq<nat>, args: seq<Operand>, result: nat)
      requires RoomFor(Snapshot(), 2) && ArgsFit(params, args, result, regs.Length)
      modifies this`pc, this`stk, this`chunks, regs
      ensures Snapshot() == Invoke(old(Snapshot()), true, entry, params, args, result)
      ensures DistinctParams(params) ==> PassedInTurn(old(Snapshot()), Snapshot(), params, args)
    {
      if DistinctParams(params) {
        DirectCallPassesInTurn(Snapshot(), entry, params, args, result);
      }
      PushFrame(result);
      ghost var saved := Snapshot();
      var k := 0;
      while k < |args|
        invariant k <= |args|
        invariant Snapshot() == saved.(regs := CopyInTurn(saved.regs, params, args[..k]))
      {
        assert args[..k + 1][..k] == args[..k];
        regs[params[k]] := Eval(args[k], regs[..]);
        k := k + 1;
      }
      assert args[..k] == args;
      pc := entry;
    }

    /** A call through a pointer; the caller has loaded all arguments before. */
    method PushIndirect(entry: int, params: seq<nat>, args: seq<Operand>, result: nat)
      requires RoomFor(Snapshot(), 2) && ArgsFit(params, args, result, regs.Length)
      modifies this`pc, this`stk, this`chunks, regs
      ensures Snapshot() == Invoke(old(Snapshot()), false, entry, params, args, result)
      ensures DistinctParams(params) ==> Passed(old(Snapshot()), Snapshot(), params, args)
    {
      if DistinctParams(params) {
        IndirectCallPasses(Snapshot(), entry, params, args, result);
      }
      var values := Values(args, regs[..]);
      PushFrame(result);
      ghost var saved := Snapshot();
      var k := 0;
      while k < |args|
        invariant k <= |args|
        invariant Snapshot() == saved.(regs := CopyAtOnce(saved.regs, params, values[..k]))
      {
        assert values[..k + 1][..k] == values[..k];
        regs[params[k]] := values[k];
        k := k + 1;
      }
      assert values[..k] == values;
      pc := entry;
    }

    /** Copies the first `length` registers from a downloaded chunk. */
    method CopyRegisters(data: seq<int>, length: nat)
      requires length <= |data| && length <= regs.Length
      modifies regs
      ensures regs[..] == data[..length] + old(regs[..])[length..]
    {
      var k := 0;
      while k < length
        invariant k <= length
        invariant forall j :: 0 <= j < k ==> regs[j] == data[j]
        invariant forall j :: k <= j < regs.Length ==> regs[j] == old(regs[j])
      {
        regs[k] := data[k];
        k := k + 1;
      }
    }

    /** A return, with or without a value. */
    method Pop(ret: Ir.Option<Operand>)
      requires stk != 0 ==> FrameAt(Snapshot())
      modifies this`pc, this`stk, this`tres, regs
      ensures Snapshot() == Return(old(Snapshot()), tid, ret)
    {
      var value := if ret.Some? then Eval(ret.value, regs[..]) else 0;
      if stk != 0 {
        var frame := Get(chunks, stk);
        stk := frame[3];
        pc := frame[0];
        var saved := Get(chunks, frame[1]);
        CopyRegisters(saved, LengthOf(frame[1]));
        assert regs[..] == saved;
        if ret.Some? {
          regs[frame[2]] := value;
        }
      } else {
        pc := 0;
        CopyRegisters(seq(regs.Length, _ => 0), regs.Length);
        assert regs[..] == seq(regs.Length, _ => 0);
        if ret.Some? {
          tres := tres[tid := value];
        }
      }
    }
  }
}
