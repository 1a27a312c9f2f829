/**
 The machine's memory accesses are those of the emitted code. The machine keeps one value per cell; the emitted
 code keeps bytes, and a cell is a block of eight of them.
 */
module Cells {
  import Ir
  import M = Machine
  import B = Memory

  // ----- Words as bytes -----

  /** The n low bytes, lowest first. */
  function BytesOf(v: nat, n: nat): (bytes: seq<B.Byte>)
    ensures |bytes| == n
    decreases n
  {
    if n == 0 then [] else [(v % 256) as B.Byte] + BytesOf(v / 256, n - 1)
  }

  function ValueOf(bytes: seq<B.Byte>): nat {
    if bytes == [] then 0 else bytes[0] as nat + 256 * ValueOf(bytes[1..])
  }

  function Bound(n: nat): nat {
    if n == 0 then 1 else 256 * Bound(n - 1)
  }

  lemma {:induction false} BytesComeBack(v: nat, n: nat)
    requires v < Bound(n)
    ensures ValueOf(BytesOf(v, n)) == v
    decreases n
  {
    if n > 0 {
      BytesComeBack(v / 256, n - 1);
      assert BytesOf(v, n)[1..] == BytesOf(v / 256, n - 1);
    }
  }

  predicate IsWord(v: int) { 0 <= v < Bound(8) }

  function Bytes(v: nat): (bytes: seq<B.Byte>)
    ensures |bytes| == 8
  {
    BytesOf(v, 8)
  }

  /** Words are equal exactly if their bytes are. */
  lemma WordsDiffer(v: nat, w: nat)
    requires IsWord(v) && IsWord(w)
    ensures ValueOf(Bytes(v)) == v && (Bytes(v) == Bytes(w) <==> v == w)
  {
    BytesComeBack(v, 8);
    BytesComeBack(w, 8);
  }

  // ----- Memory in both forms -----

  /** No two cells share a byte. */
  predicate SpacedOut(cells: set<nat>) {
    forall a, b :: a in cells && b in cells && a != b ==> a + 8 <= b || b + 8 <= a
  }

  /** The bytes of each of these cells are its value. */
  predicate StandsFor(f: B.Flat, mem: map<int, int>, cells: set<nat>) {
    SpacedOut(cells) && forall a: nat :: a in cells ==> CellFits(f, mem, a)
  }

  predicate CellFits(f: B.Flat, mem: map<int, int>, a: nat) {
    IsWord(M.ReadCell(mem, a)) && B.FlatRead(f, a, 8) == Bytes(M.ReadCell(mem, a))
  }

  lemma {:induction false} NoBytesSet(bytes: seq<B.Byte>)
    requires forall k :: 0 <= k < |bytes| ==> bytes[k] == 0
    ensures bytes == BytesOf(0, |bytes|)
  {
    if bytes != [] {
      NoBytesSet(bytes[1..]);
      assert bytes == [bytes[0]] + bytes[1..];
    }
  }

  /** Memories in which nothing has been written stand for a machine's memory in which nothing has. */
  lemma FreshMemoriesStandFor(n: nat, cells: set<nat>)
    requires SpacedOut(cells)
    ensures StandsFor(B.Meaning(seq(n, _ => [])), map[], cells)
  {
    var f := B.Meaning(seq(n, _ => []));
    forall a: nat | a in cells
      ensures CellFits(f, map[], a)
    {
      NoBytesSet(B.FlatRead(f, a, 8));
    }
  }

  /** Writing the bytes of a word is writing the cell. */
  lemma WriteStandsFor(f: B.Flat, mem: map<int, int>, cells: set<nat>, a: nat, v: nat)
    requires StandsFor(f, mem, cells) && a in cells && IsWord(v)
    ensures StandsFor(B.FlatWrite(f, a, Bytes(v)), mem[a := v], cells)
  {
    hide Bytes, IsWord;
    var g := B.FlatWrite(f, a, Bytes(v));
    forall c: nat | c in cells
      ensures CellFits(g, mem[a := v], c)
    {
      assert CellFits(f, mem, c);
      if c == a {
        assert B.FlatRead(g, c, 8) == Bytes(v);
      } else {
        assert B.FlatRead(g, c, 8) == B.FlatRead(f, c, 8);
      }
    }
  }

  // ----- One instruction -----

  /** Process p is at the instruction. */
  predicate At(P: M.Program, s: M.State, p: nat, b: nat, i: nat) {
    p < |s.procs| && s.procs[p].pc == M.At(b, i) && M.Inside(P, b, i)
  }

  /** Only p's pc, which is set behind the instruction, its registers and the memory differ. */
  predicate Accessed(P: M.Program, s: M.State, s': M.State, p: nat, b: nat, i: nat)
    requires M.Inside(P, b, i)
  {
    && p < |s.procs| == |s'.procs|
    && s' == s.(mem := s'.mem, procs := s.procs[p := s.procs[p].(pc := M.NextPc(P, b, i), regs := s'.procs[p].regs)])
  }

  /** No register but these has changed. */
  ghost predicate OnlyRegisters(before: M.Registers, after: M.Registers, written: set<nat>) {
    forall r: nat :: r !in written ==> M.Get(after, r) == M.Get(before, r)
  }

  lemma FitsAt(f: B.Flat, mem: map<int, int>, cells: set<nat>, a: nat)
    requires StandsFor(f, mem, cells) && a in cells
    ensures IsWord(M.ReadCell(mem, a)) && B.FlatRead(f, a, 8) == Bytes(M.ReadCell(mem, a))
  {
    hide IsWord, Bytes;
    assert CellFits(f, mem, a);
  }

  lemma LoadStep(P: M.Program, s: M.State, p: nat, b: nat, i: nat)
    requires At(P, s, p, b, i) && P.blocks[b][i].Load?
    ensures var r, instr, regs := M.InstrStep(P, s, p), P.blocks[b][i], s.procs[p].regs;
            && r.Next? && r.events == [] && Accessed(P, s, r.s, p, b, i) && r.s.mem == s.mem
            && r.s.procs[p].regs == regs[instr.dst := M.ReadCell(s.mem, M.Eval(regs, instr.ptr))]
  {
    hide M.ReadCell, M.Eval;
  }

  lemma CmpXchgStep(P: M.Program, s: M.State, p: nat, b: nat, i: nat)
    requires At(P, s, p, b, i) && P.blocks[b][i].CmpXchg? && P.blocks[b][i].dst != P.blocks[b][i].dstSuccess
    ensures var r, instr, regs := M.InstrStep(P, s, p), P.blocks[b][i], s.procs[p].regs;
            var a := M.Eval(regs, instr.ptr);
            var found := M.ReadCell(s.mem, a);
            var success := found == M.Eval(regs, instr.expected);
            && r.Next? && r.events == [] && Accessed(P, s, r.s, p, b, i)
            && r.s.mem == (if success then s.mem[a := M.Eval(regs, instr.desired)] else s.mem)
            && M.Get(r.s.procs[p].regs, instr.dst) == found
            && M.Get(r.s.procs[p].regs, instr.dstSuccess) == (if success then 1 else 0)
            && OnlyRegisters(regs, r.s.procs[p].regs, {instr.dst, instr.dstSuccess})
  {
    hide M.ReadCell, M.Eval;
  }

  lemma CreateStep(P: M.Program, s: M.State, p: nat, b: nat, i: nat, slot: nat)
    requires At(P, s, p, b, i) && P.blocks[b][i].ThreadCreate? && slot < |s.procs| && slot != p
    requires i + 1 < |P.blocks[b]| && s.threadsStarted + 1 < M.TWO32
    requires M.FreeSlot(M.SetPc(s, p, M.At(b, i + 1)).procs, 0) == Ir.Some(slot)
    ensures var r, tid, instr := M.InstrStep(P, s, p), s.threadsStarted + 1, P.blocks[b][i];
            && r.Next? && r.events == [M.Created(tid)] && |r.s.procs| == |s.procs|
            && r.s.threadsStarted == tid && r.s.status == s.status && r.s.tres == s.tres
            && r.s.mem == s.mem[M.Eval(s.procs[p].regs, instr.ptr) := tid]
            && r.s.procs[p] == s.procs[p].(pc := M.At(b, i + 1))
            && Started(s.procs[slot], r.s.procs[slot], instr.entry, M.Eval(s.procs[p].regs, instr.arg), tid)
            && forall q :: 0 <= q < |s.procs| && q != p && q != slot ==> r.s.procs[q] == s.procs[q]
  {
    hide M.FreeSlot, M.Eval;
  }

  /** A load gives the value of the bytes in memory. */
  lemma LoadReadsBytes(P: M.Program, s: M.State, p: nat, b: nat, i: nat, f: B.Flat, cells: set<nat>, a: nat)
    requires At(P, s, p, b, i) && P.blocks[b][i].Load? && M.Eval(s.procs[p].regs, P.blocks[b][i].ptr) == a
    requires StandsFor(f, s.mem, cells) && a in cells
    ensures var r, dst := M.InstrStep(P, s, p), P.blocks[b][i].dst;
            && r.Next? && r.events == [] && Accessed(P, s, r.s, p, b, i) && r.s.mem == s.mem
            && M.Get(r.s.procs[p].regs, dst) == ValueOf(B.FlatRead(f, a, 8))
            && OnlyRegisters(s.procs[p].regs, r.s.procs[p].regs, {dst})
  {
    FitsAt(f, s.mem, cells, a);
    WordsDiffer(M.ReadCell(s.mem, a), M.ReadCell(s.mem, a));
    LoadStep(P, s, p, b, i);
    hide IsWord, Bytes, ValueOf, StandsFor, M.InstrStep, M.ReadCell;
  }

  /** A store writes the value's bytes. */
  lemma StoreWritesBytes(P: M.Program, s: M.State, p: nat, b: nat, i: nat, f: B.Flat, cells: set<nat>, a: nat, v: nat)
    requires At(P, s, p, b, i) && P.blocks[b][i].Store? && M.Eval(s.procs[p].regs, P.blocks[b][i].ptr) == a
    requires M.Eval(s.procs[p].regs, P.blocks[b][i].val) == v && IsWord(v)
    requires StandsFor(f, s.mem, cells) && a in cells
    ensures var r := M.InstrStep(P, s, p);
            && r.Next? && r.events == [] && Accessed(P, s, r.s, p, b, i)
            && StandsFor(B.FlatWrite(f, a, Bytes(v)), r.s.mem, cells)
            && OnlyRegisters(s.procs[p].regs, r.s.procs[p].regs, {})
  {
    WriteStandsFor(f, s.mem, cells, a, v);
    hide IsWord, Bytes, StandsFor;
  }

  /**
   A cmpxchg succeeds exactly if the bytes in memory are those of the expected value, and then writes those of the
   desired one. It reports the value found, and 1 or 0 for success.
   */
  lemma CmpXchgComparesBytes(P: M.Program, s: M.State, p: nat, b: nat, i: nat, f: B.Flat, cells: set<nat>,
                             a: nat, want: nat, desired: nat)
    requires At(P, s, p, b, i) && P.blocks[b][i].CmpXchg? && P.blocks[b][i].dst != P.blocks[b][i].dstSuccess
    requires var instr, regs := P.blocks[b][i], s.procs[p].regs;
             M.Eval(regs, instr.ptr) == a && M.Eval(regs, instr.expected) == want && M.Eval(regs, instr.desired) == desired
    requires IsWord(want) && IsWord(desired) && StandsFor(f, s.mem, cells) && a in cells
    ensures var r, instr, found := M.InstrStep(P, s, p), P.blocks[b][i], B.FlatRead(f, a, 8);
            && r.Next? && r.events == [] && Accessed(P, s, r.s, p, b, i)
            && var regs, success := r.s.procs[p].regs, found == Bytes(want);
               && M.Get(regs, instr.dst) == ValueOf(found) && M.Get(regs, instr.dstSuccess) == (if success then 1 else 0)
               && OnlyRegisters(s.procs[p].regs, regs, {instr.dst, instr.dstSuccess})
               && StandsFor(if success then B.FlatWrite(f, a, Bytes(desired)) else f, r.s.mem, cells)
  {
    FitsAt(f, s.mem, cells, a);
    WordsDiffer(M.ReadCell(s.mem, a), want);
    CmpXchgStep(P, s, p, b, i);
    hide *;
    WriteStandsFor(f, s.mem, cells, a, desired);
  }

  /** A join that goes on with a place for the result writes the result's bytes there. */
  lemma JoinWritesBytes(P: M.Program, s: M.State, p: nat, b: nat, i: nat, f: B.Flat, cells: set<nat>, a: nat)
    requires At(P, s, p, b, i) && P.blocks[b][i].ThreadJoin?
    requires var instr, regs := P.blocks[b][i], s.procs[p].regs[P.blocks[b][i].dst := 0];
             var result := M.ReadResult(s.tres, M.Eval(regs, instr.tid));
             result.status != 0 && M.Eval(regs, instr.resultPtr) == a && IsWord(result.value)
    requires StandsFor(f, s.mem, cells) && (a != 0 ==> a in cells)
    ensures var r, instr, regs := M.InstrStep(P, s, p), P.blocks[b][i], s.procs[p].regs[P.blocks[b][i].dst := 0];
            var value := M.ReadResult(s.tres, M.Eval(regs, instr.tid)).value;
            && r.Next? && r.events == [M.Joined(M.Eval(regs, instr.tid), value)] && Accessed(P, s, r.s, p, b, i)
            && M.Get(r.s.procs[p].regs, instr.dst) == 0 && OnlyRegisters(s.procs[p].regs, r.s.procs[p].regs, {instr.dst})
            && StandsFor(if a != 0 then B.FlatWrite(f, a, Bytes(value)) else f, r.s.mem, cells)
  {
    var instr, regs := P.blocks[b][i], s.procs[p].regs[P.blocks[b][i].dst := 0];
    if a != 0 {
      WriteStandsFor(f, s.mem, cells, a, M.ReadResult(s.tres, M.Eval(regs, instr.tid)).value);
    }
    hide IsWord, Bytes, StandsFor;
  }

  /** A join on a thread that has not returned cannot go on. */
  lemma JoinWaits(P: M.Program, s: M.State, p: nat, b: nat, i: nat)
    requires At(P, s, p, b, i) && P.blocks[b][i].ThreadJoin?
    ensures var instr, regs := P.blocks[b][i], s.procs[p].regs[P.blocks[b][i].dst := 0];
            M.InstrStep(P, s, p).Blocked? <==> M.ReadResult(s.tres, M.Eval(regs, instr.tid)).status == 0
  {
  }

  /**
   A pthread_create writes the new id's bytes for its caller and starts the thread in the first free slot, with its
   argument in register 0 and an empty stack.
   */
  lemma CreateWritesBytes(P: M.Program, s: M.State, p: nat, b: nat, i: nat, f: B.Flat, cells: set<nat>, a: nat, slot: nat)
    requires At(P, s, p, b, i) && P.blocks[b][i].ThreadCreate? && M.Eval(s.procs[p].regs, P.blocks[b][i].ptr) == a
    requires slot < |s.procs| && slot != p && s.procs[slot].pc == M.Halted && forall q :: 0 <= q < slot && q != p ==> s.procs[q].pc != M.Halted
    requires i + 1 < |P.blocks[b]| && s.threadsStarted + 1 < M.TWO32 && StandsFor(f, s.mem, cells) && a in cells
    ensures var r, tid := M.InstrStep(P, s, p), s.threadsStarted + 1;
            && r.Next? && r.events == [M.Created(tid)] && |r.s.procs| == |s.procs|
            && r.s.threadsStarted == tid && r.s.status == s.status && r.s.tres == s.tres
            && StandsFor(B.FlatWrite(f, a, Bytes(tid)), r.s.mem, cells)
            && r.s.procs[p] == s.procs[p].(pc := M.At(b, i + 1))
            && Started(s.procs[slot], r.s.procs[slot], P.blocks[b][i].entry, M.Eval(s.procs[p].regs, P.blocks[b][i].arg), tid)
            && forall q :: 0 <= q < |s.procs| && q != p && q != slot ==> r.s.procs[q] == s.procs[q]
  {
    hide IsWord, Bytes, StandsFor, M.InstrStep, M.FreeSlot;
    SmallIdsAreWords(s.threadsStarted + 1);
    WriteStandsFor(f, s.mem, cells, a, s.threadsStarted + 1);
    FirstFree(M.SetPc(s, p, M.At(b, i + 1)).procs, 0, slot);
    CreateStep(P, s, p, b, i, slot);
  }

  lemma SmallIdsAreWords(tid: nat)
    requires tid < M.TWO32
    ensures IsWord(tid)
  {
    assert Bound(8) == 256 * 256 * 256 * 256 * 256 * 256 * 256 * 256;
  }

  lemma {:induction false} FirstFree(procs: seq<M.Proc>, i: nat, slot: nat)
    requires i <= slot < |procs| && procs[slot].pc == M.Halted && forall q :: i <= q < slot ==> procs[q].pc != M.Halted
    ensures M.FreeSlot(procs, i) == Ir.Some(slot)
    decreases slot - i
  {
    if i < slot {
      FirstFree(procs, i + 1, slot);
    }
  }

  /** What the slot of a new thread is, where the slot was before. */
  ghost predicate Started(before: M.Proc, after: M.Proc, entry: nat, arg: int, tid: nat) {
    && after.pc == M.At(entry, 0) && after.stack == [] && after.tid == tid && after.msize == before.msize
    && M.Get(after.regs, 0) == arg && OnlyRegisters(before.regs, after.regs, {0})
  }
}
