/**
 The per-process bump allocators along every run: when what alloca and malloc hand out does not overlap,
 whichever slots the processes reuse. A process's memory size has 32 bits and wraps.
 */
module Allocation {
  import opened Machine
  import opened PcClosure
  import opened GlobalStatus
  import opened RunInvariants

  /** Everything process p has requested, without a wrap, on top of the globals for process 0. */
  function Requested(g: nat, log: seq<Event>, p: nat): nat {
    if log == [] then (if p == 0 then g else 0)
    else
      var e := log[|log| - 1];
      Requested(g, log[..|log| - 1], p) + (if e.Allocated? && e.pid == p then e.size else 0)
  }

  lemma RequestedOneMore(g: nat, log: seq<Event>, e: Event, p: nat)
    ensures Requested(g, log + [e], p) == Requested(g, log, p) + (if e.Allocated? && e.pid == p then e.size else 0)
  {
    assert (log + [e])[..|log|] == log;
  }

  /** Blocks start where the requests before them end, modulo 2^32. */
  predicate OffsetsFit(g: nat, log: seq<Event>) {
    log == [] || (OffsetsFit(g, log[..|log| - 1]) && OffsetFits(g, log[..|log| - 1], log[|log| - 1]))
  }

  predicate OffsetFits(g: nat, before: seq<Event>, e: Event) {
    e.Allocated? ==> e.offset == Requested(g, before, e.pid) % TWO32
  }

  lemma OffsetsOneMore(g: nat, log: seq<Event>, e: Event)
    ensures OffsetsFit(g, log + [e]) <==> OffsetsFit(g, log) && OffsetFits(g, log, e)
  {
    assert (log + [e])[..|log|] == log;
  }

  predicate AllocationsFit(g: nat, s: State, log: seq<Event>) {
    && OffsetsFit(g, log)
    && forall q :: 0 <= q < |s.procs| ==> s.procs[q].msize == Requested(g, log, q) % TWO32
  }

  // ----- What instructions keep -----

  predicate SameSizes(s: State, s': State) {
    |s'.procs| == |s.procs| && forall q :: 0 <= q < |s.procs| ==> s'.procs[q].msize == s.procs[q].msize
  }

  lemma OtherEventsKeep(g: nat, s: State, log: seq<Event>, s': State, events: seq<Event>)
    requires AllocationsFit(g, s, log) && SameSizes(s, s')
    requires events == [] || (|events| == 1 && !events[0].Allocated?)
    ensures AllocationsFit(g, s', log + events)
  {
    if events == [] {
      assert log + events == log;
    } else {
      assert events == [events[0]];
      OffsetsOneMore(g, log, events[0]);
      forall q: nat
        ensures Requested(g, log + events, q) == Requested(g, log, q)
      {
        RequestedOneMore(g, log, events[0], q);
      }
      hide Requested, OffsetsFit;
    }
  }

  lemma AddModulo(a: nat, b: nat)
    ensures (a % TWO32 + b % TWO32) % TWO32 == (a + b) % TWO32
  {
  }

  lemma AllocateKeeps(g: nat, s: State, log: seq<Event>, p: nat, dst: nat, size: nat, s': State)
    requires AllocationsFit(g, s, log) && p < |s.procs|
    requires s'.procs == s.procs[p := Allocate(p, s.procs[p], dst, size).proc]
    ensures AllocationsFit(g, s', log + Allocate(p, s.procs[p], dst, size).events)
  {
    var e := Allocated(p, s.procs[p].msize, size);
    OffsetsOneMore(g, log, e);
    AddModulo(Requested(g, log, p), size);
    forall q: nat
      ensures Requested(g, log + [e], q) == Requested(g, log, q) + (if q == p then size else 0)
    {
      RequestedOneMore(g, log, e, q);
    }
    hide Requested, OffsetsFit;
  }

  lemma LocalKeepsSize(P: Program, p: nat, b: nat, q: Proc, instr: Instr)
    requires IsLocal(instr) && !instr.Alloca? && !instr.Malloc?
    ensures var out := ExecLocal(P, p, b, q, instr);
            out.proc.msize == q.msize && (out.events == [] || (|out.events| == 1 && !out.events[0].Allocated?))
  {
    hide EnterBlock, PassArgs;
  }

  lemma InstructionKeeps(g: nat, P: Program, s: State, log: seq<Event>, p: nat, b: nat, i: nat)
    requires p < |s.procs| && Inside(P, b, i) && AllocationsFit(g, s, log)
    ensures var r := Exec(P, s, p, b, i); r.Next? ==> AllocationsFit(g, r.s, log + r.events)
  {
    hide AllocationsFit;
    var instr, r := P.blocks[b][i], Exec(P, s, p, b, i);
    var q := s.procs[p];
    if instr.Alloca? {
      AllocateKeeps(g, s, log, p, instr.dst, instr.size, r.s);
    } else if instr.Malloc? {
      AllocateKeeps(g, s, log, p, instr.dst, Eval(q.regs, instr.bytes) % TWO64, r.s);
    } else {
      if IsLocal(instr) {
        LocalKeepsSize(P, p, b, q, instr);
        hide ExecLocal;
      }
      if r.Next? {
        OtherEventsKeep(g, s, log, r.s, r.events);
      }
    }
  }

  // ----- Runs -----

  ghost function Fits(g: nat): Invariant {
    (s: State, log: seq<Event>, p: int) => AllocationsFit(g, s, log)
  }

  lemma FitsIsKept(g: nat, P: Program)
    ensures KeptByPc(Fits(g)) && KeptByInstructions(P, Fits(g))
  {
    hide Exec, Plain, OffsetsFit, Requested;
    forall s: State, log, p: int, b: int, i: int
      | 0 <= p < |s.procs| && 0 <= b && 0 <= i && Inside(P, b, i) && Exec(P, s, p, b, i).Next? && Fits(g)(s, log, p)
      ensures var r := Exec(P, s, p, b, i);
              && (Plain(P.blocks[b][i]) ==> Fits(g)(r.s, log + r.events, p))
              && ((P.blocks[b][i].ThreadCreate? ==> s.procs[p].pc != Halted) ==> Fits(g)(r.s, log + r.events, -1))
    {
      hide AllocationsFit;
      InstructionKeeps(g, P, s, log, p, b, i);
    }
  }

  lemma SuccessorKeepsAllocations(M: Model, s: State, log: seq<Event>, s': State, events: seq<Event>)
    requires ValidModel(M) && AllocationsFit(M.globalsSize, s, log) && Successor(M, s, s', events)
    ensures AllocationsFit(M.globalsSize, s', log + events)
  {
    hide Steps, NoneSteps, AllocationsFit, KeptByInstructions, KeptByPc;
    if p: nat :| Steps(M.program, s, p, s', events) {
      FitsIsKept(M.globalsSize, M.program);
      StepKeeps(M.program, Fits(M.globalsSize), s, log, p, s', events);
    } else {
      OtherEventsKeep(M.globalsSize, s, log, s', events);
    }
  }

  lemma {:induction false} ReachableFits(M: Model, n: nat, s: State, log: seq<Event>)
    requires ValidModel(M) && Reachable(M, n, s, log)
    ensures AllocationsFit(M.globalsSize, s, log)
  {
    hide Successor;
    if n > 0 {
      hide AllocationsFit, ValidModel;
      var s0, log0, events :| Reachable(M, n - 1, s0, log0) && Successor(M, s0, s, events) && log == log0 + events;
      ReachableFits(M, n - 1, s0, log0);
      SuccessorKeepsAllocations(M, s0, log0, s, events);
    }
  }

  // ----- Blocks -----

  /** Address a belongs to the block that the event allocated. */
  predicate InBlock(e: Event, a: int)
    requires e.Allocated?
  {
    MakePointer(e.pid, e.offset) <= a < MakePointer(e.pid, e.offset) + e.size
  }

  /** Address a belongs to the globals, which start process 0's memory. */
  predicate InGlobals(g: nat, a: int) {
    MakePointer(0, 0) <= a < MakePointer(0, 0) + g
  }

  /** Event i allocated at least one byte. */
  predicate Block(log: seq<Event>, i: nat) {
    i < |log| && log[i].Allocated? && log[i].size > 0
  }

  /** Address a of block i is not null, not in the globals and in no other block. */
  ghost predicate OwnAddress(g: nat, log: seq<Event>, i: nat, a: int)
    requires Block(log, i)
  {
    a != 0 && !InGlobals(g, a) && forall j: nat :: j != i && Block(log, j) ==> !InBlock(log[j], a)
  }

  ghost predicate AllDisjoint(g: nat, log: seq<Event>) {
    forall i: nat, a: int :: Block(log, i) && InBlock(log[i], a) ==> OwnAddress(g, log, i, a)
  }

  /** What block i's process had requested before it. */
  function Before(g: nat, log: seq<Event>, i: nat): nat
    requires Block(log, i)
  {
    Requested(g, log[..i], log[i].pid)
  }

  /** Before each nonempty block its process had requested less than 2^32 bytes. */
  ghost predicate NoneWraps(g: nat, log: seq<Event>) {
    forall i: nat :: Block(log, i) ==> Before(g, log, i) < TWO32
  }

  /** No block is so large that it reaches the memory that a process with a higher number has handed out. */
  ghost predicate NoneReaches(g: nat, log: seq<Event>) {
    forall i: nat, j: nat :: Block(log, i) && Block(log, j) && log[i].pid < log[j].pid ==> !Reaches(g, log, i, j)
  }

  predicate Reaches(g: nat, log: seq<Event>, i: nat, j: nat)
    requires Block(log, i) && Block(log, j)
  {
    Before(g, log, i) + log[i].size > (log[j].pid - log[i].pid) * TWO56 + Before(g, log, j)
  }

  ghost predicate RequestsFit(g: nat, log: seq<Event>) {
    NoneWraps(g, log) && NoneReaches(g, log)
  }

  // ----- Offsets without wraps -----

  lemma {:induction false} OffsetAt(g: nat, log: seq<Event>, i: nat)
    requires OffsetsFit(g, log) && Block(log, i)
    ensures log[i].offset == Before(g, log, i) % TWO32
  {
    if i < |log| - 1 {
      var front := log[..|log| - 1];
      OffsetAt(g, front, i);
      assert front[..i] == log[..i];
    }
  }

  lemma {:induction false} RequestedGrows(g: nat, log: seq<Event>, i: nat, j: nat, p: nat)
    requires i <= j <= |log|
    ensures Requested(g, log[..i], p) <= Requested(g, log[..j], p)
    ensures i < j && log[i].Allocated? && log[i].pid == p ==> Requested(g, log[..i], p) + log[i].size <= Requested(g, log[..j], p)
    ensures p == 0 ==> g <= Requested(g, log[..j], p)
    decreases j
  {
    if j > 0 {
      assert log[..j][..j - 1] == log[..j - 1];
      if i < j {
        RequestedGrows(g, log, i, j - 1, p);
      } else {
        RequestedGrows(g, log, j - 1, j - 1, p);
      }
    }
  }

  // ----- Requests that fit give disjoint blocks -----

  /** An unwrapped block's addresses. */
  lemma InUnwrapped(g: nat, log: seq<Event>, i: nat, a: int)
    requires OffsetsFit(g, log) && Block(log, i) && Before(g, log, i) < TWO32
    ensures InBlock(log[i], a)
            <==> MakePointer(log[i].pid, Before(g, log, i)) <= a < MakePointer(log[i].pid, Before(g, log, i)) + log[i].size
  {
    OffsetAt(g, log, i);
    hide OffsetsFit, Requested, MakePointer;
  }

  lemma SameProcessDisjoint(g: nat, log: seq<Event>, i: nat, j: nat, a: int)
    requires OffsetsFit(g, log) && NoneWraps(g, log) && Block(log, i) && Block(log, j) && i < j && log[i].pid == log[j].pid
    ensures !(InBlock(log[i], a) && InBlock(log[j], a))
  {
    InUnwrapped(g, log, i, a);
    InUnwrapped(g, log, j, a);
    RequestedGrows(g, log, i, j, log[i].pid);
    hide OffsetsFit, Requested, InBlock;
  }

  lemma OtherProcessDisjoint(g: nat, log: seq<Event>, i: nat, j: nat, a: int)
    requires OffsetsFit(g, log) && RequestsFit(g, log) && Block(log, i) && Block(log, j) && log[i].pid < log[j].pid
    ensures !(InBlock(log[i], a) && InBlock(log[j], a))
  {
    assert !Reaches(g, log, i, j);
    InUnwrapped(g, log, i, a);
    InUnwrapped(g, log, j, a);
    hide OffsetsFit, Before, InBlock;
  }

  lemma NotInGlobals(g: nat, log: seq<Event>, i: nat, a: int)
    requires OffsetsFit(g, log) && NoneWraps(g, log) && g < TWO32 && Block(log, i) && InBlock(log[i], a)
    ensures a != 0 && !InGlobals(g, a)
  {
    InUnwrapped(g, log, i, a);
    RequestedGrows(g, log, 0, i, log[i].pid);
    hide OffsetsFit, Requested, InBlock;
  }

  lemma FittingIsDisjoint(g: nat, log: seq<Event>)
    requires OffsetsFit(g, log) && RequestsFit(g, log) && g < TWO32
    ensures AllDisjoint(g, log)
  {
    hide OffsetsFit, NoneReaches, NoneWraps, InBlock, InGlobals;
    forall i: nat, a: int | Block(log, i) && InBlock(log[i], a)
      ensures OwnAddress(g, log, i, a)
    {
      NotInGlobals(g, log, i, a);
      forall j: nat | j != i && Block(log, j)
        ensures !InBlock(log[j], a)
      {
        if log[i].pid == log[j].pid {
          if i < j { SameProcessDisjoint(g, log, i, j, a); } else { SameProcessDisjoint(g, log, j, i, a); }
        } else if log[i].pid < log[j].pid {
          OtherProcessDisjoint(g, log, i, j, a);
        } else {
          OtherProcessDisjoint(g, log, j, i, a);
        }
      }
    }
  }

  // ----- Requests that do not fit overlap -----

  /** Without wraps up to k, every offset below what was requested is in the globals or in a block. */
  lemma {:induction false} Tiled(g: nat, log: seq<Event>, p: nat, k: nat, x: nat) returns (j: int)
    requires OffsetsFit(g, log) && k <= |log| && x < Requested(g, log[..k], p)
    requires forall i: nat :: i < k && Block(log, i) && log[i].pid == p ==> Before(g, log, i) < TWO32
    ensures j == -1 ==> p == 0 && x < g
    ensures j != -1 ==> 0 <= j < k && Block(log, j) && log[j].pid == p && log[j].offset <= x < log[j].offset + log[j].size
  {
    if k == 0 {
      j := -1;
    } else {
      assert log[..k][..k - 1] == log[..k - 1];
      if x < Requested(g, log[..k - 1], p) {
        j := Tiled(g, log, p, k - 1, x);
      } else {
        j := k - 1;
        OffsetAt(g, log, k - 1);
      }
    }
  }

  /** The first block of a process that wraps. */
  lemma {:induction false} FirstWrap(g: nat, log: seq<Event>, i: nat) returns (k: nat)
    requires Block(log, i) && Before(g, log, i) >= TWO32
    ensures k <= i && Block(log, k) && Before(g, log, k) >= TWO32
    ensures forall j: nat :: j < k && Block(log, j) && log[j].pid == log[k].pid ==> Before(g, log, j) < TWO32
    decreases i
  {
    if j: nat :| j < i && Block(log, j) && log[j].pid == log[i].pid && Before(g, log, j) >= TWO32 {
      k := FirstWrap(g, log, j);
    } else {
      k := i;
    }
  }

  lemma WrapOverlaps(g: nat, log: seq<Event>, i: nat)
    requires OffsetsFit(g, log) && Block(log, i) && Before(g, log, i) >= TWO32
    ensures !AllDisjoint(g, log)
  {
    var k := FirstWrap(g, log, i);
    OffsetAt(g, log, k);
    var x := log[k].offset;
    var a := MakePointer(log[k].pid, x);
    var j := Tiled(g, log, log[k].pid, k, x);
    hide OffsetsFit, Before;
    assert Block(log, k) && InBlock(log[k], a);
    if j == -1 {
      assert InGlobals(g, a);
    } else {
      assert Block(log, j) && InBlock(log[j], a);
    }
    assert !OwnAddress(g, log, k, a);
  }

  lemma ReachOverlaps(g: nat, log: seq<Event>, i: nat, j: nat)
    requires OffsetsFit(g, log) && NoneWraps(g, log)
    requires Block(log, i) && Block(log, j) && log[i].pid < log[j].pid && Reaches(g, log, i, j)
    ensures !AllDisjoint(g, log)
  {
    var a := MakePointer(log[j].pid, Before(g, log, j));
    InUnwrapped(g, log, i, a);
    InUnwrapped(g, log, j, a);
    hide OffsetsFit, Before, InBlock;
    assert InBlock(log[i], a) && InBlock(log[j], a);
    assert !OwnAddress(g, log, i, a);
  }

  lemma DisjointIsFitting(g: nat, log: seq<Event>)
    requires OffsetsFit(g, log) && AllDisjoint(g, log)
    ensures RequestsFit(g, log)
  {
    hide OffsetsFit, Before, AllDisjoint, Reaches;
    forall i: nat | Block(log, i)
      ensures Before(g, log, i) < TWO32
    {
      if Before(g, log, i) >= TWO32 {
        WrapOverlaps(g, log, i);
      }
    }
    forall i: nat, j: nat | Block(log, i) && Block(log, j) && log[i].pid < log[j].pid
      ensures !Reaches(g, log, i, j)
    {
      if Reaches(g, log, i, j) {
        ReachOverlaps(g, log, i, j);
      }
    }
  }

  // ----- Theorems -----

  /**
   In every reachable state the blocks handed out so far are disjoint from each other and from the
   globals, and not null, exactly when before each nonempty one its process had requested less than
   2^32 bytes, and none is so large that it reaches another process's blocks.
   */
  lemma BlocksAreDisjointIff(M: Model, n: nat, s: State, log: seq<Event>)
    requires ValidModel(M) && Reachable(M, n, s, log)
    ensures AllDisjoint(M.globalsSize, log) <==> RequestsFit(M.globalsSize, log)
  {
    hide Reachable, AllDisjoint, RequestsFit;
    ReachableFits(M, n, s, log);
    if RequestsFit(M.globalsSize, log) {
      FittingIsDisjoint(M.globalsSize, log);
    }
    if AllDisjoint(M.globalsSize, log) {
      DisjointIsFitting(M.globalsSize, log);
    }
  }

  /** When no single request exceeds 2^56 - 2^32 bytes, only wraps matter. */
  lemma OnlyWrapsMatter(M: Model, n: nat, s: State, log: seq<Event>)
    requires ValidModel(M) && Reachable(M, n, s, log)
    requires forall e :: e in log && e.Allocated? ==> e.size <= TWO56 - TWO32
    ensures AllDisjoint(M.globalsSize, log) <==> NoneWraps(M.globalsSize, log)
  {
    BlocksAreDisjointIff(M, n, s, log);
    hide Reachable, AllDisjoint, Requested;
    if NoneWraps(M.globalsSize, log) {
      forall i: nat, j: nat | Block(log, i) && Block(log, j) && log[i].pid < log[j].pid
        ensures !Reaches(M.globalsSize, log, i, j)
      {
        assert log[i] in log && Before(M.globalsSize, log, i) < TWO32;
        assert (log[j].pid - log[i].pid) * TWO56 >= TWO56;
      }
    }
  }

  /** No address of a block is null, in the globals or in another block. */
  lemma AllocationsAreDisjoint(M: Model, n: nat, s: State, log: seq<Event>, i: nat, a: int)
    requires ValidModel(M) && Reachable(M, n, s, log) && RequestsFit(M.globalsSize, log)
    requires i < |log| && log[i].Allocated? && InBlock(log[i], a)
    ensures a != 0 && !InGlobals(M.globalsSize, a)
    ensures forall j :: 0 <= j < |log| && j != i && log[j].Allocated? ==> !InBlock(log[j], a)
  {
    BlocksAreDisjointIff(M, n, s, log);
    hide Reachable, RequestsFit, InGlobals;
    assert Block(log, i) && OwnAddress(M.globalsSize, log, i, a);
    forall j: nat | j < |log| && j != i && log[j].Allocated?
      ensures !InBlock(log[j], a)
    {
      assert InBlock(log[j], a) ==> Block(log, j);
    }
  }
}
