/**
 Every pc that model_step reports is 0 or the head of a group, and inside a step its switch always finds
 a case. The one exception is a pthread_create inside a group that finds no free process slot: the step
 then takes the switch default and reports nothing.
 */
module PcClosure {
  import Ir
  import G = Grouping
  import opened Machine

  predicate IsTerminator(instr: Instr) {
    instr.Br? || instr.CondBr? || instr.Ret? || instr.Unreachable?
  }

  /** A block the program counter may enter. */
  predicate IsEntry(P: Program, b: nat) { b < |P.blocks| }

  /** What LLVM guarantees: blocks end in their only terminator, and jumps and calls go to blocks. */
  predicate WellFormed(P: Program) {
    && (forall b :: 0 <= b < |P.blocks| ==> |P.blocks[b]| > 0)
    && (forall b, i {:trigger P.blocks[b][i]} :: 0 <= b < |P.blocks| && 0 <= i < |P.blocks[b]| ==>
          && (IsTerminator(P.blocks[b][i]) <==> i == |P.blocks[b]| - 1)
          && TargetsExist(P, P.blocks[b][i]))
  }

  predicate TargetsExist(P: Program, instr: Instr) {
    match instr
    case Br(target) => IsEntry(P, target)
    case CondBr(_, ifTrue, ifFalse) => IsEntry(P, ifTrue) && IsEntry(P, ifFalse)
    case Call(_, entry, _) => IsEntry(P, entry)
    case ThreadCreate(_, entry, _) => IsEntry(P, entry)
    case _ => true
  }

  predicate Closed(P: Program, pc: Pc) {
    pc.At? ==> Head(P, pc.block, pc.index)
  }

  /** The process's pc, and every pc it will return to, is 0 or a group head. */
  predicate ProcClosed(P: Program, q: Proc) {
    Closed(P, q.pc) && forall k :: 0 <= k < |q.stack| ==> Closed(P, q.stack[k].pc)
  }

  predicate AllClosed(P: Program, s: State) {
    forall q :: 0 <= q < |s.procs| ==> ProcClosed(P, s.procs[q])
  }

  // ----- Inside a group -----

  /** Instructions that leave the pc alone. */
  predicate Plain(instr: Instr) {
    !IsTerminator(instr) && !instr.Call? && !instr.ThreadCreate?
  }

  lemma InnerInstructionsArePlain(P: Program, b: nat, i: nat, k: nat)
    requires WellFormed(P) && Inside(P, b, i) && i <= k < End(P, b, i) - 1
    ensures Plain(P.blocks[b][k])
  {
    assert !IsTerminator(P.blocks[b][k]);
    hide WellFormed, G.GroupEnd, G.FrontEnd, IsTerminator;
    var ops := Ops(P, b);
    var main := G.GroupShape(ops, false, i);
    assert ops[k] == OpcodeOf(P.blocks[b][k]);
    CallsEndGroups(P.blocks[b][k]);
    hide Ir.FrontCollapsable, Ir.BackCollapsable, OpcodeOf;
  }

  lemma CallsEndGroups(instr: Instr)
    ensures instr.Call? || instr.ThreadCreate? ==> OpcodeOf(instr).Call? && !Ir.FrontCollapsable(OpcodeOf(instr), false)
  {
  }

  /** After a group the block goes on at a head, or it has ended. */
  lemma AfterGroupIsClosed(P: Program, b: nat, i: nat)
    requires Head(P, b, i)
    ensures Closed(P, NextPc(P, b, End(P, b, i) - 1))
  {
    G.HeadAfterGroup(Ops(P, b), false, 0, i);
  }

  lemma EntryIsHead(P: Program, b: nat)
    requires WellFormed(P) && IsEntry(P, b)
    ensures Head(P, b, 0)
  {
  }

  /** s' differs from s at most in p's registers and msize and in the shared parts. */
  predicate SameControl(s: State, s': State, p: nat) {
    && p < |s.procs| == |s'.procs|
    && s'.procs[p].pc == s.procs[p].pc && s'.procs[p].stack == s.procs[p].stack
    && forall q :: 0 <= q < |s.procs| && q != p ==> s'.procs[q] == s.procs[q]
  }

  /** No pthread_create among the events failed. */
  predicate NoneFails(events: seq<Event>) {
    forall e :: e in events ==> !e.NoFreeSlot?
  }

  /** The last event is a pthread_create that found no free slot. */
  predicate LastFails(events: seq<Event>) {
    events != [] && events[|events| - 1].NoFreeSlot?
  }

  lemma LastOfSum(a: seq<Event>, b: seq<Event>)
    ensures LastFails(a + b) <==> LastFails(b) || (b == [] && LastFails(a))
    ensures LastFails(b) ==> (a + b)[|a + b| - 1] == b[|b| - 1]
    ensures NoneFails(a + b) <==> NoneFails(a) && NoneFails(b)
    ensures NoneFails(a) ==> !LastFails(a)
  {
    assert b == [] ==> a + b == a;
    assert forall e :: e in a + b <==> e in a || e in b;
  }

  lemma PlainKeepsControl(P: Program, s: State, p: nat, b: nat, i: nat)
    requires p < |s.procs| && Inside(P, b, i) && Plain(P.blocks[b][i])
    ensures var r := Exec(P, s, p, b, i); r.Next? ==> SameControl(s, r.s, p) && NoneFails(r.events)
  {
  }

  /** One instruction and then the rest. */
  lemma RangeUnfolds(P: Program, s: State, p: nat, b: nat, i: nat, e: nat)
    requires p < |s.procs| && b < |P.blocks| && i < e <= |P.blocks[b]| && ExecRange(P, s, p, b, i, e).Next?
    ensures var r := Exec(P, s, p, b, i);
            && r.Next? && ExecRange(P, r.s, p, b, i + 1, e).Next?
            && ExecRange(P, s, p, b, i, e).s == ExecRange(P, r.s, p, b, i + 1, e).s
            && ExecRange(P, s, p, b, i, e).events == r.events + ExecRange(P, r.s, p, b, i + 1, e).events
  {
    hide Exec;
  }

  lemma EmptyRange(P: Program, s: State, p: nat, b: nat, e: nat)
    requires p < |s.procs| && b < |P.blocks| && e <= |P.blocks[b]|
    ensures ExecRange(P, s, p, b, e, e) == Next(s, [])
  {
  }

  /** A group is plain instructions followed by one last instruction. */
  lemma {:induction false} RangeToLast(P: Program, s: State, p: nat, b: nat, i: nat, e: nat)
    returns (s1: State, before: seq<Event>, last: seq<Event>)
    requires p < |s.procs| && b < |P.blocks| && i < e <= |P.blocks[b]|
    requires forall k :: i <= k < e - 1 ==> Plain(P.blocks[b][k])
    requires ExecRange(P, s, p, b, i, e).Next?
    ensures SameControl(s, s1, p)
    ensures Exec(P, s1, p, b, e - 1) == Next(ExecRange(P, s, p, b, i, e).s, last)
    ensures ExecRange(P, s, p, b, i, e).events == before + last && NoneFails(before)
    decreases e - i
  {
    hide Exec, ExecRange, Plain;
    RangeUnfolds(P, s, p, b, i, e);
    var r := Exec(P, s, p, b, i);
    if i == e - 1 {
      EmptyRange(P, r.s, p, b, e);
      assert r.events + [] == [] + r.events == r.events;
      s1, before, last := s, [], r.events;
    } else {
      PlainKeepsControl(P, s, p, b, i);
      hide NoneFails;
      s1, before, last := RangeToLast(P, r.s, p, b, i + 1, e);
      LastOfSum(r.events, before);
      assert r.events + (before + last) == r.events + before + last;
      before := r.events + before;
    }
  }

  lemma LocalKeepsClosed(P: Program, p: nat, b: nat, i: nat, q: Proc)
    requires WellFormed(P) && Inside(P, b, i) && IsLocal(P.blocks[b][i]) && ProcClosed(P, q)
    ensures ProcClosed(P, ExecLocal(P, p, b, q, P.blocks[b][i]).proc)
  {
    hide Head, EnterBlock, PassArgs;
    assert TargetsExist(P, P.blocks[b][i]);
    forall target | IsEntry(P, target)
      ensures Head(P, target, 0)
    {
      EntryIsHead(P, target);
    }
  }

  /**
   What the last instruction of a group does to closedness, when the pc is already past the group: a
   pthread_create without a free slot puts the pc back on itself.
   */
  lemma LastKeepsClosed(P: Program, s: State, p: nat, b: nat, i: nat)
    requires WellFormed(P) && p < |s.procs| && Inside(P, b, i)
    requires AllClosed(P, s)
    ensures var r := Exec(P, s, p, b, i);
            r.Next? ==>
              if LastFails(r.events) then FailedAt(P, s, r, p, b, i)
              else AllClosed(P, r.s) && NoneFails(r.events)
  {
    hide Head, ExecLocal, ExecMemory, ExecJoin, FreeSlot;
    var instr, r := P.blocks[b][i], Exec(P, s, p, b, i);
    assert TargetsExist(P, instr);
    assert ProcClosed(P, s.procs[p]);
    if instr.ThreadCreate? {
      EntryIsHead(P, instr.entry);
    } else if IsLocal(instr) {
      LocalKeepsClosed(P, p, b, i, s.procs[p]);
      LocalEvents(P, p, b, s.procs[p], instr);
    } else if r.Next? {
      PlainKeepsControl(P, s, p, b, i);
      assert ProcClosed(P, r.s.procs[p]);
    }
  }

  /** Instruction (b, i) is a pthread_create that found all slots taken. */
  predicate FailedAt(P: Program, s: State, r: Result, p: nat, b: nat, i: nat)
    requires r.Next? && p < |s.procs| && Inside(P, b, i)
  {
    && P.blocks[b][i].ThreadCreate? && FreeSlot(s.procs, 0).None?
    && r.s == SetPc(s, p, At(b, i)) && r.events == [NoFreeSlot(b, i)]
  }

  lemma LocalEvents(P: Program, p: nat, b: nat, q: Proc, instr: Instr)
    requires IsLocal(instr)
    ensures NoneFails(ExecLocal(P, p, b, q, instr).events)
  {
    hide EnterBlock, PassArgs;
  }

  // ----- Groups, model_step -----

  /**
   A group leaves every pc closed, except for a pthread_create without a free slot: that one puts the
   pc back on itself, which is a group head exactly when it is the first instruction of its group.
   */
  lemma GroupKeepsClosed(P: Program, s: State, p: nat, b: nat, i: nat)
    requires WellFormed(P) && p < |s.procs| && Head(P, b, i) && AllClosed(P, s)
    ensures var r, e := ExecGroup(P, s, p, b, i), End(P, b, i);
            r.Next? ==>
              if LastFails(r.events) then
                && r.events[|r.events| - 1] == NoFreeSlot(b, e - 1) && r.s.procs[p].pc == At(b, e - 1)
                && (AllClosed(P, r.s) <==> Head(P, b, e - 1)) && (Head(P, b, e - 1) <==> e == i + 1)
              else AllClosed(P, r.s) && NoneFails(r.events)
  {
    hide AllClosed, Head, Plain, ExecRange, Exec, WellFormed, End, NoneFails;
    LastInstructionIsHead(P, b, i);
    var e := End(P, b, i);
    forall k | i <= k < e - 1
      ensures Plain(P.blocks[b][k])
    {
      InnerInstructionsArePlain(P, b, i, k);
    }
    AfterGroupIsClosed(P, b, i);
    var s0 := SetPc(s, p, NextPc(P, b, e - 1));
    SetPcKeepsClosed(P, s, p, NextPc(P, b, e - 1));
    if ExecRange(P, s0, p, b, i, e).Next? {
      var s1, before, last := RangeToLast(P, s0, p, b, i, e);
      SameControlKeepsClosed(P, s0, s1, p);
      LastKeepsClosed(P, s1, p, b, e - 1);
      LastOfSum(before, last);
      if LastFails(last) {
        FailureCloses(P, s1, p, b, e - 1);
      }
    }
  }

  lemma SameControlKeepsClosed(P: Program, s: State, s': State, p: nat)
    requires SameControl(s, s', p) && AllClosed(P, s)
    ensures AllClosed(P, s')
  {
    hide Head;
    assert ProcClosed(P, s.procs[p]);
  }

  lemma FailureCloses(P: Program, s: State, p: nat, b: nat, i: nat)
    requires p < |s.procs| && AllClosed(P, s)
    ensures AllClosed(P, SetPc(s, p, At(b, i))) <==> Head(P, b, i)
  {
    hide Head;
    assert ProcClosed(P, s.procs[p]);
    assert ProcClosed(P, SetPc(s, p, At(b, i)).procs[p]) <==> Head(P, b, i);
  }

  lemma LastInstructionIsHead(P: Program, b: nat, i: nat)
    requires Head(P, b, i)
    ensures Head(P, b, End(P, b, i) - 1) <==> End(P, b, i) == i + 1
  {
    hide *;
    if End(P, b, i) > i + 1 {
      NoHeadInside(P, b, i, End(P, b, i) - 1);
    }
  }

  lemma NoHeadInside(P: Program, b: nat, i: nat, k: nat)
    requires Head(P, b, i) && i < k < End(P, b, i)
    ensures !Head(P, b, k)
  {
    hide G.HeadFrom, G.GroupEnd, OpcodeOf;
    G.NoHeadInsideGroup(Ops(P, b), false, 0, i, k);
  }

  lemma SetPcKeepsClosed(P: Program, s: State, p: nat, pc: Pc)
    requires p < |s.procs| && AllClosed(P, s) && Closed(P, pc)
    ensures AllClosed(P, SetPc(s, p, pc))
  {
    hide Head;
    assert ProcClosed(P, s.procs[p]);
  }

  /** The last event is a pthread_create that failed inside its group. */
  predicate FailsInside(P: Program, events: seq<Event>) {
    LastFails(events) && var e := events[|events| - 1]; !Head(P, e.block, e.index)
  }

  /**
   From closed pcs, model_step reports closed pcs. It comes to a pc without a case exactly when the last
   thing it did was a pthread_create that found no slot and is not the first instruction of its group.
   */
  lemma {:induction false} LoopKeepsClosed(P: Program, s: State, p: nat, emitted: bool, fuel: nat)
    requires WellFormed(P) && p < |s.procs| && AllClosed(P, s)
    ensures var o := Loop(P, s, p, emitted, fuel);
            && (o.Report? ==> AllClosed(P, o.s) && !FailsInside(P, o.events))
            && (o.NoSuchPc? ==> FailsInside(P, o.events))
    decreases fuel
  {
    hide ExecGroup, Head, Emits, End, AllClosed, NoneFails, WellFormed;
    assert ProcClosed(P, s.procs[p]) by { assert AllClosed(P, s); OneClosed(P, s, p); }
    if s.procs[p].pc.At? && fuel > 0 {
      var b, i := s.procs[p].pc.block, s.procs[p].pc.index;
      var emits := Emits(P, b, i, End(P, b, i));
      var r := ExecGroup(P, s, p, b, i);
      if !(emits && emitted) && r.Next? {
        GroupKeepsClosed(P, s, p, b, i);
        var o := Loop(P, r.s, p, emitted || emits, fuel - 1);
        if LastFails(r.events) && !Head(P, b, End(P, b, i) - 1) {
          LastOfSum(r.events, []);
        } else {
          LoopKeepsClosed(P, r.s, p, emitted || emits, fuel - 1);
          AfterFailsInside(P, r.events, o);
        }
      }
    }
  }

  lemma OneClosed(P: Program, s: State, p: nat)
    requires p < |s.procs| && AllClosed(P, s)
    ensures ProcClosed(P, s.procs[p])
  {
  }

  lemma AfterFailsInside(P: Program, events: seq<Event>, o: Outcome)
    requires !FailsInside(P, events)
    ensures o.Report? && !FailsInside(P, o.events) ==> !FailsInside(P, After(events, o).events)
    ensures o.NoSuchPc? && FailsInside(P, o.events) ==> FailsInside(P, After(events, o).events)
  {
    hide Head;
    if o.Report? || o.NoSuchPc? {
      LastOfSum(events, o.events);
    }
  }
}
