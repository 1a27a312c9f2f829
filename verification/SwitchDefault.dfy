/**
 When the switch of model_step takes its default, which reports nothing: exactly when the process comes
 to a pthread_create that is not the first instruction of its group while all slots are taken.
 */
module SwitchDefault {
  import Ir
  import opened Machine
  import opened PcClosure
  import opened GlobalStatus
  import opened RunInvariants

  /** The state in which p's step comes to its first group that emits, if it does within `fuel` groups. */
  function FirstEmitting(P: Program, s: State, p: nat, fuel: nat): (r: Ir.Option<State>)
    requires p < |s.procs|
    ensures r.Some? ==> |r.value.procs| == |s.procs| && EmitsAt(P, r.value.procs[p].pc)
    decreases fuel
  {
    var pc := s.procs[p].pc;
    if EmitsAt(P, pc) then Ir.Some(s)
    else if fuel == 0 || !(pc.At? && Head(P, pc.block, pc.index)) then Ir.None
    else
      match ExecGroup(P, s, p, pc.block, pc.index)
      case Blocked => Ir.None
      case Next(s1, _) => FirstEmitting(P, s1, p, fuel - 1)
  }

  predicate EmitsAt(P: Program, pc: Pc) {
    pc.At? && Head(P, pc.block, pc.index) && Emits(P, pc.block, pc.index, End(P, pc.block, pc.index))
  }

  /** The group at pc ends in a pthread_create that is not its first instruction. */
  predicate CreatesInside(P: Program, pc: Pc)
    requires EmitsAt(P, pc)
  {
    var e := End(P, pc.block, pc.index);
    pc.index + 1 < e && P.blocks[pc.block][e - 1].ThreadCreate?
  }

  /** p's step will run a pthread_create inside its group. */
  predicate CreateAhead(P: Program, s: State, p: nat, fuel: nat)
    requires p < |s.procs|
  {
    var first := FirstEmitting(P, s, p, fuel);
    && first.Some?
    && var pc := first.value.procs[p].pc;
       CreatesInside(P, pc) && ExecGroup(P, first.value, p, pc.block, pc.index).Next?
  }

  // ----- Slots during a step -----

  /** s' has the same slots taken as s, and p's is among them. */
  predicate SameSlots(s: State, s': State, p: nat) {
    && p < |s.procs| == |s'.procs|
    && forall q :: 0 <= q < |s.procs| && q != p ==> s'.procs[q].pc == s.procs[q].pc
  }

  lemma SameSlotsSameFree(s: State, s': State, p: nat)
    requires SameSlots(s, s', p) && s.procs[p].pc != Halted && s'.procs[p].pc != Halted
    ensures FreeSlot(s.procs, 0).None? <==> FreeSlot(s'.procs, 0).None?
  {
    hide FreeSlot;
    assert FreeSlot(s.procs, 0).None? ==> forall k :: 0 <= k < |s.procs| ==> s'.procs[k].pc != Halted;
    assert FreeSlot(s'.procs, 0).None? ==> forall k :: 0 <= k < |s.procs| ==> s.procs[k].pc != Halted;
  }

  lemma LocalOfCollapsable(instr: Instr)
    requires Ir.RuntimeCollapsable(OpcodeOf(instr), false)
    ensures IsLocal(instr)
  {
  }

  /** Local instructions leave the other slots alone and create nothing. */
  lemma {:induction false} LocalRange(P: Program, s: State, p: nat, b: nat, i: nat, e: nat)
    requires p < |s.procs| && b < |P.blocks| && i <= e <= |P.blocks[b]|
    requires forall k :: i <= k < e ==> IsLocal(P.blocks[b][k])
    ensures var r := ExecRange(P, s, p, b, i, e); r.Next? && SameSlots(s, r.s, p) && NoneFails(r.events)
    decreases e - i
  {
    if i < e {
      LocalEvents(P, p, b, s.procs[p], P.blocks[b][i]);
      var r := Exec(P, s, p, b, i);
      assert r.Next? && SameSlots(s, r.s, p) by { hide ExecLocal; }
      hide Exec, NoneFails;
      LocalRange(P, r.s, p, b, i + 1, e);
      LastOfSum(r.events, ExecRange(P, r.s, p, b, i + 1, e).events);
    }
  }

  lemma LocalGroupGoesOn(P: Program, s: State, p: nat, b: nat, i: nat)
    requires p < |s.procs| && Head(P, b, i) && !Emits(P, b, i, End(P, b, i))
    ensures var r := ExecGroup(P, s, p, b, i); r.Next? && SameSlots(s, r.s, p) && NoneFails(r.events)
  {
    var e := End(P, b, i);
    forall k | i <= k < e
      ensures IsLocal(P.blocks[b][k])
    {
      LocalOfCollapsable(P.blocks[b][k]);
    }
    hide ExecRange, NoneFails, Emits, End;
    LocalRange(P, SetPc(s, p, NextPc(P, b, e - 1)), p, b, i, e);
  }

  /** After a group that emitted, the loop runs local groups only, and finds a case for each. */
  lemma {:induction false} EmittedLoop(P: Program, s: State, p: nat, fuel: nat)
    requires WellFormed(P) && p < |s.procs| && AllClosed(P, s)
    ensures !Loop(P, s, p, true, fuel).NoSuchPc?
    decreases fuel
  {
    hide ExecGroup, Head, Emits, End, AllClosed, NoneFails, WellFormed;
    OneClosed(P, s, p);
    if s.procs[p].pc.At? && fuel > 0 {
      var b, i := s.procs[p].pc.block, s.procs[p].pc.index;
      if !Emits(P, b, i, End(P, b, i)) {
        LocalGroupGoesOn(P, s, p, b, i);
        GroupKeepsClosed(P, s, p, b, i);
        NoneFailsNotLast(ExecGroup(P, s, p, b, i).events);
        EmittedLoop(P, ExecGroup(P, s, p, b, i).s, p, fuel - 1);
      }
    }
  }

  lemma NoneFailsNotLast(events: seq<Event>)
    requires NoneFails(events)
    ensures !LastFails(events)
  {
  }

  /** In a group, a create fails exactly when there is no free slot; it is the last instruction. */
  lemma GroupFails(P: Program, s: State, p: nat, b: nat, i: nat)
    requires WellFormed(P) && p < |s.procs| && s.procs[p].pc == At(b, i) && Head(P, b, i) && AllClosed(P, s)
    ensures var r, e := ExecGroup(P, s, p, b, i), End(P, b, i);
            r.Next? ==> (LastFails(r.events) <==> P.blocks[b][e - 1].ThreadCreate? && FreeSlot(s.procs, 0).None?)
  {
    hide AllClosed, Head, Plain, ExecRange, WellFormed, End, NoneFails;
    var e := End(P, b, i);
    forall k | i <= k < e - 1
      ensures Plain(P.blocks[b][k])
    {
      InnerInstructionsArePlain(P, b, i, k);
    }
    var s0 := SetPc(s, p, NextPc(P, b, e - 1));
    if ExecRange(P, s0, p, b, i, e).Next? {
      var s1, before, last := RangeToLast(P, s0, p, b, i, e);
      LastOfSum(before, last);
      CreateFails(P, s1, p, b, e - 1);
      if P.blocks[b][e - 1].ThreadCreate? {
        NoTerminatorLast(P, b, e);
        assert s1.procs[p].pc == At(b, e);
        SameSlotsSameFree(s, s1, p);
      }
    }
  }

  lemma NoTerminatorLast(P: Program, b: nat, e: nat)
    requires WellFormed(P) && b < |P.blocks| && 0 < e <= |P.blocks[b]| && P.blocks[b][e - 1].ThreadCreate?
    ensures e < |P.blocks[b]| && NextPc(P, b, e - 1) == At(b, e)
  {
  }

  lemma CreateFails(P: Program, s: State, p: nat, b: nat, i: nat)
    requires p < |s.procs| && Inside(P, b, i)
    ensures var r := Exec(P, s, p, b, i);
            r.Next? ==> (LastFails(r.events) <==> P.blocks[b][i].ThreadCreate? && FreeSlot(s.procs, 0).None?)
  {
    var instr := P.blocks[b][i];
    if IsLocal(instr) {
      LocalEvents(P, p, b, s.procs[p], instr);
    }
    hide ExecLocal, ExecMemory, FreeSlot;
  }

  // ----- The exact condition -----

  lemma {:induction false} LoopTakesDefaultIff(P: Program, s: State, p: nat, fuel: nat)
    requires WellFormed(P) && p < |s.procs| && AllClosed(P, s) && s.procs[p].pc != Halted
    requires Loop(P, s, p, false, fuel) != OutOfFuel
    ensures Loop(P, s, p, false, fuel).NoSuchPc? <==> CreateAhead(P, s, p, fuel) && FreeSlot(s.procs, 0).None?
    decreases fuel
  {
    hide ExecGroup, Head, Emits, End, AllClosed, NoneFails, WellFormed, FreeSlot;
    OneClosed(P, s, p);
    var b, i := s.procs[p].pc.block, s.procs[p].pc.index;
    var r := ExecGroup(P, s, p, b, i);
    if Emits(P, b, i, End(P, b, i)) {
      GroupFails(P, s, p, b, i);
      GroupKeepsClosed(P, s, p, b, i);
      if r.Next? && !(LastFails(r.events) && !Head(P, b, End(P, b, i) - 1)) {
        EmittedLoop(P, r.s, p, fuel - 1);
      }
    } else {
      LocalGroupGoesOn(P, s, p, b, i);
      GroupKeepsClosed(P, s, p, b, i);
      NoneFailsNotLast(r.events);
      assert FirstEmitting(P, s, p, fuel) == FirstEmitting(P, r.s, p, fuel - 1);
      if r.s.procs[p].pc == Halted {
        assert FirstEmitting(P, r.s, p, fuel - 1).None?;
      } else {
        LoopTakesDefaultIff(P, r.s, p, fuel - 1);
        SameSlotsSameFree(s, r.s, p);
      }
    }
  }

  /**
   From closed pcs, a model_step that comes to an end takes the switch default exactly when no slot is free
   and the first group that emits on p's way ends in a pthread_create that is not its first instruction
   (and no join in front of it blocks).
   */
  lemma TakesDefaultIff(P: Program, s: State, p: nat, fuel: nat)
    requires WellFormed(P) && p < |s.procs| && AllClosed(P, s) && StepProcess(P, s, p, fuel) != OutOfFuel
    ensures StepProcess(P, s, p, fuel).NoSuchPc?
            <==> s.procs[p].pc != Halted && FreeSlot(s.procs, 0).None? && CreateAhead(P, s, p, fuel)
  {
    hide Loop, AllClosed, WellFormed, FreeSlot, CreateAhead;
    if s.procs[p].pc != Halted {
      LoopTakesDefaultIff(P, s, p, fuel);
    }
  }

  /** The same read off the events: the last one is a failed create inside its group. */
  lemma DefaultIffFailedInside(P: Program, s: State, p: nat, fuel: nat)
    requires WellFormed(P) && p < |s.procs| && AllClosed(P, s)
    ensures var o := StepProcess(P, s, p, fuel);
            o.Report? || o.NoSuchPc? ==> (o.NoSuchPc? <==> FailsInside(P, o.events))
  {
    hide Loop, AllClosed, WellFormed, FailsInside;
    LoopKeepsClosed(P, s, p, false, fuel);
  }

  /** Every pthread_create is a group of its own. */
  predicate CreatesAreHeads(P: Program) {
    forall b, i {:trigger P.blocks[b][i]} :: 0 <= b < |P.blocks| && 0 <= i < |P.blocks[b]| && P.blocks[b][i].ThreadCreate? ==>
      Head(P, b, i)
  }

  /** In such a program no step of any run takes the default, whether slots run out or not. */
  lemma HeadsNeverTakeDefault(M: Model, n: nat, s: State, log: seq<Event>, p: nat, fuel: nat)
    requires ValidModel(M) && Reachable(M, n, s, log) && CreatesAreHeads(M.program) && p < |s.procs|
    ensures !StepProcess(M.program, s, p, fuel).NoSuchPc?
  {
    var P := M.program;
    ReachableIsClosed(M, n, s, log);
    if StepProcess(P, s, p, fuel).NoSuchPc? {
      TakesDefaultIff(P, s, p, fuel);
      HeadsAreNotInside(P, FirstEmitting(P, s, p, fuel).value.procs[p].pc);
    }
  }

  lemma HeadsAreNotInside(P: Program, pc: Pc)
    requires CreatesAreHeads(P) && EmitsAt(P, pc)
    ensures !CreatesInside(P, pc)
  {
    hide *;
    GroupBounds(P, pc);
    var b, e := pc.block, End(P, pc.block, pc.index);
    LastInstructionIsHead(P, b, pc.index);
    CreateIsHead(P, b, e - 1);
    if CreatesInside(P, pc) {
      InsideParts(P, pc);
    }
  }

  lemma GroupBounds(P: Program, pc: Pc)
    requires EmitsAt(P, pc)
    ensures pc.At? && Head(P, pc.block, pc.index) && Inside(P, pc.block, pc.index)
    ensures pc.index < End(P, pc.block, pc.index) <= |P.blocks[pc.block]| && pc.block < |P.blocks|
  {
    hide Head, Emits, End;
  }

  lemma InsideParts(P: Program, pc: Pc)
    requires EmitsAt(P, pc) && CreatesInside(P, pc)
    ensures pc.At? && Inside(P, pc.block, pc.index)
    ensures var e := End(P, pc.block, pc.index);
            pc.index + 1 < e <= |P.blocks[pc.block]| && P.blocks[pc.block][e - 1].ThreadCreate?
  {
    hide Head, Emits, End;
  }

  lemma CreateIsHead(P: Program, b: nat, i: nat)
    requires CreatesAreHeads(P) && b < |P.blocks| && i < |P.blocks[b]|
    ensures P.blocks[b][i].ThreadCreate? ==> Head(P, b, i)
  {
    hide Head;
  }
}
