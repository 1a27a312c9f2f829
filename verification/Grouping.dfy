/**
 Cutting basic blocks into transition groups and numbering their instructions.

 A block is the sequence of its opcodes; an instruction is the pair of its block's number and its
 index in the block. The functions say where groups end and which location an instruction gets; the
 class runs the generator's loops and is proved to compute exactly those.
 */
module Grouping {
  import opened Ir

  type Block = seq<Opcode>

  /** One transition group: the instructions `first..end` of block `block`. */
  datatype Group = Group(block: nat, first: nat, end: nat, emitter: bool)

  // ----- Where a group ends -----

  /** End of the run of front-collapsable instructions that starts at i. */
  function FrontEnd(ops: Block, mode: bool, i: nat): (e: nat)
    requires i <= |ops|
    ensures i <= e <= |ops|
    ensures forall k :: i <= k < e ==> FrontCollapsable(ops[k], mode)
    ensures e < |ops| ==> !FrontCollapsable(ops[e], mode)
    decreases |ops| - i
  {
    if i < |ops| && FrontCollapsable(ops[i], mode) then FrontEnd(ops, mode, i + 1) else i
  }

  /** End of the group whose main instruction is `main`, when the instruction j has just been added. */
  function TailEnd(ops: Block, mode: bool, main: nat, j: nat): (e: nat)
    requires main <= j < |ops|
    ensures j < e <= |ops|
    decreases |ops| - j
  {
    if j + 1 == |ops| || (!BackCollapsable(ops[j + 1], mode) && !InstructionsCanCollapse(ops[main], ops[j + 1])) then
      j + 1
    else if ops[j].Call? then
      j + 1
    else
      TailEnd(ops, mode, main, j + 1)
  }

  function GroupEnd(ops: Block, mode: bool, i: nat): (e: nat)
    requires i < |ops|
    ensures i < e <= |ops|
  {
    var m := FrontEnd(ops, mode, i);
    if m == |ops| then m else TailEnd(ops, mode, m, m)
  }

  /** The groups of block b from instruction i on. */
  function BlockGroups(b: nat, ops: Block, mode: bool, i: nat): (gs: seq<Group>)
    requires i <= |ops|
    decreases |ops| - i
  {
    if i == |ops| then []
    else
      var e := GroupEnd(ops, mode, i);
      [Group(b, i, e, FrontEnd(ops, mode, i) < |ops|)] + BlockGroups(b, ops, mode, e)
  }

  /** i is the first instruction of one of the groups found from `start` on. */
  predicate HeadFrom(ops: Block, mode: bool, start: nat, i: nat)
    requires start <= |ops|
    decreases |ops| - start
  {
    start < |ops| && (start == i || HeadFrom(ops, mode, GroupEnd(ops, mode, start), i))
  }

  // ----- What groups look like -----

  /**
   The tail of a group holds only back-collapsable instructions, and no call has a successor in its
   group: the pair rule never lengthens a group, because the break after a call comes first.
   */
  lemma {:induction false} TailShape(ops: Block, mode: bool, main: nat, j: nat)
    requires main <= j < |ops|
    requires main < j ==> !ops[main].Call?
    ensures forall k :: j < k < TailEnd(ops, mode, main, j) ==> BackCollapsable(ops[k], mode)
    ensures forall k :: j <= k < TailEnd(ops, mode, main, j) - 1 ==> !ops[k].Call?
    ensures TailEnd(ops, mode, main, j) < |ops| ==>
              !BackCollapsable(ops[TailEnd(ops, mode, main, j)], mode) || ops[TailEnd(ops, mode, main, j) - 1].Call?
    decreases |ops| - j
  {
    if j + 1 < |ops| && !ops[j].Call? && BackCollapsable(ops[j + 1], mode) {
      TailShape(ops, mode, main, j + 1);
    }
  }

  /** TailEnd as it would be without the pair rule. */
  function TailEndWithoutPairs(ops: Block, mode: bool, j: nat): (e: nat)
    requires j < |ops|
    decreases |ops| - j
  {
    if j + 1 == |ops| || !BackCollapsable(ops[j + 1], mode) || ops[j].Call? then j + 1
    else TailEndWithoutPairs(ops, mode, j + 1)
  }

  lemma {:induction false} PairRuleIsDead(ops: Block, mode: bool, main: nat, j: nat)
    requires main <= j < |ops|
    requires main < j ==> !ops[main].Call?
    ensures TailEnd(ops, mode, main, j) == TailEndWithoutPairs(ops, mode, j)
    decreases |ops| - j
  {
    if j + 1 < |ops| && !ops[j].Call? && BackCollapsable(ops[j + 1], mode) {
      PairRuleIsDead(ops, mode, main, j + 1);
    }
  }

  /**
   The shape of the group i..GroupEnd: front-collapsable instructions up to `main`; then, if the
   group has a main instruction at all, that one is not front-collapsable and everything after it is
   back-collapsable. A call other than one collapsed in front is the group's last instruction.
   */
  lemma GroupShape(ops: Block, mode: bool, i: nat) returns (main: nat)
    requires i < |ops|
    ensures main == FrontEnd(ops, mode, i)
    ensures i <= main <= GroupEnd(ops, mode, i)
    ensures forall k :: i <= k < main ==> FrontCollapsable(ops[k], mode)
    ensures main < |ops| ==> main < GroupEnd(ops, mode, i) && !FrontCollapsable(ops[main], mode)
    ensures main == |ops| ==> GroupEnd(ops, mode, i) == |ops|
    ensures forall k :: main < k < GroupEnd(ops, mode, i) ==> BackCollapsable(ops[k], mode)
    ensures forall k :: main <= k < GroupEnd(ops, mode, i) - 1 ==> !ops[k].Call?
  {
    main := FrontEnd(ops, mode, i);
    if main < |ops| {
      TailShape(ops, mode, main, main);
    }
  }

  /** Each group is a non-empty piece of its block and the pieces follow each other to the block's end. */
  predicate Partition(gs: seq<Group>, b: nat, from: nat, to: nat) {
    && (gs == [] ==> from == to)
    && (gs != [] ==> gs[0].first == from && gs[|gs| - 1].end == to)
    && (forall k :: 0 <= k < |gs| ==> gs[k].block == b && gs[k].first < gs[k].end)
    && (forall k :: 0 <= k < |gs| - 1 ==> gs[k].end == gs[k + 1].first)
  }

  lemma {:induction false} GroupsPartition(b: nat, ops: Block, mode: bool, i: nat)
    requires i <= |ops|
    ensures Partition(BlockGroups(b, ops, mode, i), b, i, |ops|)
    ensures forall k :: 0 <= k < |BlockGroups(b, ops, mode, i)| ==>
              var g := BlockGroups(b, ops, mode, i)[k];
              && g.first < |ops| && g.end == GroupEnd(ops, mode, g.first)
              && (g.emitter <==> exists j :: g.first <= j < g.end && !FrontCollapsable(ops[j], mode))
    decreases |ops| - i
  {
    if i < |ops| {
      var e := GroupEnd(ops, mode, i);
      GroupsPartition(b, ops, mode, e);
      var main := GroupShape(ops, mode, i);
    }
  }

  /** The group heads are exactly the first instructions of the groups. */
  lemma {:induction false} HeadsAreGroupStarts(b: nat, ops: Block, mode: bool, start: nat, i: nat)
    requires start <= |ops|
    ensures HeadFrom(ops, mode, start, i)
            <==> exists k :: 0 <= k < |BlockGroups(b, ops, mode, start)| && BlockGroups(b, ops, mode, start)[k].first == i
    decreases |ops| - start
  {
    if start < |ops| {
      var e := GroupEnd(ops, mode, start);
      HeadsAreGroupStarts(b, ops, mode, e, i);
      var gs, rest := BlockGroups(b, ops, mode, start), BlockGroups(b, ops, mode, e);
      assert forall k :: 0 <= k < |rest| ==> gs[k + 1] == rest[k];
      if HeadFrom(ops, mode, start, i) {
        if start == i {
          assert gs[0].first == i;
        } else {
          var k :| 0 <= k < |rest| && rest[k].first == i;
          assert gs[k + 1].first == i;
        }
      }
      if k :| 0 <= k < |gs| && gs[k].first == i {
        assert k > 0 ==> rest[k - 1].first == i;
      }
    }
  }

  /** The instruction after a group is a head, if the block goes on. */
  lemma {:induction false} HeadAfterGroup(ops: Block, mode: bool, start: nat, i: nat)
    requires start <= |ops| && i < |ops| && HeadFrom(ops, mode, start, i)
    ensures GroupEnd(ops, mode, i) < |ops| ==> HeadFrom(ops, mode, start, GroupEnd(ops, mode, i))
    decreases |ops| - start
  {
    if start != i {
      HeadAfterGroup(ops, mode, GroupEnd(ops, mode, start), i);
    }
  }

  /** No head lies strictly inside a group. */
  lemma {:induction false} NoHeadInsideGroup(ops: Block, mode: bool, start: nat, i: nat, k: nat)
    requires start <= |ops| && i < |ops| && HeadFrom(ops, mode, start, i)
    requires i < k < GroupEnd(ops, mode, i)
    ensures !HeadFrom(ops, mode, start, k)
    decreases |ops| - start
  {
    var e := GroupEnd(ops, mode, start);
    if start != i {
      HeadsNotBefore(ops, mode, e, i);
      NoHeadInsideGroup(ops, mode, e, i, k);
    } else if HeadFrom(ops, mode, e, k) {
      HeadsNotBefore(ops, mode, e, k);
    }
  }

  lemma {:induction false} HeadsNotBefore(ops: Block, mode: bool, start: nat, i: nat)
    requires start <= |ops| && HeadFrom(ops, mode, start, i)
    ensures start <= i < |ops|
    decreases |ops| - start
  {
    if start != i {
      HeadsNotBefore(ops, mode, GroupEnd(ops, mode, start), i);
    }
  }

  // ----- The groups of a whole program -----

  /** Instruction i of block b lies in the group. */
  predicate InGroup(g: Group, b: nat, i: nat) {
    g.block == b && g.first <= i < g.end
  }

  /** Every group is a non-empty piece of one of the first n blocks, with the right emitter flag. */
  predicate GroupsFit(blocks: seq<Block>, mode: bool, gs: seq<Group>, n: nat) {
    n <= |blocks| && forall k :: 0 <= k < |gs| ==> GroupFits(blocks, mode, gs[k], n)
  }

  predicate GroupFits(blocks: seq<Block>, mode: bool, g: Group, n: nat)
    requires n <= |blocks|
  {
    && g.block < n && g.first < g.end <= |blocks[g.block]|
    && (g.emitter <==> exists j :: g.first <= j < g.end && !FrontCollapsable(blocks[g.block][j], mode))
  }

  /** In block order, and within a block one right behind the other. */
  predicate InBlockOrder(gs: seq<Group>) {
    forall k :: 0 <= k < |gs| - 1 ==>
      gs[k].block < gs[k + 1].block || (gs[k].block == gs[k + 1].block && gs[k].end == gs[k + 1].first)
  }

  /** Every instruction of the first n blocks lies in a group. */
  ghost predicate AllCovered(blocks: seq<Block>, gs: seq<Group>, n: nat)
    requires n <= |blocks|
  {
    forall b: nat, i: nat :: b < n && i < |blocks[b]| ==> Covered(gs, b, i)
  }

  predicate Covered(gs: seq<Group>, b: nat, i: nat) {
    exists k :: 0 <= k < |gs| && InGroup(gs[k], b, i)
  }

  /** No instruction lies in two. */
  ghost predicate Apart(gs: seq<Group>) {
    forall j, k, b: nat, i: nat :: 0 <= j < k < |gs| && InGroup(gs[j], b, i) ==> !InGroup(gs[k], b, i)
  }

  predicate Starts(gs: seq<Group>, b: nat, i: nat) {
    exists k :: 0 <= k < |gs| && gs[k].block == b && gs[k].first == i
  }

  /** The instructions of the first n blocks that start a group are the heads. */
  ghost predicate StartAtHeads(blocks: seq<Block>, mode: bool, gs: seq<Group>, n: nat)
    requires n <= |blocks|
  {
    forall b: nat, i: nat :: b < n && i < |blocks[b]| ==> (Starts(gs, b, i) <==> HeadFrom(blocks[b], mode, 0, i))
  }

  /** What the transition groups of the first n blocks are. */
  ghost predicate Grouped(blocks: seq<Block>, mode: bool, gs: seq<Group>, n: nat) {
    GroupsFit(blocks, mode, gs, n) && InBlockOrder(gs) && AllCovered(blocks, gs, n) && Apart(gs) && StartAtHeads(blocks, mode, gs, n)
  }

  lemma {:induction false} PartitionCovers(gs: seq<Group>, b: nat, from: nat, to: nat, i: nat) returns (k: nat)
    requires Partition(gs, b, from, to) && from <= i < to
    ensures k < |gs| && InGroup(gs[k], b, i)
  {
    k := |gs| - 1;
    if i < gs[k].first {
      assert Partition(gs[..k], b, from, gs[k].first);
      k := PartitionCovers(gs[..k], b, from, gs[k].first, i);
    }
  }

  lemma {:induction false} PartitionApart(gs: seq<Group>, b: nat, from: nat, to: nat, j: nat, k: nat)
    requires Partition(gs, b, from, to) && j < k < |gs|
    ensures gs[j].end <= gs[k].first
    decreases k - j
  {
    if j + 1 < k {
      PartitionApart(gs, b, from, to, j + 1, k);
    }
  }

  lemma FitMore(blocks: seq<Block>, mode: bool, gs: seq<Group>, n: nat)
    requires n < |blocks| && GroupsFit(blocks, mode, gs, n) && InBlockOrder(gs)
    ensures var more := BlockGroups(n, blocks[n], mode, 0);
            GroupsFit(blocks, mode, gs + more, n + 1) && InBlockOrder(gs + more)
  {
    GroupsPartition(n, blocks[n], mode, 0);
    hide BlockGroups, FrontCollapsable, GroupEnd;
    var more := BlockGroups(n, blocks[n], mode, 0);
    forall k | 0 <= k < |gs|
      ensures GroupFits(blocks, mode, gs[k], n + 1)
    {
      assert GroupFits(blocks, mode, gs[k], n);
    }
    forall k | 0 <= k < |more|
      ensures GroupFits(blocks, mode, more[k], n + 1)
    {
    }
  }

  lemma CoverMore(blocks: seq<Block>, mode: bool, gs: seq<Group>, n: nat)
    requires n < |blocks| && AllCovered(blocks, gs, n)
    ensures AllCovered(blocks, gs + BlockGroups(n, blocks[n], mode, 0), n + 1)
  {
    GroupsPartition(n, blocks[n], mode, 0);
    hide BlockGroups, FrontCollapsable, GroupEnd, Partition;
    var more := BlockGroups(n, blocks[n], mode, 0);
    forall b: nat, i: nat | b < n + 1 && i < |blocks[b]|
      ensures Covered(gs + more, b, i)
    {
      if b < n {
        assert Covered(gs, b, i);
        var k :| 0 <= k < |gs| && InGroup(gs[k], b, i);
        assert (gs + more)[k] == gs[k];
      } else {
        var k := PartitionCovers(more, n, 0, |blocks[n]|, i);
        assert (gs + more)[|gs| + k] == more[k];
      }
    }
  }

  lemma BlocksOf(n: nat, ops: Block, mode: bool)
    ensures var more := BlockGroups(n, ops, mode, 0);
            Partition(more, n, 0, |ops|) && forall k :: 0 <= k < |more| ==> more[k].block == n
  {
    GroupsPartition(n, ops, mode, 0);
    hide BlockGroups, FrontCollapsable, GroupEnd;
  }

  lemma ApartMore(blocks: seq<Block>, mode: bool, gs: seq<Group>, n: nat)
    requires n < |blocks| && Apart(gs) && GroupsFit(blocks, mode, gs, n)
    ensures Apart(gs + BlockGroups(n, blocks[n], mode, 0))
  {
    BlocksOf(n, blocks[n], mode);
    hide BlockGroups, GroupFits, Partition;
    var more := BlockGroups(n, blocks[n], mode, 0);
    forall j, k, b: nat, i: nat | 0 <= j < k < |gs + more| && InGroup((gs + more)[j], b, i)
      ensures !InGroup((gs + more)[k], b, i)
    {
      if |gs| <= j {
        PartitionApart(more, n, 0, |blocks[n]|, j - |gs|, k - |gs|);
      } else if |gs| <= k {
        EarlierBlock(blocks, mode, gs, n, j);
      }
    }
  }

  lemma EarlierBlock(blocks: seq<Block>, mode: bool, gs: seq<Group>, n: nat, j: nat)
    requires GroupsFit(blocks, mode, gs, n) && j < |gs|
    ensures gs[j].block < n
  {
    assert GroupFits(blocks, mode, gs[j], n);
  }

  lemma StartsInBlock(n: nat, ops: Block, mode: bool, i: nat)
    ensures Starts(BlockGroups(n, ops, mode, 0), n, i) <==> HeadFrom(ops, mode, 0, i)
  {
    BlocksOf(n, ops, mode);
    HeadsAreGroupStarts(n, ops, mode, 0, i);
    hide BlockGroups, HeadFrom, Partition;
  }

  lemma StartsMore(blocks: seq<Block>, mode: bool, gs: seq<Group>, n: nat)
    requires n < |blocks| && GroupsFit(blocks, mode, gs, n) && StartAtHeads(blocks, mode, gs, n)
    ensures StartAtHeads(blocks, mode, gs + BlockGroups(n, blocks[n], mode, 0), n + 1)
  {
    BlocksOf(n, blocks[n], mode);
    hide BlockGroups, HeadFrom, Partition, GroupsFit;
    var more := BlockGroups(n, blocks[n], mode, 0);
    forall b: nat, i: nat | b < n + 1 && i < |blocks[b]|
      ensures Starts(gs + more, b, i) <==> HeadFrom(blocks[b], mode, 0, i)
    {
      StartsOfBoth(gs, more, b, i);
      if b == n {
        StartsInBlock(n, blocks[n], mode, i);
        NoStartYet(blocks, mode, gs, n, i);
      } else {
        assert !Starts(more, b, i);
        assert Starts(gs, b, i) <==> HeadFrom(blocks[b], mode, 0, i);
      }
    }
  }

  lemma StartsOfBoth(gs: seq<Group>, more: seq<Group>, b: nat, i: nat)
    ensures Starts(gs + more, b, i) <==> Starts(gs, b, i) || Starts(more, b, i)
  {
    if Starts(gs, b, i) {
      var k :| 0 <= k < |gs| && gs[k].block == b && gs[k].first == i;
      assert (gs + more)[k] == gs[k];
    }
    if Starts(more, b, i) {
      var k :| 0 <= k < |more| && more[k].block == b && more[k].first == i;
      assert (gs + more)[|gs| + k] == more[k];
    }
  }

  lemma NoStartYet(blocks: seq<Block>, mode: bool, gs: seq<Group>, n: nat, i: nat)
    requires GroupsFit(blocks, mode, gs, n)
    ensures !Starts(gs, n, i)
  {
    forall k | 0 <= k < |gs|
      ensures gs[k].block != n
    {
      assert GroupFits(blocks, mode, gs[k], n);
    }
  }

  /** The groups of block n come behind those of the blocks before it. */
  lemma OneMoreBlock(blocks: seq<Block>, mode: bool, gs: seq<Group>, n: nat)
    requires n < |blocks| && Grouped(blocks, mode, gs, n)
    ensures Grouped(blocks, mode, gs + BlockGroups(n, blocks[n], mode, 0), n + 1)
  {
    hide GroupsFit, InBlockOrder, AllCovered, Apart, StartAtHeads, BlockGroups;
    FitMore(blocks, mode, gs, n);
    CoverMore(blocks, mode, gs, n);
    ApartMore(blocks, mode, gs, n);
    StartsMore(blocks, mode, gs, n);
  }

  // ----- Program locations -----

  /** Number of instructions in the first b blocks. */
  function Offset(blocks: seq<Block>, b: nat): (n: nat)
    requires b <= |blocks|
  {
    if b == 0 then 0 else Offset(blocks, b - 1) + |blocks[b - 1]|
  }

  /** The location of instruction i of block b: instructions are numbered in order from 1. */
  function Location(blocks: seq<Block>, b: nat, i: nat): (loc: nat)
    requires b <= |blocks|
  {
    1 + Offset(blocks, b) + i
  }

  lemma {:induction false} OffsetGrows(blocks: seq<Block>, b: nat, c: nat)
    requires b < c <= |blocks|
    ensures Offset(blocks, b) + |blocks[b]| <= Offset(blocks, c)
    decreases c - b
  {
    if b + 1 < c {
      OffsetGrows(blocks, b, c - 1);
    }
  }

  /** Locations are never 0, the location of a terminated process, and no two instructions share one. */
  lemma LocationsDistinct(blocks: seq<Block>, b: nat, i: nat, c: nat, j: nat)
    requires b < |blocks| && i < |blocks[b]| && c < |blocks| && j < |blocks[c]|
    ensures Location(blocks, b, i) != 0
    ensures Location(blocks, b, i) == Location(blocks, c, j) <==> b == c && i == j
  {
    if b < c {
      OffsetGrows(blocks, b, c);
    } else if c < b {
      OffsetGrows(blocks, c, b);
    }
  }

  /** Locations are given to exactly the instructions before (b, n). */
  ghost predicate Numbered(blocks: seq<Block>, locations: map<(nat, nat), nat>, b: nat, n: nat)
    requires b < |blocks| && n <= |blocks[b]|
  {
    && (forall c: nat, j: nat | c < |blocks| && j < |blocks[c]| && (c < b || (c == b && j < n)) ::
          (c, j) in locations && locations[(c, j)] == Location(blocks, c, j))
    && (forall c: nat, j: nat | (c == b && n <= j) || b < c :: (c, j) !in locations)
  }

  /** The generator's three fields that grouping updates, and the loops that update them. */
  class Grouper {
    const blocks: seq<Block>
    const mode: bool
    var programLocations: map<(nat, nat), nat>
    var nextProgramLocation: nat
    var transitionGroups: seq<Group>

    constructor (blocks: seq<Block>, mode: bool)
      ensures this.blocks == blocks && this.mode == mode
      ensures programLocations == map[] && nextProgramLocation == 1 && transitionGroups == []
    {
      this.blocks, this.mode := blocks, mode;
      programLocations, nextProgramLocation, transitionGroups := map[], 1, [];
    }

    /** Every instruction before (b, n) is numbered and nothing else is. */
    ghost predicate Valid(b: nat, n: nat)
      reads this
    {
      && b < |blocks| && n <= |blocks[b]|
      && Numbered(blocks, programLocations, b, n)
      && nextProgramLocation == Location(blocks, b, n)
    }

    /** Give instruction it of block b a location if it has none. */
    method AssignLocation(b: nat, it: nat, ghost n: nat) returns (ghost n': nat)
      requires Valid(b, n) && it < |blocks[b]| && it <= n <= it + 1
      modifies this`programLocations, this`nextProgramLocation
      ensures Valid(b, n') && n' == it + 1
    {
      if (b, it) !in programLocations || programLocations[(b, it)] == 0 {
        programLocations := programLocations[(b, it) := nextProgramLocation];
        nextProgramLocation := nextProgramLocation + 1;
      }
      n' := it + 1;
    }

    /** Make one group from instruction `it` on; the result is where the next one starts. */
    method CreateTransitionGroupsForInstruction(b: nat, it: nat, ghost n: nat) returns (next: nat, ghost n': nat)
      requires Valid(b, n) && it < |blocks[b]| && it <= n <= it + 1
      modifies this
      ensures next == GroupEnd(blocks[b], mode, it)
      ensures next <= n' <= next + 1 && Valid(b, n')
      ensures transitionGroups
              == old(transitionGroups) + [Group(b, it, next, FrontEnd(blocks[b], mode, it) < |blocks[b]|)]
    {
      var ops := blocks[b];
      next, n' := it, n;
      while next != |ops| && FrontCollapsable(ops[next], mode)
        invariant it <= next <= |ops|
        invariant next <= n' <= next + 1 && Valid(b, n')
        invariant FrontEnd(ops, mode, next) == FrontEnd(ops, mode, it)
        invariant transitionGroups == old(transitionGroups)
      {
        n' := AssignLocation(b, next, n');
        next := next + 1;
      }
      var emitter := false;
      if next != |ops| {
        var main := next;
        emitter := true;
        var more := true;
        while more
          invariant main <= next <= |ops|
          invariant more ==> next < |ops| && TailEnd(ops, mode, main, next) == TailEnd(ops, mode, main, main)
          invariant !more ==> next == TailEnd(ops, mode, main, main)
          invariant next <= n' <= next + 1 && Valid(b, n')
          invariant transitionGroups == old(transitionGroups)
          decreases |ops| - next, more
        {
          var j := next;
          n' := AssignLocation(b, j, n');
          next := next + 1;
          if next == |ops| || (!BackCollapsable(ops[next], mode) && !InstructionsCanCollapse(ops[main], ops[next])) {
            more := false;
          } else if ops[j].Call? {
            more := false;
          }
        }
        if next != |ops| {
          n' := AssignLocation(b, next, n');
        }
      }
      transitionGroups := transitionGroups + [Group(b, it, next, emitter)];
    }

    method CreateTransitionGroupsForBasicBlock(b: nat)
      requires Valid(b, 0)
      modifies this
      ensures Valid(b, |blocks[b]|)
      ensures transitionGroups == old(transitionGroups) + BlockGroups(b, blocks[b], mode, 0)
    {
      var it := 0;
      ghost var n := 0;
      while it != |blocks[b]|
        invariant it <= |blocks[b]| && it <= n <= it + 1 && Valid(b, n)
        invariant transitionGroups + BlockGroups(b, blocks[b], mode, it)
                  == old(transitionGroups) + BlockGroups(b, blocks[b], mode, 0)
        decreases |blocks[b]| - it
      {
        it, n := CreateTransitionGroupsForInstruction(b, it, n);
      }
    }

    /**
     Group the whole program. Every instruction lies in exactly one group, the groups come in block order, those
     that start one are the heads, and all instructions are numbered.
     */
    method CreateTransitionGroups()
      requires programLocations == map[] && nextProgramLocation == 1 && transitionGroups == []
      modifies this
      ensures Grouped(blocks, mode, transitionGroups, |blocks|)
      ensures forall b: nat, i: nat :: b < |blocks| && i < |blocks[b]| ==>
                (b, i) in programLocations && programLocations[(b, i)] == Location(blocks, b, i)
    {
      var b := 0;
      while b < |blocks|
        invariant b <= |blocks|
        invariant b < |blocks| ==> Valid(b, 0)
        invariant b == |blocks| && b > 0 ==> Valid(b - 1, |blocks[b - 1]|)
        invariant Grouped(blocks, mode, transitionGroups, b)
      {
        OneMoreBlock(blocks, mode, transitionGroups, b);
        CreateTransitionGroupsForBasicBlock(b);
        b := b + 1;
      }
    }
  }
}
