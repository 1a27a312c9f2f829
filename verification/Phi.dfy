/**
 The stores a branch makes for the phi nodes of its target block.

 Phi nodes are named by their registers. `phis` gives each phi of the target block its incoming value;
 `phiNodes` are all phi nodes of the function, which may be incoming values too.
 */
module Phi {
  import M = Machine
  import opened Counting

  type Value = M.Operand

  type Registers = M.Registers

  type Phis = map<nat, Value>

  datatype Store = Store(target: nat, value: Value)

  /** Running the stores one after the other. */
  function Run(stores: seq<Store>, regs: Registers): Registers {
    if stores == [] then regs
    else
      var s := stores[0];
      Run(stores[1..], regs[s.target := M.Eval(regs, s.value)])
  }

  // ----- Dependencies -----

  /** Phi p takes its value from phi q of the same block. */
  predicate DependsOn(phis: Phis, p: nat, q: nat) {
    p in phis && q in phis && phis[p] == M.Reg(q)
  }

  /** Following k dependencies leads from p to q. */
  predicate Leads(phis: Phis, p: nat, q: nat, k: nat)
    decreases k
  {
    if k == 0 then p == q
    else p in phis && phis[p].Reg? && phis[p].index in phis && Leads(phis, phis[p].index, q, k - 1)
  }

  ghost predicate OnCycle(phis: Phis, p: nat) {
    p in phis && exists k: nat :: k > 0 && Leads(phis, p, p, k)
  }

  lemma {:induction false} LeadsOn(phis: Phis, p: nat, q: nat, r: nat, j: nat, k: nat)
    requires Leads(phis, p, q, j) && Leads(phis, q, r, k)
    ensures Leads(phis, p, r, j + k)
    decreases j
  {
    if j > 0 {
      LeadsOn(phis, phis[p].index, q, r, j - 1, k);
    }
  }

  /** Following is deterministic: the longer way goes through the end of the shorter one. */
  lemma {:induction false} LeadsThrough(phis: Phis, p: nat, q: nat, r: nat, j: nat, k: nat)
    requires Leads(phis, p, q, j) && Leads(phis, p, r, j + k)
    ensures Leads(phis, q, r, k)
    decreases j
  {
    if j > 0 {
      LeadsThrough(phis, phis[p].index, q, r, j - 1, k);
    }
  }

  lemma {:induction false} LastStep(phis: Phis, p: nat, q: nat, k: nat) returns (before: nat)
    requires Leads(phis, p, q, k) && k > 0
    ensures Leads(phis, p, before, k - 1) && DependsOn(phis, before, q)
    decreases k
  {
    if k == 1 {
      before := p;
    } else {
      before := LastStep(phis, phis[p].index, q, k - 1);
    }
  }

  /** Every phi on a cycle has a depender on a cycle. */
  lemma CycleHasDepender(phis: Phis, p: nat) returns (q: nat)
    requires OnCycle(phis, p)
    ensures OnCycle(phis, q) && DependsOn(phis, q, p)
  {
    var k: nat :| k > 0 && Leads(phis, p, p, k);
    q := LastStep(phis, p, p, k);
    assert Leads(phis, q, p, 1);
    LeadsOn(phis, q, p, q, 1, k - 1);
  }

  /** What a phi on a cycle leads to is on a cycle. */
  lemma CycleIsClosed(phis: Phis, p: nat, q: nat, j: nat)
    requires OnCycle(phis, p) && Leads(phis, p, q, j) && q in phis
    ensures OnCycle(phis, q)
  {
    var k: nat :| k > 0 && Leads(phis, p, p, k);
    LeadsOn(phis, p, p, q, k, j);
    LeadsThrough(phis, p, q, q, j, k);
  }

  ghost predicate Blocked(phis: Phis, left: set<nat>, q: nat) {
    exists d :: d in left && DependsOn(phis, d, q)
  }

  /** Every phi left is one that another phi left, or itself, depends on. */
  ghost predicate Stuck(phis: Phis, left: set<nat>) {
    left <= phis.Keys && forall q :: q in left ==> Blocked(phis, left, q)
  }

  /** In a finite set where everything has a depender, everything is on a cycle. */
  lemma StuckMeansCycle(phis: Phis, left: set<nat>, p: nat)
    requires p in left && Stuck(phis, left)
    ensures OnCycle(phis, p)
  {
    hide Stuck;
    WalkBack(phis, left, [p], p);
  }

  /** Each element of the walk depends on the one before it. */
  predicate IsWalk(phis: Phis, walk: seq<nat>, p: nat) {
    && walk != [] && walk[0] == p
    && (forall i :: 0 <= i < |walk| ==> Leads(phis, walk[|walk| - 1], walk[i], |walk| - 1 - i))
    && (forall i :: 0 <= i < |walk| ==> Leads(phis, walk[i], p, i))
  }

  lemma WalkGrows(phis: Phis, walk: seq<nat>, p: nat, d: nat)
    requires IsWalk(phis, walk, p) && DependsOn(phis, d, walk[|walk| - 1])
    ensures IsWalk(phis, walk + [d], p)
  {
    var last := walk[|walk| - 1];
    var walk' := walk + [d];
    assert Leads(phis, d, last, 1) && Leads(phis, d, d, 0);
    hide Leads;
    forall i | 0 <= i < |walk'|
      ensures Leads(phis, d, walk'[i], |walk'| - 1 - i) && Leads(phis, walk'[i], p, i)
    {
      if i < |walk| {
        LeadsOn(phis, d, last, walk[i], 1, |walk| - 1 - i);
      } else {
        LeadsOn(phis, d, last, p, 1, |walk| - 1);
      }
    }
  }

  lemma WalkReturns(phis: Phis, walk: seq<nat>, p: nat, d: nat)
    requires IsWalk(phis, walk, p) && DependsOn(phis, d, walk[|walk| - 1]) && d in walk && p in phis
    ensures OnCycle(phis, p)
  {
    var i :| 0 <= i < |walk| && walk[i] == d;
    assert Leads(phis, d, walk[|walk| - 1], 1);
    hide Leads;
    LeadsOn(phis, d, walk[|walk| - 1], d, 1, |walk| - 1 - i);
    assert OnCycle(phis, d);
    CycleIsClosed(phis, d, p, i);
  }

  lemma PickDepender(phis: Phis, left: set<nat>, q: nat) returns (d: nat)
    requires Stuck(phis, left) && q in left
    ensures q in phis && d in left && DependsOn(phis, d, q)
  {
    assert Blocked(phis, left, q);
    d :| d in left && DependsOn(phis, d, q);
  }

  /** Walks from depender to depender until one comes back. */
  lemma {:induction false} WalkBack(phis: Phis, left: set<nat>, walk: seq<nat>, p: nat)
    requires Stuck(phis, left) && p in left && walk != [] && IsWalk(phis, walk, p) && walk[|walk| - 1] in left
    ensures OnCycle(phis, p)
    decreases |left - set q | q in walk|
  {
    hide IsWalk, OnCycle, DependsOn, Stuck;
    var d := PickDepender(phis, left, walk[|walk| - 1]);
    assert p in phis by { var _ := PickDepender(phis, left, p); }
    if d in walk {
      WalkReturns(phis, walk, p, d);
    } else {
      WalkGrows(phis, walk, p, d);
      var rest, rest' := left - (set q | q in walk), left - (set q | q in walk + [d]);
      assert d in rest && d !in rest' && rest' <= rest;
      SmallerSubset(rest', rest, d);
      WalkBack(phis, left, walk + [d], p);
    }
  }

  lemma SmallerSubset(a: set<nat>, b: set<nat>, x: nat)
    requires a <= b && x in b && x !in a
    ensures |a| < |b|
  {
    var rest := b - {x};
    assert a <= rest && |rest| == |b| - 1;
    SubsetSize(a, rest);
  }

  // ----- The worklist -----

  /** `dependencies` holds, for each phi still in it, what that phi depends on. */
  ghost predicate Collected(phis: Phis, dependencies: map<nat, seq<nat>>) {
    && dependencies.Keys <= phis.Keys
    && forall p, q :: p in dependencies && q in phis ==> (q in dependencies[p] <==> DependsOn(phis, p, q))
  }

  /** The dependencies as the code collects them: a phi of another block counts as one, too. */
  method CollectDependencies(phis: Phis, phiNodes: set<nat>) returns (dependencies: map<nat, seq<nat>>)
    requires phis.Keys <= phiNodes
    ensures dependencies.Keys == phis.Keys && Collected(phis, dependencies)
  {
    dependencies := map p | p in phis :: [];
    var todo := phis.Keys;
    while todo != {}
      invariant todo <= phis.Keys == dependencies.Keys
      invariant forall p :: p in todo ==> dependencies[p] == []
      invariant forall p, q :: p in phis && p !in todo && q in phis ==> (q in dependencies[p] <==> DependsOn(phis, p, q))
    {
      var p :| p in todo;
      if phis[p].Reg? && phis[p].index in phiNodes {
        dependencies := dependencies[p := dependencies[p] + [phis[p].index]];
      }
      todo := todo - {p};
    }
  }

  /** The search for an entry that has p among its dependencies. */
  method HasDepender(dependencies: map<nat, seq<nat>>, p: nat) returns (found: bool)
    ensures found <==> exists d :: d in dependencies && p in dependencies[d]
  {
    found := false;
    var others := dependencies.Keys;
    while others != {}
      invariant others <= dependencies.Keys
      invariant forall d :: d in dependencies && d !in others ==> p !in dependencies[d]
    {
      var d :| d in others;
      if p in dependencies[d] {
        found := true;
        break;
      }
      others := others - {d};
    }
  }

  /** The stores made so far write exactly the phis that are no longer in `left`, each its own value. */
  ghost predicate Covers(phis: Phis, stores: seq<Store>, left: set<nat>) {
    && left <= phis.Keys
    && (forall i :: 0 <= i < |stores| ==> stores[i].target in phis && stores[i].target !in left)
    && (forall i :: 0 <= i < |stores| ==> stores[i].value == phis[stores[i].target])
    && (forall p :: p in phis && p !in left ==> Written(stores, p))
  }

  predicate Written(stores: seq<Store>, p: nat) {
    exists i :: 0 <= i < |stores| && stores[i].target == p
  }

  /** Nothing a store writes is read by it or by a later one, and nothing is written twice. */
  predicate NoOverlap(stores: seq<Store>) {
    && (forall i, j :: 0 <= i < j < |stores| ==> stores[i].target != stores[j].target)
    && (forall i, j :: 0 <= i <= j < |stores| ==> stores[j].value != M.Reg(stores[i].target))
  }

  /** No phi in `left` reads what a store has written. */
  predicate Unread(phis: Phis, stores: seq<Store>, left: set<nat>)
    requires left <= phis.Keys
  {
    forall i, p :: 0 <= i < |stores| && p in left ==> phis[p] != M.Reg(stores[i].target)
  }

  ghost predicate InOrder(phis: Phis, stores: seq<Store>, left: set<nat>) {
    Covers(phis, stores, left) && NoOverlap(stores) && Unread(phis, stores, left)
  }

  lemma OneMoreCovers(phis: Phis, stores: seq<Store>, left: set<nat>, p: nat)
    requires Covers(phis, stores, left) && p in left
    ensures Covers(phis, stores + [Store(p, phis[p])], left - {p})
  {
    var stores' := stores + [Store(p, phis[p])];
    forall q | q in phis && q !in left - {p}
      ensures Written(stores', q)
    {
      if q == p {
        assert stores'[|stores|].target == q;
      } else {
        assert Written(stores, q);
        var i :| 0 <= i < |stores| && stores[i].target == q;
        assert stores'[i].target == q;
      }
    }
    hide Written;
  }

  lemma OneMoreApart(phis: Phis, stores: seq<Store>, left: set<nat>, p: nat)
    requires Covers(phis, stores, left) && NoOverlap(stores) && Unread(phis, stores, left) && p in left
    requires phis[p] != M.Reg(p)
    ensures NoOverlap(stores + [Store(p, phis[p])])
  {
    forall i | 0 <= i < |stores|
      ensures stores[i].target != p && phis[p] != M.Reg(stores[i].target)
    {
    }
    hide Covers, Unread;
  }

  lemma OneMoreStore(phis: Phis, stores: seq<Store>, left: set<nat>, p: nat)
    requires InOrder(phis, stores, left) && p in left
    requires forall d :: d in left ==> !DependsOn(phis, d, p)
    ensures InOrder(phis, stores + [Store(p, phis[p])], left - {p})
  {
    OneMoreCovers(phis, stores, left, p);
    assert !DependsOn(phis, p, p);
    OneMoreApart(phis, stores, left, p);
    hide NoOverlap, Written;
    forall q | q in left
      ensures phis[q] != M.Reg(p)
    {
      assert !DependsOn(phis, q, p);
    }
  }

  /** The phis on cycles are among those left. */
  ghost predicate KeepsCycles(phis: Phis, left: set<nat>) {
    forall p :: OnCycle(phis, p) ==> p in left
  }

  /** What both loops of the worklist keep. */
  ghost predicate Worklist(phis: Phis, dependencies: map<nat, seq<nat>>, stores: seq<Store>) {
    Collected(phis, dependencies) && KeepsCycles(phis, dependencies.Keys) && InOrder(phis, stores, dependencies.Keys)
  }

  function Without(dependencies: map<nat, seq<nat>>, p: nat): (rest: map<nat, seq<nat>>)
    ensures rest.Keys == dependencies.Keys - {p}
  {
    map q | q in dependencies && q != p :: dependencies[q]
  }

  lemma OneMoreEntry(phis: Phis, dependencies: map<nat, seq<nat>>, stores: seq<Store>, p: nat)
    requires Worklist(phis, dependencies, stores) && p in dependencies && !Blocked(phis, dependencies.Keys, p)
    ensures Worklist(phis, Without(dependencies, p), stores + [Store(p, phis[p])])
  {
    hide InOrder, OnCycle;
    OneMoreStore(phis, stores, dependencies.Keys, p);
    if OnCycle(phis, p) {
      var d := CycleHasDepender(phis, p);
    }
  }

  lemma DependerIsBlocking(phis: Phis, dependencies: map<nat, seq<nat>>, p: nat)
    requires Collected(phis, dependencies) && p in phis
    ensures Blocked(phis, dependencies.Keys, p) <==> exists d :: d in dependencies && p in dependencies[d]
  {
  }

  /**
   The worklist. `it` visits the remaining entries in any order. Whatever that order is, the entries
   left over at the end are the phis on a dependency cycle, so the assert that none is left holds
   exactly when there is no cycle; and the stores are in order.
   */
  method StoresForPhis(phis: Phis, phiNodes: set<nat>) returns (stores: seq<Store>, left: set<nat>)
    requires phis.Keys <= phiNodes
    ensures forall p :: p in left <==> OnCycle(phis, p)
    ensures InOrder(phis, stores, left)
  {
    hide *;
    var dependencies := CollectDependencies(phis, phiNodes);
    stores := [];
    FullWorklist(phis, dependencies);
    var done := 1;
    while done > 0
      invariant done >= 0
      invariant Worklist(phis, dependencies, stores)
      invariant done == 0 ==> AllBlocked(phis, dependencies.Keys, {})
      decreases |dependencies.Keys|, done
    {
      done := 0;
      var it := dependencies.Keys;
      ghost var before := dependencies.Keys;
      NoneYetBlocked(phis, before);
      while it != {}
        invariant done >= 0 && it <= dependencies.Keys <= before
        invariant Worklist(phis, dependencies, stores)
        invariant done == 0 ==> dependencies.Keys == before
        invariant done == 0 ==> AllBlocked(phis, before, it)
        invariant done > 0 ==> |dependencies.Keys| < |before|
      {
        var p :| p in it;
        var hasDepender := HasDepender(dependencies, p);
        WorklistIsCollected(phis, dependencies, stores);
        DependerIsBlocking(phis, dependencies, p);
        if hasDepender {
          OneMoreBlocked(phis, dependencies.Keys, it, p);
        }
        it := it - {p};
        if !hasDepender {
          OneMoreEntry(phis, dependencies, stores, p);
          SmallerSubset(dependencies.Keys - {p}, dependencies.Keys, p);
          stores := stores + [Store(p, phis[p])];
          done := done + 1;
          dependencies := Without(dependencies, p);
        }
      }
    }
    left := dependencies.Keys;
    WorklistIsCollected(phis, dependencies, stores);
    LeftAreCycles(phis, left);
  }

  lemma LeftAreCycles(phis: Phis, left: set<nat>)
    requires left <= phis.Keys && KeepsCycles(phis, left) && AllBlocked(phis, left, {})
    ensures forall p :: p in left <==> OnCycle(phis, p)
  {
    hide Blocked;
    forall p | p in left
      ensures OnCycle(phis, p)
    {
      StuckMeansCycle(phis, left, p);
    }
  }

  lemma FullWorklist(phis: Phis, dependencies: map<nat, seq<nat>>)
    requires dependencies.Keys == phis.Keys && Collected(phis, dependencies)
    ensures Worklist(phis, dependencies, [])
  {
    hide Collected;
  }

  /** All entries but those in `it` are blocked. */
  ghost predicate AllBlocked(phis: Phis, left: set<nat>, it: set<nat>) {
    forall p :: p in left && p !in it ==> Blocked(phis, left, p)
  }

  lemma NoneYetBlocked(phis: Phis, left: set<nat>)
    ensures AllBlocked(phis, left, left)
  {
  }

  lemma OneMoreBlocked(phis: Phis, left: set<nat>, it: set<nat>, p: nat)
    requires Blocked(phis, left, p)
    ensures AllBlocked(phis, left, it) ==> AllBlocked(phis, left, it - {p})
  {
    hide Blocked;
  }

  lemma WorklistIsCollected(phis: Phis, dependencies: map<nat, seq<nat>>, stores: seq<Store>)
    requires Worklist(phis, dependencies, stores)
    ensures Collected(phis, dependencies) && dependencies.Keys <= phis.Keys
    ensures KeepsCycles(phis, dependencies.Keys) && InOrder(phis, stores, dependencies.Keys)
  {
  }

  // ----- What the stores do -----

  lemma {:induction false} RunLeaves(stores: seq<Store>, regs: Registers, r: nat)
    requires forall i :: 0 <= i < |stores| ==> stores[i].target != r
    ensures M.Get(Run(stores, regs), r) == M.Get(regs, r)
  {
    if stores != [] {
      RunLeaves(stores[1..], regs[stores[0].target := M.Eval(regs, stores[0].value)], r);
    }
  }

  lemma {:induction false} RunAssigns(stores: seq<Store>, regs: Registers, i: nat)
    requires NoOverlap(stores) && i < |stores|
    ensures M.Get(Run(stores, regs), stores[i].target) == M.Eval(regs, stores[i].value)
  {
    var s, rest := stores[0], stores[1..];
    var regs' := regs[s.target := M.Eval(regs, s.value)];
    if i == 0 {
      RunLeaves(rest, regs', s.target);
    } else {
      assert NoOverlap(rest) by {
        forall j, k | 0 <= j <= k < |rest|
          ensures rest[k].value != M.Reg(rest[j].target) && (j < k ==> rest[j].target != rest[k].target)
        {
          assert rest[j] == stores[j + 1] && rest[k] == stores[k + 1];
        }
      }
      RunAssigns(rest, regs', i - 1);
      assert stores[i].value != M.Reg(stores[0].target);
    }
  }

  /** The manual's meaning of the phis of a block: all take the values from before the branch at once. */
  function Parallel(phis: Phis, regs: Registers): (regs': Registers)
    ensures forall r :: M.Get(regs', r) == if r in phis then M.Eval(regs, phis[r]) else M.Get(regs, r)
  {
    map r | r in phis.Keys + regs.Keys :: if r in phis then M.Eval(regs, phis[r]) else M.Get(regs, r)
  }

  /** The stores assign every phi that is not left over its value from before the branch, and nothing else. */
  lemma StoresAssign(phis: Phis, stores: seq<Store>, left: set<nat>, regs: Registers, r: nat)
    requires InOrder(phis, stores, left)
    ensures M.Get(Run(stores, regs), r) == if r in left then M.Get(regs, r) else M.Get(Parallel(phis, regs), r)
  {
    if r in phis && r !in left {
      assert Written(stores, r);
      var i :| 0 <= i < |stores| && stores[i].target == r;
      RunAssigns(stores, regs, i);
    } else {
      RunLeaves(stores, regs, r);
    }
  }

  /**
   When the worklist drains, the stores mean the simultaneous assignment. When it does not, and the
   assert is compiled out, they still do exactly on those registers where every phi on a cycle already
   holds its incoming value.
   */
  lemma StoresMeanParallel(phis: Phis, stores: seq<Store>, left: set<nat>, regs: Registers)
    requires InOrder(phis, stores, left)
    ensures (forall r :: M.Get(Run(stores, regs), r) == M.Get(Parallel(phis, regs), r))
            <==> forall p :: p in left ==> M.Get(regs, p) == M.Eval(regs, phis[p])
  {
    forall r: nat
      ensures M.Get(Run(stores, regs), r) == if r in left then M.Get(regs, r) else M.Get(Parallel(phis, regs), r)
    {
      StoresAssign(phis, stores, left, regs, r);
    }
    hide InOrder, Run;
    if forall r :: M.Get(Run(stores, regs), r) == M.Get(Parallel(phis, regs), r) {
      forall p | p in left
        ensures M.Get(regs, p) == M.Eval(regs, phis[p])
      {
        assert M.Get(Run(stores, regs), p) == M.Get(Parallel(phis, regs), p);
      }
    }
  }

  /** A phi of a one-block loop that keeps its value: no other phi is involved, yet the assert fails. */
  lemma SelfReferenceIsCycle(p: nat)
    ensures OnCycle(map[p := M.Reg(p)], p)
  {
    assert Leads(map[p := M.Reg(p)], p, p, 1);
  }

  /** Two phis that swap: without the assert both would keep their old values. */
  lemma SwapIsCycle(p: nat, q: nat)
    requires p != q
    ensures var phis := map[p := M.Reg(q), q := M.Reg(p)];
            OnCycle(phis, p) && OnCycle(phis, q)
  {
    var phis := map[p := M.Reg(q), q := M.Reg(p)];
    assert Leads(phis, p, q, 1) && Leads(phis, q, p, 1);
    LeadsOn(phis, p, q, p, 1, 1);
    LeadsOn(phis, q, p, q, 1, 1);
  }

  // ----- The machine's phis -----

  /** The phis that open a block, with their values on entry from `from`. */
  function OpeningPhis(instrs: seq<M.Instr>, from: nat): Phis {
    if instrs == [] || !instrs[0].Phi? then map[]
    else OpeningPhis(instrs[1..], from)[instrs[0].dst := if from in instrs[0].incoming then instrs[0].incoming[from] else M.Const(0)]
  }

  predicate DistinctPhis(instrs: seq<M.Instr>, from: nat) {
    instrs != [] && instrs[0].Phi? ==>
      instrs[0].dst !in OpeningPhis(instrs[1..], from) && DistinctPhis(instrs[1..], from)
  }

  lemma {:induction false} EnterBlockAt(instrs: seq<M.Instr>, from: nat, before: Registers, acc: Registers, r: nat)
    requires DistinctPhis(instrs, from)
    ensures M.Get(M.EnterBlock(instrs, from, before, acc), r)
            == var phis := OpeningPhis(instrs, from); if r in phis then M.Eval(before, phis[r]) else M.Get(acc, r)
  {
    if instrs != [] && instrs[0].Phi? {
      var value := if from in instrs[0].incoming then M.Eval(before, instrs[0].incoming[from]) else 0;
      EnterBlockAt(instrs[1..], from, before, acc[instrs[0].dst := value], r);
    }
  }

  /** Instruction (b, i), which process p is at, branches to block `to`. */
  predicate BranchesTo(P: M.Program, s: M.State, p: nat, b: nat, i: nat, to: nat) {
    && p < |s.procs| && s.procs[p].pc == M.At(b, i) && M.Inside(P, b, i) && to < |P.blocks|
    && var instr := P.blocks[b][i];
       || instr == M.Br(to)
       || (instr.CondBr? && M.Eval(s.procs[p].regs, instr.cond) != 0 && instr.ifTrue == to)
       || (instr.CondBr? && M.Eval(s.procs[p].regs, instr.cond) == 0 && instr.ifFalse == to)
  }

  /** s' differs from s only in the pc and the registers of p, and the pc is the start of block `to`. */
  predicate Entered(s: M.State, s': M.State, p: nat, to: nat) {
    && p < |s.procs| == |s'.procs|
    && s' == s.(procs := s.procs[p := s.procs[p].(pc := M.At(to, 0), regs := s'.procs[p].regs)])
  }

  /** A branch leaves the registers that the stores made for the edge it takes leave. */
  lemma BranchRunsTheStores(P: M.Program, s: M.State, p: nat, b: nat, i: nat, to: nat, stores: seq<Store>)
    requires BranchesTo(P, s, p, b, i, to)
    requires DistinctPhis(P.blocks[to], b) && InOrder(OpeningPhis(P.blocks[to], b), stores, {})
    ensures var r := M.InstrStep(P, s, p);
            && r.Next? && r.events == [] && Entered(s, r.s, p, to)
            && forall reg :: M.Get(r.s.procs[p].regs, reg) == M.Get(Run(stores, s.procs[p].regs), reg)
  {
    BranchEnters(P, s, p, b, i, to);
    var regs := s.procs[p].regs;
    hide InOrder, Run, DistinctPhis, M.EnterBlock, M.InstrStep, OpeningPhis;
    forall reg
      ensures M.Get(Run(stores, regs), reg) == M.Get(M.EnterBlock(P.blocks[to], b, regs, regs), reg)
    {
      EnterBlockAt(P.blocks[to], b, regs, regs, reg);
      StoresAssign(OpeningPhis(P.blocks[to], b), stores, {}, regs, reg);
    }
  }

  lemma BranchEnters(P: M.Program, s: M.State, p: nat, b: nat, i: nat, to: nat)
    requires BranchesTo(P, s, p, b, i, to)
    ensures var r := M.InstrStep(P, s, p);
            && r.Next? && r.events == [] && Entered(s, r.s, p, to)
            && r.s.procs[p].regs == M.EnterBlock(P.blocks[to], b, s.procs[p].regs, s.procs[p].regs)
  {
    hide M.EnterBlock;
  }

  /** The first n instructions are the block's phis, and no two of them have the same register. */
  predicate Opens(instrs: seq<M.Instr>, n: nat) {
    && n <= |instrs| && (forall k :: 0 <= k < n ==> instrs[k].Phi?) && (n < |instrs| ==> !instrs[n].Phi?)
    && forall j, k :: 0 <= j < k < n ==> instrs[j].dst != instrs[k].dst
  }

  /** Each phi takes its value for the block branched from, as it was before the branch; nothing else changes. */
  lemma BranchAssigns(P: M.Program, s: M.State, p: nat, b: nat, i: nat, to: nat, n: nat)
    requires BranchesTo(P, s, p, b, i, to) && Opens(P.blocks[to], n)
    ensures var r, before := M.InstrStep(P, s, p), s.procs[p].regs;
            && r.Next? && Entered(s, r.s, p, to)
            && var regs, instrs := r.s.procs[p].regs, P.blocks[to];
               && (forall k :: 0 <= k < n && b in instrs[k].incoming ==>
                     M.Get(regs, instrs[k].dst) == M.Eval(before, instrs[k].incoming[b]))
               && forall reg :: (forall k :: 0 <= k < n ==> instrs[k].dst != reg) ==> M.Get(regs, reg) == M.Get(before, reg)
  {
    BranchEnters(P, s, p, b, i, to);
    var before, instrs := s.procs[p].regs, P.blocks[to];
    hide M.InstrStep, M.EnterBlock;
    forall k | 0 <= k < n && b in instrs[k].incoming
      ensures M.Get(M.EnterBlock(instrs, b, before, before), instrs[k].dst) == M.Eval(before, instrs[k].incoming[b])
    {
      PhiAssigned(instrs, b, before, before, n, k);
    }
    forall reg | forall k :: 0 <= k < n ==> instrs[k].dst != reg
      ensures M.Get(M.EnterBlock(instrs, b, before, before), reg) == M.Get(before, reg)
    {
      NotAPhi(instrs, b, before, before, n, reg);
    }
  }

  lemma {:induction false} NotAPhi(instrs: seq<M.Instr>, from: nat, before: Registers, acc: Registers, n: nat, reg: nat)
    requires Opens(instrs, n) && forall k :: 0 <= k < n ==> instrs[k].dst != reg
    ensures M.Get(M.EnterBlock(instrs, from, before, acc), reg) == M.Get(acc, reg)
  {
    if n > 0 {
      var value := if from in instrs[0].incoming then M.Eval(before, instrs[0].incoming[from]) else 0;
      NotAPhi(instrs[1..], from, before, acc[instrs[0].dst := value], n - 1, reg);
    }
  }

  lemma {:induction false} PhiAssigned(instrs: seq<M.Instr>, from: nat, before: Registers, acc: Registers, n: nat, k: nat)
    requires Opens(instrs, n) && k < n && from in instrs[k].incoming
    ensures M.Get(M.EnterBlock(instrs, from, before, acc), instrs[k].dst) == M.Eval(before, instrs[k].incoming[from])
  {
    var value := if from in instrs[0].incoming then M.Eval(before, instrs[0].incoming[from]) else 0;
    var acc' := acc[instrs[0].dst := value];
    if k > 0 {
      PhiAssigned(instrs[1..], from, before, acc', n - 1, k - 1);
    } else {
      NotAPhi(instrs[1..], from, before, acc', n - 1, instrs[0].dst);
    }
  }
}
