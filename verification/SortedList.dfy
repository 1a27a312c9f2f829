/**
 The lock-free sorted list of the sortedlinkedlist benchmark, for any number of calls of addnode.

 Every access to memory is one step and memory is sequentially consistent. A thread is one call. The
 node malloc would hand out, and whether it hands out any, are part of the call.
 */
module SortedList {
  import opened Schedules
  import opened Counting

  // ----- Memory and calls -----

  datatype Node = Node(data: int, next: nat)

  /** Node number 0 is NULL. */
  datatype Shared = Shared(root: nat, nodes: map<nat, Node>)

  /** What `target` points at: the root pointer or the next pointer of a node. */
  datatype Target = Root | NextOf(node: nat)

  datatype Pc = Malloc | SetData | LoadRoot | Compare | LoadNext | SetNext | Cas | Added | NoMemory

  datatype Call = Call(pc: Pc, value: int, node: nat, memory: bool, target: Target, t: nat)

  datatype System = System(shared: Shared, calls: seq<Call>)

  function NodeAt(s: Shared, n: nat): Node {
    if n in s.nodes then s.nodes[n] else Node(0, 0)
  }

  function Read(s: Shared, target: Target): nat {
    match target
    case Root => s.root
    case NextOf(n) => NodeAt(s, n).next
  }

  function Write(s: Shared, target: Target, n: nat): Shared {
    match target
    case Root => s.(root := n)
    case NextOf(m) => s.(nodes := s.nodes[m := NodeAt(s, m).(next := n)])
  }

  /** Where the inner loop goes on once `t` is loaded. */
  function AfterLoad(c: Call): Call {
    c.(pc := if c.t == 0 then SetNext else Compare)
  }

  function StepCall(s: Shared, c: Call): (r: (Shared, Call))
    ensures r.1.node == c.node && r.1.value == c.value && r.1.memory == c.memory
  {
    match c.pc
    case Malloc => (s, c.(pc := if c.memory then SetData else NoMemory))
    case SetData => (s.(nodes := s.nodes[c.node := NodeAt(s, c.node).(data := c.value)]), c.(pc := LoadRoot))
    case LoadRoot => (s, AfterLoad(c.(target := Root, t := s.root)))
    case Compare =>
      if NodeAt(s, c.t).data >= c.value then (s, c.(pc := SetNext))
      else (s, c.(target := NextOf(c.t), pc := LoadNext))
    case LoadNext => (s, AfterLoad(c.(t := Read(s, c.target))))
    case SetNext => (Write(s, NextOf(c.node), c.t), c.(pc := Cas))
    case Cas =>
      var current := Read(s, c.target);
      if current == c.t then (Write(s, c.target, c.node), c.(pc := Added))
      else (s, AfterLoad(c.(t := current)))
    case Added => (s, c)
    case NoMemory => (s, c)
  }

  function Step(sys: System, i: nat): System
    requires i < |sys.calls|
  {
    var (s', c') := StepCall(sys.shared, sys.calls[i]);
    System(s', sys.calls[i := c'])
  }

  predicate Initial(sys: System) {
    && sys.shared.root == 0
    && (forall i :: 0 <= i < |sys.calls| ==> sys.calls[i].pc == Malloc && sys.calls[i].node > 0)
    && DistinctNodes(sys.calls)
  }

  predicate DistinctNodes(calls: seq<Call>) {
    forall i, j :: 0 <= i < j < |calls| ==> calls[i].node != calls[j].node
  }

  function Run(sys: System, schedule: seq<nat>): (sys': System)
    requires Schedule(|sys.calls|, schedule)
    ensures |sys'.calls| == |sys.calls|
  {
    if schedule == [] then sys
    else
      var last := |schedule| - 1;
      assert Schedule(|sys.calls|, schedule[..last]);
      Step(Run(sys, schedule[..last]), schedule[last])
  }

  // ----- The list in memory -----

  /** `chain` is what a walk along `next` from node n visits, up to NULL. */
  predicate ListFrom(s: Shared, n: nat, chain: seq<nat>)
    decreases chain
  {
    if n == 0 then chain == []
    else chain != [] && chain[0] == n && ListFrom(s, NodeAt(s, n).next, chain[1..])
  }

  lemma {:induction false} ListIsUnique(s: Shared, n: nat, c: seq<nat>, d: seq<nat>)
    requires ListFrom(s, n, c) && ListFrom(s, n, d)
    ensures c == d
    decreases c
  {
    if n != 0 {
      ListIsUnique(s, NodeAt(s, n).next, c[1..], d[1..]);
      assert c == [n] + c[1..] && d == [n] + d[1..];
    }
  }

  function Data(s: Shared, chain: seq<nat>): (data: seq<int>)
    ensures |data| == |chain|
    ensures forall k :: 0 <= k < |chain| ==> data[k] == NodeAt(s, chain[k]).data
  {
    seq(|chain|, k requires 0 <= k < |chain| => NodeAt(s, chain[k]).data)
  }

  /** Every element of the list is at most each of those behind it. */
  predicate Sorted(s: Shared, chain: seq<nat>) {
    chain != [] ==>
      && (forall n :: n in chain[1..] ==> NodeAt(s, chain[0]).data <= NodeAt(s, n).data)
      && Sorted(s, chain[1..])
  }

  predicate Distinct(chain: seq<nat>) {
    chain != [] ==> chain[0] !in chain[1..] && Distinct(chain[1..])
  }

  // ----- The invariant -----

  predicate TargetFits(s: Shared, chain: seq<nat>, c: Call) {
    c.target.NextOf? ==> c.target.node in chain && NodeAt(s, c.target.node).data < c.value
  }

  predicate CallFits(s: Shared, chain: seq<nat>, c: Call) {
    && c.node > 0
    && (c.node in chain <==> c.pc == Added)
    && (c.pc !in {Malloc, SetData, NoMemory} ==> NodeAt(s, c.node).data == c.value)
    && (c.pc in {Compare, LoadNext, SetNext, Cas} ==> TargetFits(s, chain, c))
    && (c.pc in {Compare, SetNext, Cas} ==> c.t == 0 || c.t in chain)
    && (c.pc == Compare ==> c.t != 0)
    && (c.pc in {SetNext, Cas} && c.t != 0 ==> NodeAt(s, c.t).data >= c.value)
    && (c.pc == Cas ==> NodeAt(s, c.node).next == c.t)
    && (c.pc == NoMemory ==> !c.memory)
    && (c.pc !in {Malloc, NoMemory} ==> c.memory)
  }

  predicate ChainFits(s: Shared, chain: seq<nat>) {
    ListFrom(s, s.root, chain) && Sorted(s, chain) && Distinct(chain) && 0 !in chain
  }

  predicate IsAdded(c: Call) { c.pc == Added }

  function AddedFlags(calls: seq<Call>): (flags: seq<bool>)
    ensures |flags| == |calls|
    ensures forall i :: 0 <= i < |calls| ==> flags[i] == IsAdded(calls[i])
  {
    seq(|calls|, i requires 0 <= i < |calls| => IsAdded(calls[i]))
  }

  ghost predicate Fits(sys: System, chain: seq<nat>) {
    && ChainFits(sys.shared, chain)
    && DistinctNodes(sys.calls)
    && (forall i :: 0 <= i < |sys.calls| ==> CallFits(sys.shared, chain, sys.calls[i]))
    && (forall n :: n in chain ==> exists i :: 0 <= i < |sys.calls| && sys.calls[i].node == n)
    && |chain| == Count(AddedFlags(sys.calls))
  }

  // ----- Preservation -----

  /** Inserting `own` right after the element that `target` names. */
  function Inserted(chain: seq<nat>, target: Target, own: nat): seq<nat> {
    if target.Root? || chain == [] then [own] + chain
    else if chain[0] == target.node then [chain[0], own] + chain[1..]
    else [chain[0]] + Inserted(chain[1..], target, own)
  }

  lemma {:induction false} InsertedMembers(chain: seq<nat>, target: Target, own: nat)
    ensures |Inserted(chain, target, own)| == |chain| + 1
    ensures forall n :: n in Inserted(chain, target, own) <==> n in chain || n == own
  {
    if target.NextOf? && chain != [] && chain[0] != target.node {
      InsertedMembers(chain[1..], target, own);
    }
    assert chain != [] ==> chain == [chain[0]] + chain[1..];
  }

  /** Others see: list elements stay and keep their data, and nodes outside the list other than `own` do not change. */
  ghost predicate Evolves(s: Shared, chain: seq<nat>, s': Shared, chain': seq<nat>, own: nat) {
    && (forall n :: n in chain ==> n in chain' && NodeAt(s', n).data == NodeAt(s, n).data)
    && (forall n :: n in chain' ==> n in chain || n == own)
    && (forall n: nat :: n !in chain && n != own ==> NodeAt(s', n) == NodeAt(s, n))
  }

  lemma OtherCallFits(s: Shared, chain: seq<nat>, s': Shared, chain': seq<nat>, own: nat, c: Call)
    requires Evolves(s, chain, s', chain', own) && CallFits(s, chain, c) && c.node != own
    ensures CallFits(s', chain', c)
  {
  }

  /** The list is untouched by writes to other nodes and by data that stays. */
  lemma {:induction false} ListFrame(s: Shared, s': Shared, n: nat, chain: seq<nat>)
    requires ListFrom(s, n, chain)
    requires forall m :: m in chain ==> NodeAt(s', m) == NodeAt(s, m)
    ensures ListFrom(s', n, chain)
    decreases chain
  {
    if n != 0 {
      ListFrame(s, s', NodeAt(s, n).next, chain[1..]);
    }
  }

  lemma {:induction false} SortedFrame(s: Shared, s': Shared, chain: seq<nat>)
    requires Sorted(s, chain)
    requires forall m :: m in chain ==> NodeAt(s', m).data == NodeAt(s, m).data
    ensures Sorted(s', chain)
  {
    if chain != [] {
      SortedFrame(s, s', chain[1..]);
    }
  }

  lemma {:induction false} InsertKeepsDistinct(chain: seq<nat>, target: Target, own: nat)
    requires Distinct(chain) && own !in chain
    ensures Distinct(Inserted(chain, target, own))
  {
    if target.NextOf? && chain != [] && chain[0] != target.node {
      InsertKeepsDistinct(chain[1..], target, own);
      InsertedMembers(chain[1..], target, own);
    } else if target.NextOf? && chain != [] {
      var c' := [chain[0], own] + chain[1..];
      assert c'[1..] == [own] + chain[1..] && c'[1..][1..] == chain[1..];
    } else {
      assert ([own] + chain)[1..] == chain;
    }
  }

  /** The successful cmpxchg: `own` goes between the target and the node `t` it pointed at. */
  lemma {:induction false} InsertKeepsList(s: Shared, n: nat, chain: seq<nat>, m: nat, own: nat)
    requires ListFrom(s, n, chain) && Distinct(chain) && m in chain && own !in chain && own > 0
    requires NodeAt(s, own).next == NodeAt(s, m).next
    ensures ListFrom(Write(s, NextOf(m), own), n, Inserted(chain, NextOf(m), own))
    decreases chain
  {
    var s' := Write(s, NextOf(m), own);
    var rest := chain[1..];
    if n == m {
      var c' := [n, own] + rest;
      assert c'[1..] == [own] + rest && c'[1..][1..] == rest;
      ListFrame(s, s', NodeAt(s, n).next, rest);
      assert ListFrom(s', own, c'[1..]);
    } else {
      InsertKeepsList(s, NodeAt(s, n).next, rest, m, own);
      assert ([chain[0]] + Inserted(rest, NextOf(m), own))[1..] == Inserted(rest, NextOf(m), own);
    }
  }

  lemma {:induction false} InsertKeepsSorted(s: Shared, n: nat, chain: seq<nat>, m: nat, own: nat)
    requires ListFrom(s, n, chain) && Sorted(s, chain) && Distinct(chain) && m in chain && own !in chain
    requires NodeAt(s, m).data <= NodeAt(s, own).data
    requires var t := NodeAt(s, m).next; t == 0 || NodeAt(s, own).data <= NodeAt(s, t).data
    ensures Sorted(s, Inserted(chain, NextOf(m), own))
    decreases chain
  {
    var rest := chain[1..];
    var c' := Inserted(chain, NextOf(m), own);
    if n == m {
      assert c'[1..] == [own] + rest && c'[1..][1..] == rest;
      FirstIsSmallest(s, NodeAt(s, m).next, rest);
    } else {
      InsertKeepsSorted(s, NodeAt(s, n).next, rest, m, own);
      InsertedMembers(rest, NextOf(m), own);
      assert c'[1..] == Inserted(rest, NextOf(m), own);
      assert m in rest;
    }
  }

  lemma FirstIsSmallest(s: Shared, n: nat, chain: seq<nat>)
    requires ListFrom(s, n, chain) && Sorted(s, chain)
    ensures n == 0 <==> chain == []
    ensures forall k :: k in chain ==> NodeAt(s, n).data <= NodeAt(s, k).data
  {
    assert chain != [] ==> chain == [chain[0]] + chain[1..];
  }

  /** What target names is an element of the list or its end. */
  lemma {:induction false} NextInList(s: Shared, n: nat, chain: seq<nat>, m: nat)
    requires ListFrom(s, n, chain)
    ensures n == 0 || n in chain
    ensures m in chain ==> NodeAt(s, m).next == 0 || NodeAt(s, m).next in chain
    decreases chain
  {
    if n != 0 {
      NextInList(s, NodeAt(s, n).next, chain[1..], m);
      assert chain == [chain[0]] + chain[1..];
    }
  }

  predicate Inserts(s: Shared, c: Call) {
    c.pc == Cas && Read(s, c.target) == c.t
  }

  function NextChain(s: Shared, chain: seq<nat>, c: Call): seq<nat> {
    if Inserts(s, c) then Inserted(chain, c.target, c.node) else chain
  }

  lemma CasKeepsChain(s: Shared, chain: seq<nat>, c: Call)
    requires ChainFits(s, chain) && CallFits(s, chain, c) && Inserts(s, c)
    ensures ChainFits(StepCall(s, c).0, NextChain(s, chain, c))
  {
    var s', chain' := StepCall(s, c).0, NextChain(s, chain, c);
    InsertedMembers(chain, c.target, c.node);
    InsertKeepsDistinct(chain, c.target, c.node);
    match c.target
    case Root =>
      assert chain'[1..] == chain;
      ListFrame(s, s', s.root, chain);
      FirstIsSmallest(s, s.root, chain);
      SortedFrame(s, s', chain);
    case NextOf(m) =>
      InsertKeepsList(s, s.root, chain, m, c.node);
      InsertKeepsSorted(s, s.root, chain, m, c.node);
      SortedFrame(s, s', chain');
  }

  lemma CasStep(s: Shared, chain: seq<nat>, c: Call)
    requires ChainFits(s, chain) && CallFits(s, chain, c) && Inserts(s, c)
    ensures var (s', c') := StepCall(s, c);
            var chain' := NextChain(s, chain, c);
            ChainFits(s', chain') && CallFits(s', chain', c') && Evolves(s, chain, s', chain', c.node)
  {
    CasKeepsChain(s, chain, c);
    InsertedMembers(chain, c.target, c.node);
    hide ChainFits, Inserted;
  }

  lemma PrivateStep(s: Shared, chain: seq<nat>, c: Call)
    requires ChainFits(s, chain) && CallFits(s, chain, c) && c.pc in {SetData, SetNext}
    ensures var (s', c') := StepCall(s, c);
            ChainFits(s', chain) && CallFits(s', chain, c') && Evolves(s, chain, s', chain, c.node)
  {
    var s' := StepCall(s, c).0;
    assert forall m: nat :: m != c.node ==> NodeAt(s', m) == NodeAt(s, m);
    ListFrame(s, s', s.root, chain);
    SortedFrame(s, s', chain);
    hide ListFrom, Sorted, Distinct;
  }

  lemma ReadStep(s: Shared, chain: seq<nat>, c: Call)
    requires ChainFits(s, chain) && CallFits(s, chain, c) && c.pc !in {SetData, SetNext} && !Inserts(s, c)
    ensures var (s', c') := StepCall(s, c);
            s' == s && CallFits(s, chain, c')
  {
    NextInList(s, s.root, chain, if c.target.NextOf? then c.target.node else 0);
    hide ListFrom, Sorted, Distinct;
  }

  /** What a step keeps, for the call that takes it and in the eyes of the others. */
  lemma CallStep(s: Shared, chain: seq<nat>, c: Call)
    requires ChainFits(s, chain) && CallFits(s, chain, c)
    ensures var (s', c') := StepCall(s, c);
            var chain' := NextChain(s, chain, c);
            ChainFits(s', chain') && CallFits(s', chain', c') && Evolves(s, chain, s', chain', c.node)
  {
    hide ChainFits, CallFits;
    if c.pc in {SetData, SetNext} {
      PrivateStep(s, chain, c);
    } else if Inserts(s, c) {
      CasStep(s, chain, c);
    } else {
      ReadStep(s, chain, c);
    }
  }

  lemma StepCounts(sys: System, chain: seq<nat>, i: nat)
    requires i < |sys.calls| && |chain| == Count(AddedFlags(sys.calls))
    ensures |NextChain(sys.shared, chain, sys.calls[i])| == Count(AddedFlags(Step(sys, i).calls))
  {
    var c, c' := sys.calls[i], Step(sys, i).calls[i];
    InsertedMembers(chain, c.target, c.node);
    CountUpdate(AddedFlags(sys.calls), i, IsAdded(c'));
    assert AddedFlags(Step(sys, i).calls) == AddedFlags(sys.calls)[i := IsAdded(c')];
    hide Inserted, Read, NodeAt, Write;
  }

  lemma StepFits(sys: System, chain: seq<nat>, i: nat)
    requires i < |sys.calls| && Fits(sys, chain)
    ensures Fits(Step(sys, i), NextChain(sys.shared, chain, sys.calls[i]))
  {
    hide ChainFits, CallFits, NextChain, StepCall;
    var s, c, sys' := sys.shared, sys.calls[i], Step(sys, i);
    var chain' := NextChain(s, chain, c);
    CallStep(s, chain, c);
    StepCounts(sys, chain, i);
    forall j | 0 <= j < |sys.calls|
      ensures CallFits(sys'.shared, chain', sys'.calls[j])
    {
      if j != i {
        OtherCallFits(s, chain, sys'.shared, chain', c.node, sys.calls[j]);
      }
    }
    forall n | n in chain'
      ensures exists j :: 0 <= j < |sys'.calls| && sys'.calls[j].node == n
    {
      if n == c.node {
        assert sys'.calls[i].node == n;
      } else {
        var j :| 0 <= j < |sys.calls| && sys.calls[j].node == n;
        assert sys'.calls[j].node == n;
      }
    }
  }

  // ----- Whole runs -----

  lemma InitialFits(sys: System)
    requires Initial(sys)
    ensures Fits(sys, [])
  {
    CountNone(AddedFlags(sys.calls));
  }

  lemma {:induction false} RunFits(sys: System, schedule: seq<nat>) returns (chain: seq<nat>)
    requires Initial(sys) && Schedule(|sys.calls|, schedule)
    ensures Fits(Run(sys, schedule), chain)
  {
    hide Fits, Step, NextChain, Initial;
    if schedule == [] {
      InitialFits(sys);
      chain := [];
    } else {
      var last := |schedule| - 1;
      chain := RunFits(sys, schedule[..last]);
      StepFits(Run(sys, schedule[..last]), chain, schedule[last]);
      chain := NextChain(Run(sys, schedule[..last]).shared, chain, Run(sys, schedule[..last]).calls[schedule[last]]);
    }
  }

  /** The list has exactly the nodes of the calls that have added theirs, with the values they came with. */
  ghost predicate HoldsAdded(s: Shared, calls: seq<Call>, chain: seq<nat>) {
    && (forall i :: 0 <= i < |calls| ==> (IsAdded(calls[i]) <==> calls[i].node in chain))
    && (forall i :: 0 <= i < |calls| && IsAdded(calls[i]) ==> NodeAt(s, calls[i].node).data == calls[i].value)
    && (forall n :: n in chain ==> exists i :: 0 <= i < |calls| && calls[i].node == n)
  }

  /**
   In every state of every run, what a walk from root visits is finite and without repetition, has its
   data in ascending order, and consists of exactly the nodes of the calls that have added theirs.
   */
  lemma ListHoldsTheAdded(sys: System, schedule: seq<nat>) returns (chain: seq<nat>)
    requires Initial(sys) && Schedule(|sys.calls|, schedule)
    ensures var sys' := Run(sys, schedule);
            && ListFrom(sys'.shared, sys'.shared.root, chain) && Distinct(chain) && Sorted(sys'.shared, chain)
            && HoldsAdded(sys'.shared, sys'.calls, chain)
            && |chain| == Count(AddedFlags(sys'.calls))
  {
    chain := RunFits(sys, schedule);
    hide ListFrom, Sorted, Distinct;
  }

  /** No published node is ever lost, and its data never changes. */
  lemma {:induction false} NothingIsLost(sys: System, schedule: seq<nat>, more: seq<nat>, n: nat, chain: seq<nat>, chain': seq<nat>)
    requires Initial(sys) && Schedule(|sys.calls|, schedule) && Schedule(|sys.calls|, schedule + more)
    requires var s := Run(sys, schedule).shared; ListFrom(s, s.root, chain) && n in chain
    requires var s' := Run(sys, schedule + more).shared; ListFrom(s', s'.root, chain')
    ensures n in chain' && NodeAt(Run(sys, schedule + more).shared, n).data == NodeAt(Run(sys, schedule).shared, n).data
    decreases |more|
  {
    hide Step, Fits, Initial;
    var s, s' := Run(sys, schedule).shared, Run(sys, schedule + more).shared;
    if more == [] {
      assert schedule + more == schedule;
      ListIsUnique(s, s.root, chain, chain');
    } else {
      var last := |more| - 1;
      assert (schedule + more)[..|schedule| + last] == schedule + more[..last];
      var before := Run(sys, schedule + more[..last]);
      var middle := RunFits(sys, schedule + more[..last]);
      FitsGivesList(before, middle);
      NothingIsLost(sys, schedule, more[..last], n, chain, middle);
      StepFits(before, middle, more[last]);
      StepLosesNothing(before, middle, more[last], n);
      FitsGivesList(Step(before, more[last]), NextChain(before.shared, middle, before.calls[more[last]]));
      ListIsUnique(s', s'.root, chain', NextChain(before.shared, middle, before.calls[more[last]]));
    }
  }

  lemma FitsGivesList(sys: System, chain: seq<nat>)
    requires Fits(sys, chain)
    ensures ListFrom(sys.shared, sys.shared.root, chain)
  {
  }

  lemma StepLosesNothing(sys: System, chain: seq<nat>, i: nat, n: nat)
    requires Fits(sys, chain) && i < |sys.calls| && n in chain
    ensures n in NextChain(sys.shared, chain, sys.calls[i])
    ensures NodeAt(Step(sys, i).shared, n).data == NodeAt(sys.shared, n).data
  {
    CallStep(sys.shared, chain, sys.calls[i]);
    hide StepCall, ChainFits, CallFits, NextChain;
  }

  // ----- The check at the end -----

  predicate Ascending(data: seq<int>) {
    forall k :: 0 <= k < |data| - 1 ==> data[k] < data[k + 1]
  }

  /** The loop of verify: it walks the list, at most length + 1 nodes of it, and compares neighbours. */
  method Verify(s: Shared, length: nat, ghost chain: seq<nat>) returns (count: nat, ok: bool)
    requires ListFrom(s, s.root, chain)
    ensures count == if |chain| <= length then |chain| else length + 1
    ensures ok <==> Ascending(Data(s, chain[..count]))
  {
    var p, n := 0, s.root;
    count, ok := 0, true;
    assert chain[0..] == chain;
    while n != 0 && count < length + 1
      invariant count <= |chain| && count <= length + 1 && ListFrom(s, n, chain[count..])
      invariant p != 0 <==> count > 0
      invariant p != 0 ==> p == chain[count - 1]
      invariant ok <==> Ascending(Data(s, chain[..count]))
      decreases length + 1 - count
    {
      assert chain[count..][0] == chain[count] == n && chain[count..][1..] == chain[count + 1..];
      if p != 0 {
        if NodeAt(s, p).data >= NodeAt(s, n).data {
          ok := false;
        }
      }
      ghost var d, d' := Data(s, chain[..count]), Data(s, chain[..count + 1]);
      assert d' == d + [NodeAt(s, n).data];
      assert count > 0 ==> d'[count - 1] == NodeAt(s, p).data && d'[(count - 1) + 1] == NodeAt(s, n).data;
      p := n;
      count := count + 1;
      n := NodeAt(s, n).next;
    }
  }

  /** No two calls that added a node added the same value. */
  predicate DistinctValues(calls: seq<Call>) {
    forall i, j :: 0 <= i < j < |calls| && IsAdded(calls[i]) && IsAdded(calls[j]) ==> calls[i].value != calls[j].value
  }

  lemma {:induction false} AscendingIfAllDiffer(s: Shared, chain: seq<nat>)
    requires Sorted(s, chain) && Distinct(chain)
    requires forall n, m :: n in chain && m in chain && n != m ==> NodeAt(s, n).data != NodeAt(s, m).data
    ensures Ascending(Data(s, chain))
  {
    if |chain| > 1 {
      AscendingIfAllDiffer(s, chain[1..]);
      var d, e := Data(s, chain), Data(s, chain[1..]);
      assert d == [d[0]] + e && chain[1] in chain[1..];
      forall k | 0 <= k < |d| - 1
        ensures d[k] < d[k + 1]
      {
        if k > 0 {
          assert e[k - 1] < e[(k - 1) + 1];
        }
      }
    }
  }

  lemma {:induction false} AscendingDiffer(d: seq<int>, i: nat, j: nat)
    requires Ascending(d) && i < j < |d|
    ensures d[i] < d[j]
  {
    if i + 1 < j {
      AscendingDiffer(d, i, j - 1);
      assert d[j - 1] < d[(j - 1) + 1];
    }
  }

  /** The list is strictly increasing exactly when the values added so far are distinct. */
  lemma StrictIffValuesDistinct(sys: System, schedule: seq<nat>, chain: seq<nat>)
    requires Initial(sys) && Schedule(|sys.calls|, schedule)
    requires var s := Run(sys, schedule).shared; ListFrom(s, s.root, chain)
    ensures Ascending(Data(Run(sys, schedule).shared, chain)) <==> DistinctValues(Run(sys, schedule).calls)
  {
    hide Run, Initial, ListFrom, Fits, DistinctNodes, HoldsAdded, Ascending, DistinctValues, Distinct, Sorted;
    var sys' := Run(sys, schedule);
    var c := ListHoldsTheAdded(sys, schedule);
    ListIsUnique(sys'.shared, sys'.shared.root, chain, c);
    AddedNodesDiffer(sys, schedule);
    if DistinctValues(sys'.calls) {
      DistinctValuesAscend(sys'.shared, sys'.calls, chain);
    } else if Ascending(Data(sys'.shared, chain)) {
      EqualValuesDoNotAscend(sys'.shared, sys'.calls, chain);
    }
  }

  lemma DistinctValuesAscend(s: Shared, calls: seq<Call>, chain: seq<nat>)
    requires HoldsAdded(s, calls, chain) && Sorted(s, chain) && Distinct(chain) && DistinctValues(calls)
    ensures Ascending(Data(s, chain))
  {
    hide Sorted, Distinct, NodeAt;
    forall n, m | n in chain && m in chain && n != m
      ensures NodeAt(s, n).data != NodeAt(s, m).data
    {
      var i :| 0 <= i < |calls| && calls[i].node == n;
      var j :| 0 <= j < |calls| && calls[j].node == m;
      assert IsAdded(calls[i]) && IsAdded(calls[j]);
    }
    AscendingIfAllDiffer(s, chain);
  }

  lemma EqualValuesDoNotAscend(s: Shared, calls: seq<Call>, chain: seq<nat>)
    requires HoldsAdded(s, calls, chain) && DistinctNodes(calls) && !DistinctValues(calls)
    ensures !Ascending(Data(s, chain))
  {
    hide NodeAt, Ascending;
    var d := Data(s, chain);
    if Ascending(d) {
      var i, j :| 0 <= i < j < |calls| && IsAdded(calls[i]) && IsAdded(calls[j]) && calls[i].value == calls[j].value;
      assert calls[i].node in chain && calls[j].node in chain;
      var k :| 0 <= k < |chain| && chain[k] == calls[i].node;
      var l :| 0 <= l < |chain| && chain[l] == calls[j].node;
      if k < l {
        AscendingDiffer(d, k, l);
      } else {
        AscendingDiffer(d, l, k);
      }
    }
  }

  lemma AddedNodesDiffer(sys: System, schedule: seq<nat>)
    requires Initial(sys) && Schedule(|sys.calls|, schedule)
    ensures DistinctNodes(Run(sys, schedule).calls)
  {
    var chain := RunFits(sys, schedule);
    hide ChainFits, CallFits;
  }

  predicate Returned(sys: System) {
    forall i :: 0 <= i < |sys.calls| ==> sys.calls[i].pc in {Added, NoMemory}
  }

  function FailedFlags(calls: seq<Call>): (flags: seq<bool>)
    ensures |flags| == |calls|
    ensures forall i :: 0 <= i < |calls| ==> flags[i] == (calls[i].pc == NoMemory)
  {
    seq(|calls|, i requires 0 <= i < |calls| => calls[i].pc == NoMemory)
  }

  /**
   The asserts of verify once every call has returned. The calls of main's own adder come first, and
   main drops their number of failures: the count is right exactly when the number of workers divides
   the length of the input and no call of main failed. The order is right exactly when the values
   added are distinct.
   */
  lemma VerifyPassesIff(sys: System, schedule: seq<nat>, chain: seq<nat>, workers: nat, length: nat)
    requires Initial(sys) && Schedule(|sys.calls|, schedule) && workers > 0
    requires |sys.calls| == workers * (length / workers) && Returned(Run(sys, schedule))
    requires var s := Run(sys, schedule).shared; ListFrom(s, s.root, chain)
    ensures var sys' := Run(sys, schedule);
            var mine := length / workers;
            && |chain| <= length && mine <= |sys'.calls|
            && (|chain| + Count(FailedFlags(sys'.calls[mine..])) == length
                <==> length % workers == 0 && Count(FailedFlags(sys'.calls[..mine])) == 0)
            && (Ascending(Data(sys'.shared, chain)) <==> DistinctValues(sys'.calls))
  {
    hide Initial, Run, ListFrom, Fits, HoldsAdded, Distinct, Sorted, Ascending, DistinctValues;
    var sys' := Run(sys, schedule);
    StrictIffValuesDistinct(sys, schedule, chain);
    var c := ListHoldsTheAdded(sys, schedule);
    ListIsUnique(sys'.shared, sys'.shared.root, chain, c);
    CountComplement(AddedFlags(sys'.calls), FailedFlags(sys'.calls));
    WorkSplit(length, workers);
    FailedSplit(sys'.calls, length / workers);
  }

  lemma FailedSplit(calls: seq<Call>, mine: nat)
    requires mine <= |calls|
    ensures Count(FailedFlags(calls)) == Count(FailedFlags(calls[..mine])) + Count(FailedFlags(calls[mine..]))
  {
    CountConcat(FailedFlags(calls[..mine]), FailedFlags(calls[mine..]));
    assert FailedFlags(calls) == FailedFlags(calls[..mine]) + FailedFlags(calls[mine..]);
  }

  /** Each worker gets the quotient; nothing is left over exactly when the division has no remainder. */
  lemma WorkSplit(length: nat, workers: nat)
    requires workers > 0
    ensures length / workers <= workers * (length / workers) <= length
    ensures workers * (length / workers) == length <==> length % workers == 0
  {
    var q, r := length / workers, length % workers;
    assert length == workers * q + r;
    TimesAtLeast(workers, q);
  }

  lemma TimesAtLeast(m: nat, n: nat)
    requires m > 0
    ensures n <= m * n
  {
    assert m * n == n + (m - 1) * n;
  }
}
