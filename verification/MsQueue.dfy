/**
 The Michael-Scott queue of the msq benchmark, for any number of enqueuers and dequeuers.

 Every access to shared memory is one step, memory is sequentially consistent, and nodes are not
 reused: each enqueue brings its own node. A thread is one call. The state machine is `Step`; a
 `History` adds what the proofs talk about and nothing that `Step` reads.
 */
module MsQueue {
  import opened Schedules

  // ----- Shared memory and threads -----

  /** A node number and a modification count; numbers up to 0 are null. */
  datatype NodePtr = NodePtr(ptr: int, count: int)

  datatype Node = Node(next: NodePtr, data: int)

  datatype Shared = Shared(head: NodePtr, tail: NodePtr, nodes: map<int, Node>, inUse: set<int>)

  datatype EnqueuePc =
    | SetData | AssertData | SetNext | AssertNext | LoadTail | LoadNext | ReloadTail
    | Link | HelpTail | MoveTail | Enqueued | EnqueueFailed

  datatype DequeuePc =
    | NotCalled | LoadHead | LoadTailD | LoadNextD | ReloadHead
    | HelpTailD | LoadData | MoveHead | FreeNode | Dequeued | FoundEmpty | DequeueFailed

  /** A call with its local variables; the Failed program counters are failed in-code asserts. */
  datatype Thread =
    | Enqueuer(epc: EnqueuePc, nid: int, value: int, tail: NodePtr, next: NodePtr)
    | Dequeuer(dpc: DequeuePc, head: NodePtr, tail: NodePtr, next: NodePtr, data: int)

  datatype System = System(shared: Shared, threads: seq<Thread>)

  /** int counts wrap at 2^31. */
  function Increment(count: int): int {
    if count == 0x7FFF_FFFF then -0x8000_0000 else count + 1
  }

  const NULL := NodePtr(-1, 0)

  function NodeAt(s: Shared, n: int): Node {
    if n in s.nodes then s.nodes[n] else Node(NULL, 0)
  }

  function SetNode(s: Shared, n: int, node: Node): Shared {
    s.(nodes := s.nodes[n := node])
  }

  // ----- Steps -----

  function SwingTail(s: Shared, expected: NodePtr, ptr: int): Shared {
    if s.tail == expected then s.(tail := NodePtr(ptr, Increment(expected.count))) else s
  }

  function StepEnqueuer(s: Shared, e: Thread): (r: (Shared, Thread))
    requires e.Enqueuer?
    ensures r.1.Enqueuer? && r.1.nid == e.nid && r.1.value == e.value
  {
    match e.epc
    case SetData =>
      if e.value == 0 then (s, e.(epc := EnqueueFailed))
      else (SetNode(s, e.nid, NodeAt(s, e.nid).(data := e.value)), e.(epc := AssertData))
    case AssertData => (s, e.(epc := if NodeAt(s, e.nid).data == 0 then EnqueueFailed else SetNext))
    case SetNext => (SetNode(s, e.nid, NodeAt(s, e.nid).(next := NULL)), e.(epc := AssertNext))
    case AssertNext => (s, e.(epc := if NodeAt(s, e.nid).next.ptr != -1 then EnqueueFailed else LoadTail))
    case LoadTail => (s, e.(tail := s.tail, epc := LoadNext))
    case LoadNext => (s, e.(next := NodeAt(s, e.tail.ptr).next, epc := ReloadTail))
    case ReloadTail =>
      if e.tail.ptr <= 0 || s.tail.ptr <= 0 then (s, e.(epc := EnqueueFailed))
      else if e.tail == s.tail then (s, e.(epc := if e.next.ptr <= 0 then Link else HelpTail))
      else (s, e.(epc := LoadTail))
    case Link =>
      var node := NodeAt(s, e.tail.ptr);
      if node.next == e.next then
        (SetNode(s, e.tail.ptr, node.(next := NodePtr(e.nid, Increment(e.next.count)))), e.(epc := MoveTail))
      else (s, e.(next := node.next, epc := LoadTail))
    case HelpTail => (SwingTail(s, e.tail, e.next.ptr), e.(epc := LoadTail))
    case MoveTail => (SwingTail(s, e.tail, e.nid), e.(epc := Enqueued))
    case Enqueued => (s, e)
    case EnqueueFailed => (s, e)
  }

  function StepDequeuer(s: Shared, d: Thread): (r: (Shared, Thread))
    requires d.Dequeuer?
    ensures r.1.Dequeuer?
  {
    match d.dpc
    case NotCalled => (s, d.(dpc := LoadHead))
    case LoadHead => (s, d.(head := s.head, dpc := LoadTailD))
    case LoadTailD => (s, d.(tail := s.tail, dpc := LoadNextD))
    case LoadNextD => (s, d.(next := NodeAt(s, d.head.ptr).next, dpc := ReloadHead))
    case ReloadHead =>
      if d.head != s.head then (s, d.(dpc := LoadHead))
      else if d.head.ptr == d.tail.ptr then
        if d.next.ptr <= 0 then (s, d.(data := 0, dpc := FoundEmpty)) else (s, d.(dpc := HelpTailD))
      else (s, d.(dpc := if d.next.ptr <= 0 then DequeueFailed else LoadData))
    case HelpTailD => (SwingTail(s, d.tail, d.next.ptr), d.(dpc := LoadHead))
    case LoadData =>
      var data := NodeAt(s, d.next.ptr).data;
      (s, d.(data := data, dpc := if data == 0 || data >= 1000 then DequeueFailed else MoveHead))
    case MoveHead =>
      if s.head == d.head then
        (s.(head := NodePtr(d.next.ptr, Increment(d.head.count))),
         d.(dpc := if d.data == 0 || d.data >= 1000 then DequeueFailed else FreeNode))
      else (s, d.(dpc := LoadHead))
    case FreeNode => (s.(inUse := s.inUse - {d.head.ptr}), d.(dpc := Dequeued))
    case Dequeued => (s, d)
    case FoundEmpty => (s, d)
    case DequeueFailed => (s, d)
  }

  function StepThread(s: Shared, t: Thread): (Shared, Thread) {
    if t.Enqueuer? then StepEnqueuer(s, t) else StepDequeuer(s, t)
  }

  function Step(sys: System, i: nat): System
    requires i < |sys.threads|
  {
    var (s', t') := StepThread(sys.shared, sys.threads[i]);
    System(s', sys.threads[i := t'])
  }

  // ----- Histories -----

  /**
   `chain` lists the nodes ever linked, oldest first; Head and Tail point at its elements `headAt` and
   `tailAt`. `enqueuers` and `dequeuers` are the calls that linked a node and that moved Head, in that
   order. `sawEmpty` are the dequeue calls during which the queue was empty in some state.
   */
  datatype History = History(sys: System, chain: seq<int>, headAt: nat, tailAt: nat,
                             enqueuers: seq<nat>, dequeuers: seq<nat>, sawEmpty: set<nat>)

  predicate Links(s: Shared, t: Thread) {
    t.Enqueuer? && t.epc == Link && NodeAt(s, t.tail.ptr).next == t.next
  }

  predicate SwingsTail(s: Shared, t: Thread) {
    && (if t.Enqueuer? then t.epc == HelpTail || t.epc == MoveTail else t.dpc == HelpTailD)
    && s.tail == t.tail
  }

  predicate MovesHead(s: Shared, t: Thread) {
    t.Dequeuer? && t.dpc == MoveHead && s.head == t.head
  }

  predicate Calling(t: Thread) {
    t.Dequeuer? && t.dpc !in {NotCalled, Dequeued, FoundEmpty, DequeueFailed}
  }

  /** The data in the nodes of a piece of chain. */
  function DataOf(s: Shared, ns: seq<int>): (values: seq<int>)
    ensures |values| == |ns|
    ensures forall k :: 0 <= k < |ns| ==> values[k] == NodeAt(s, ns[k]).data
  {
    seq(|ns|, k requires 0 <= k < |ns| => NodeAt(s, ns[k]).data)
  }

  function StepHistory(h: History, i: nat): (h': History)
    requires i < |h.sys.threads|
    ensures h'.sys == Step(h.sys, i)
  {
    var s, t := h.sys.shared, h.sys.threads[i];
    var sys' := Step(h.sys, i);
    var headAt := if MovesHead(s, t) then h.headAt + 1 else h.headAt;
    var chain := if Links(s, t) then h.chain + [t.nid] else h.chain;
    var calling := set j | 0 <= j < |sys'.threads| && Calling(sys'.threads[j]);
    History(
      sys', chain, headAt,
      if SwingsTail(s, t) then h.tailAt + 1 else h.tailAt,
      if Links(s, t) then h.enqueuers + [i] else h.enqueuers,
      if MovesHead(s, t) then h.dequeuers + [i] else h.dequeuers,
      if headAt + 1 == |chain| then h.sawEmpty + calling else h.sawEmpty)
  }

  /** The constructor's state, and calls that have not started: distinct fresh nodes, values as the asserts want them. */
  predicate Initial(h: History) {
    && h.sys.shared.head == NodePtr(1, 0) && h.sys.shared.tail == NodePtr(1, 0)
    && h.sys.shared.nodes == map[1 := Node(NULL, 0)]
    && (forall i :: 0 <= i < |h.sys.threads| ==> Fresh(h.sys.threads[i]))
    && DistinctNodes(h.sys.threads)
    && h.chain == [1] && h.headAt == 0 && h.tailAt == 0
    && h.enqueuers == [] && h.dequeuers == [] && h.sawEmpty == {}
  }

  predicate Fresh(t: Thread) {
    if t.Enqueuer? then t.epc == SetData && t.nid > 1 && t.value != 0 && t.value < 1000 else t.dpc == NotCalled
  }

  predicate DistinctNodes(threads: seq<Thread>) {
    forall i, j :: 0 <= i < j < |threads| && threads[i].Enqueuer? && threads[j].Enqueuer? ==>
      threads[i].nid != threads[j].nid
  }

  function Run(h: History, schedule: seq<nat>): (h': History)
    requires Schedule(|h.sys.threads|, schedule)
    ensures |h'.sys.threads| == |h.sys.threads|
  {
    if schedule == [] then h
    else
      var last := |schedule| - 1;
      assert Schedule(|h.sys.threads|, schedule[..last]);
      StepHistory(Run(h, schedule[..last]), schedule[last])
  }

  // ----- The invariant -----

  /** Position of a node in the chain. */
  function Pos(c: seq<int>, n: int): (k: int)
    ensures n in c ==> 0 <= k < |c| && c[k] == n
    ensures n !in c ==> k == -1
  {
    if c == [] then -1
    else if c[|c| - 1] == n then |c| - 1
    else Pos(c[..|c| - 1], n)
  }

  predicate Distinct(c: seq<int>) {
    forall i, j :: 0 <= i < j < |c| ==> c[i] != c[j]
  }

  lemma PosAppend(c: seq<int>, m: int, n: int)
    requires n in c && m !in c
    ensures Pos(c + [m], n) == Pos(c, n)
    ensures Pos(c + [m], m) == |c|
  {
    assert (c + [m])[..|c|] == c;
  }

  /** The nodes form one list; Head does not pass Tail and Tail lags the last node by at most one. */
  predicate ChainFits(s: Shared, c: seq<int>, h: nat, t: nat) {
    && h <= t < |c| <= t + 2 && Distinct(c)
    && s.head.ptr == c[h] && s.tail.ptr == c[t]
    && (forall i :: 0 <= i < |c| ==> c[i] > 0)
    && (forall i :: 0 <= i < |c| - 1 ==> NodeAt(s, c[i]).next.ptr == c[i + 1])
    && NodeAt(s, c[|c| - 1]).next.ptr <= 0
    && (forall i :: 1 <= i < |c| ==> NodeAt(s, c[i]).data != 0 && NodeAt(s, c[i]).data < 1000)
  }

  /** `next` was read from node n, and is still there unless it was null. */
  predicate ReadNext(s: Shared, n: int, next: NodePtr) {
    next.ptr > 0 ==> NodeAt(s, n).next == next
  }

  predicate EnqueuerFits(s: Shared, c: seq<int>, t: nat, e: Thread)
    requires e.Enqueuer?
  {
    && e.nid > 1 && e.value != 0 && e.value < 1000 && e.epc != EnqueueFailed
    && (e.epc != MoveTail && e.epc != Enqueued ==> e.nid !in c)
    && (e.epc !in {SetData, MoveTail, Enqueued} ==> NodeAt(s, e.nid).data == e.value)
    && (e.epc !in {SetData, AssertData, SetNext, MoveTail, Enqueued} ==> NodeAt(s, e.nid).next == NULL)
    && (e.epc in {LoadNext, ReloadTail, Link, HelpTail, MoveTail} ==> e.tail.ptr in c && Pos(c, e.tail.ptr) <= t)
    && (e.epc in {ReloadTail, Link, HelpTail} ==> ReadNext(s, e.tail.ptr, e.next))
    && (e.epc == Link ==> e.next.ptr <= 0)
    && (e.epc == HelpTail ==> e.next.ptr > 0)
    && (e.epc == MoveTail ==> NodeAt(s, e.tail.ptr).next.ptr == e.nid)
  }

  predicate DequeuerFits(s: Shared, c: seq<int>, h: nat, t: nat, sawEmpty: bool, d: Thread)
    requires d.Dequeuer?
  {
    && d.dpc != DequeueFailed
    && (d.dpc in {LoadTailD, LoadNextD, ReloadHead, HelpTailD, LoadData, MoveHead} ==>
          d.head.ptr in c && Pos(c, d.head.ptr) <= h)
    && (d.dpc in {LoadNextD, ReloadHead, HelpTailD, LoadData, MoveHead} ==>
          d.tail.ptr in c && Pos(c, d.head.ptr) <= Pos(c, d.tail.ptr) <= t)
    && (d.dpc in {ReloadHead, HelpTailD, LoadData, MoveHead} ==> ReadNext(s, d.head.ptr, d.next))
    && (d.dpc == ReloadHead && d.next.ptr <= 0 ==>
          && Pos(c, d.tail.ptr) == Pos(c, d.head.ptr)
          && (Pos(c, d.head.ptr) == h ==> sawEmpty))
    && (d.dpc == HelpTailD ==> d.next.ptr > 0 && d.head.ptr == d.tail.ptr)
    && (d.dpc in {LoadData, MoveHead} ==> d.next.ptr > 0 && Pos(c, d.head.ptr) < t)
    && (d.dpc == MoveHead ==> d.data == NodeAt(s, d.next.ptr).data)
    && (d.dpc in {MoveHead, FreeNode, Dequeued} ==> d.data != 0 && d.data < 1000)
    && (d.dpc == FoundEmpty ==> sawEmpty)
    && (d.dpc == FreeNode ==> d.head.ptr in c && Pos(c, d.head.ptr) < h)
  }

  predicate ThreadFits(h: History, i: nat)
    requires i < |h.sys.threads|
  {
    var t := h.sys.threads[i];
    if t.Enqueuer? then EnqueuerFits(h.sys.shared, h.chain, h.tailAt, t)
    else DequeuerFits(h.sys.shared, h.chain, h.headAt, h.tailAt, i in h.sawEmpty, t)
  }

  predicate Fits(h: History) {
    && ChainFits(h.sys.shared, h.chain, h.headAt, h.tailAt)
    && DistinctNodes(h.sys.threads)
    && (forall i: nat :: i < |h.sys.threads| ==> ThreadFits(h, i))
  }

  // ----- Preservation -----

  /**
   How a step of one thread changes what the others rely on: the chain grows at the end, the positions
   move forward, a non-null `next` and the data of a chain node stay, and outside the chain only the
   node `own` changes.
   */
  ghost predicate Evolves(s: Shared, c: seq<int>, h: nat, t: nat, s': Shared, c': seq<int>, h': nat, t': nat, own: int) {
    && (c' == c || (c' == c + [own] && own !in c))
    && h <= h' && t <= t'
    && (forall n :: n in c ==> NodeAt(s', n).data == NodeAt(s, n).data
                               && ReadNext(s', n, NodeAt(s, n).next))
    && (forall n :: n !in c && n != own ==> NodeAt(s', n) == NodeAt(s, n))
  }

  lemma PosEvolves(s: Shared, c: seq<int>, h: nat, t: nat, s': Shared, c': seq<int>, h': nat, t': nat, own: int)
    requires Evolves(s, c, h, t, s', c', h', t', own)
    ensures forall n :: n in c ==> n in c' && Pos(c', n) == Pos(c, n)
    ensures forall n :: n in c' ==> n in c || n == own
  {
    forall n | n in c
      ensures n in c' && Pos(c', n) == Pos(c, n)
    {
      if c' != c {
        PosAppend(c, own, n);
      }
    }
  }

  lemma OtherEnqueuerFits(s: Shared, c: seq<int>, h: nat, t: nat, s': Shared, c': seq<int>, h': nat, t': nat, own: int, e: Thread)
    requires Evolves(s, c, h, t, s', c', h', t', own) && e.Enqueuer? && e.nid != own
    requires EnqueuerFits(s, c, t, e)
    ensures EnqueuerFits(s', c', t', e)
  {
    PosEvolves(s, c, h, t, s', c', h', t', own);
  }

  lemma OtherDequeuerFits(s: Shared, c: seq<int>, h: nat, t: nat, s': Shared, c': seq<int>, h': nat, t': nat, own: int,
                          d: Thread, saw: bool, saw': bool)
    requires Evolves(s, c, h, t, s', c', h', t', own) && d.Dequeuer? && (saw ==> saw')
    requires ChainFits(s, c, h, t) && DequeuerFits(s, c, h, t, saw, d)
    ensures DequeuerFits(s', c', h', t', saw', d)
  {
    PosEvolves(s, c, h, t, s', c', h', t', own);
    if d.dpc == MoveHead {
      ChainSuccessor(s, c, h, t, d.head.ptr);
    }
  }

  /** In the chain, a node's non-null next is the node one position later. */
  lemma ChainSuccessor(s: Shared, c: seq<int>, h: nat, t: nat, n: int)
    requires ChainFits(s, c, h, t) && n in c
    ensures NodeAt(s, n).next.ptr > 0 <==> Pos(c, n) < |c| - 1
    ensures NodeAt(s, n).next.ptr > 0 ==>
              var m := NodeAt(s, n).next.ptr;
              m in c && Pos(c, m) == Pos(c, n) + 1 && NodeAt(s, m).data != 0 && NodeAt(s, m).data < 1000
  {
    var k := Pos(c, n);
    if k < |c| - 1 {
      assert c[k + 1] in c;
      assert c[Pos(c, c[k + 1])] == c[k + 1];
    }
  }

  /** The node whose number an enqueuer writes in. */
  function OwnNode(t: Thread): int { if t.Enqueuer? then t.nid else 0 }

  lemma HeadAndTailInChain(s: Shared, c: seq<int>, h: nat, t: nat)
    requires ChainFits(s, c, h, t)
    ensures s.head.ptr in c && Pos(c, s.head.ptr) == h
    ensures s.tail.ptr in c && Pos(c, s.tail.ptr) == t
  {
  }

  /** Writing in a node outside the chain. */
  lemma PrivateWrite(s: Shared, c: seq<int>, h: nat, t: nat, n: int, node: Node)
    requires ChainFits(s, c, h, t) && n !in c
    ensures ChainFits(SetNode(s, n, node), c, h, t)
    ensures Evolves(s, c, h, t, SetNode(s, n, node), c, h, t, n)
  {
    assert forall i :: 0 <= i < |c| ==> c[i] in c;
  }

  function Linked(s: Shared, last: int, own: int, count: int): Shared {
    SetNode(s, last, NodeAt(s, last).(next := NodePtr(own, count)))
  }

  /** Linking a fresh node behind the last one of the chain. */
  lemma LinkGrowsChain(s: Shared, c: seq<int>, h: nat, t: nat, last: int, own: int, count: int)
    requires ChainFits(s, c, h, t) && t == |c| - 1 && last == c[|c| - 1]
    requires own > 0 && own !in c && NodeAt(s, own).next == NULL
    requires NodeAt(s, own).data != 0 && NodeAt(s, own).data < 1000
    ensures ChainFits(Linked(s, last, own, count), c + [own], h, t)
  {
    var s', c' := Linked(s, last, own, count), c + [own];
    assert NodeAt(s', own) == NodeAt(s, own) && c'[|c|] == own;
    forall i | 0 <= i < |c|
      ensures c'[i] == c[i] && c[i] != own && NodeAt(s', c[i]).data == NodeAt(s, c[i]).data
      ensures i < |c| - 1 ==> NodeAt(s', c[i]) == NodeAt(s, c[i])
    {
      assert c[i] in c;
    }
    assert NodeAt(s', c'[|c| - 1]).next.ptr == own;
    hide NodeAt, Linked;
  }

  lemma LinkEvolves(s: Shared, c: seq<int>, h: nat, t: nat, last: int, own: int, count: int)
    requires own !in c && last in c && NodeAt(s, last).next.ptr <= 0
    ensures Evolves(s, c, h, t, Linked(s, last, own, count), c + [own], h, t, own)
  {
  }

  lemma LinkStep(s: Shared, c: seq<int>, h: nat, t: nat, e: Thread)
    requires ChainFits(s, c, h, t) && e.Enqueuer? && EnqueuerFits(s, c, t, e) && Links(s, e)
    ensures var (s', e') := StepEnqueuer(s, e);
            && ChainFits(s', c + [e.nid], h, t)
            && Evolves(s, c, h, t, s', c + [e.nid], h, t, e.nid)
            && EnqueuerFits(s', c + [e.nid], t, e')
  {
    hide Pos;
    assert t < |c|;
    ChainSuccessor(s, c, h, t, e.tail.ptr);
    hide ChainFits, Evolves;
    LinkGrowsChain(s, c, h, t, e.tail.ptr, e.nid, Increment(e.next.count));
    LinkEvolves(s, c, h, t, e.tail.ptr, e.nid, Increment(e.next.count));
    PosAppend(c, e.nid, e.tail.ptr);
    assert StepEnqueuer(s, e).0 == Linked(s, e.tail.ptr, e.nid, Increment(e.next.count));
  }

  /** A successful cmpxchg of Tail moves it to the next node of the chain. */
  lemma TailMovesOn(s: Shared, c: seq<int>, h: nat, t: nat, expected: NodePtr, ptr: int, own: int)
    requires ChainFits(s, c, h, t) && s.tail == expected && ptr > 0 && NodeAt(s, expected.ptr).next.ptr == ptr
    ensures var s' := SwingTail(s, expected, ptr);
            ChainFits(s', c, h, t + 1) && Evolves(s, c, h, t, s', c, h, t + 1, own)
  {
    HeadAndTailInChain(s, c, h, t);
    ChainSuccessor(s, c, h, t, s.tail.ptr);
    assert forall n :: NodeAt(SwingTail(s, expected, ptr), n) == NodeAt(s, n);
  }

  lemma NothingEvolves(s: Shared, c: seq<int>, h: nat, t: nat, s': Shared, own: int)
    requires s'.nodes == s.nodes
    ensures Evolves(s, c, h, t, s', c, h, t, own)
  {
    assert forall n :: NodeAt(s', n) == NodeAt(s, n);
  }

  /** The steps of an enqueuer that write nothing. */
  lemma EnqueuerReads(s: Shared, c: seq<int>, h: nat, t: nat, e: Thread)
    requires ChainFits(s, c, h, t) && e.Enqueuer? && EnqueuerFits(s, c, t, e)
    requires e.epc !in {SetData, SetNext} && !Links(s, e) && !SwingsTail(s, e)
    ensures StepEnqueuer(s, e).0 == s && EnqueuerFits(s, c, t, StepEnqueuer(s, e).1)
  {
    HeadAndTailInChain(s, c, h, t);
    hide ChainFits, Pos;
  }

  lemma EnqueuerWrites(s: Shared, c: seq<int>, h: nat, t: nat, e: Thread)
    requires ChainFits(s, c, h, t) && e.Enqueuer? && EnqueuerFits(s, c, t, e) && e.epc in {SetData, SetNext}
    ensures var (s', e') := StepEnqueuer(s, e);
            ChainFits(s', c, h, t) && EnqueuerFits(s', c, t, e') && Evolves(s, c, h, t, s', c, h, t, e.nid)
  {
    PrivateWrite(s, c, h, t, e.nid, NodeAt(StepEnqueuer(s, e).0, e.nid));
    hide ChainFits, Evolves, Pos;
  }

  lemma EnqueuerSwings(s: Shared, c: seq<int>, h: nat, t: nat, e: Thread)
    requires ChainFits(s, c, h, t) && e.Enqueuer? && EnqueuerFits(s, c, t, e) && SwingsTail(s, e)
    ensures var (s', e') := StepEnqueuer(s, e);
            ChainFits(s', c, h, t + 1) && EnqueuerFits(s', c, t + 1, e') && Evolves(s, c, h, t, s', c, h, t + 1, e.nid)
  {
    var ptr := if e.epc == MoveTail then e.nid else e.next.ptr;
    TailMovesOn(s, c, h, t, e.tail, ptr, e.nid);
    hide ChainFits, Evolves, Pos;
    assert forall n :: NodeAt(SwingTail(s, e.tail, ptr), n) == NodeAt(s, n);
  }

  /** What a step of an enqueuer keeps. */
  lemma EnqueuerStep(s: Shared, c: seq<int>, h: nat, t: nat, e: Thread)
    requires ChainFits(s, c, h, t) && e.Enqueuer? && EnqueuerFits(s, c, t, e)
    ensures var (s', e') := StepEnqueuer(s, e);
            var c' := if Links(s, e) then c + [e.nid] else c;
            var t' := if SwingsTail(s, e) then t + 1 else t;
            && ChainFits(s', c', h, t') && e'.Enqueuer? && EnqueuerFits(s', c', t', e')
            && Evolves(s, c, h, t, s', c', h, t', e.nid)
  {
    hide ChainFits, EnqueuerFits, Evolves, StepEnqueuer;
    if e.epc in {SetData, SetNext} {
      EnqueuerWrites(s, c, h, t, e);
    } else if Links(s, e) {
      LinkStep(s, c, h, t, e);
    } else if SwingsTail(s, e) {
      EnqueuerSwings(s, c, h, t, e);
    } else {
      EnqueuerReads(s, c, h, t, e);
      NothingEvolves(s, c, h, t, s, e.nid);
    }
  }

  /** The null read of `next` means that the chain ended at Head and at Tail then. */
  lemma DequeuerLoadsNext(s: Shared, c: seq<int>, h: nat, t: nat, saw: bool, saw': bool, d: Thread)
    requires ChainFits(s, c, h, t) && d.Dequeuer? && DequeuerFits(s, c, h, t, saw, d) && d.dpc == LoadNextD
    requires h + 1 == |c| ==> saw'
    ensures DequeuerFits(s, c, h, t, saw', StepDequeuer(s, d).1)
  {
    hide Pos;
    assert h <= t < |c|;
    ChainSuccessor(s, c, h, t, d.head.ptr);
    hide ChainFits;
  }

  lemma DequeuerCompares(s: Shared, c: seq<int>, h: nat, t: nat, saw: bool, saw': bool, d: Thread)
    requires ChainFits(s, c, h, t) && d.Dequeuer? && DequeuerFits(s, c, h, t, saw, d) && d.dpc == ReloadHead
    requires saw ==> saw'
    ensures DequeuerFits(s, c, h, t, saw', StepDequeuer(s, d).1)
  {
    hide Pos;
    HeadAndTailInChain(s, c, h, t);
    hide ChainFits;
    var p, q := Pos(c, d.head.ptr), Pos(c, d.tail.ptr);
    assert p == q ==> c[p] == c[q];
  }

  lemma DequeuerLoadsData(s: Shared, c: seq<int>, h: nat, t: nat, saw: bool, saw': bool, d: Thread)
    requires ChainFits(s, c, h, t) && d.Dequeuer? && DequeuerFits(s, c, h, t, saw, d) && d.dpc == LoadData
    ensures DequeuerFits(s, c, h, t, saw', StepDequeuer(s, d).1)
  {
    hide Pos;
    ChainSuccessor(s, c, h, t, d.head.ptr);
    hide ChainFits;
  }

  lemma DequeuerLoadsEnds(s: Shared, c: seq<int>, h: nat, t: nat, saw: bool, saw': bool, d: Thread)
    requires ChainFits(s, c, h, t) && d.Dequeuer? && DequeuerFits(s, c, h, t, saw, d) && d.dpc in {LoadHead, LoadTailD}
    ensures DequeuerFits(s, c, h, t, saw', StepDequeuer(s, d).1)
  {
    HeadAndTailInChain(s, c, h, t);
    assert h <= t;
    hide ChainFits, Pos;
  }

  /** The steps of a dequeuer that change neither Head nor Tail. */
  lemma DequeuerReads(s: Shared, c: seq<int>, h: nat, t: nat, saw: bool, saw': bool, d: Thread)
    requires ChainFits(s, c, h, t) && d.Dequeuer? && DequeuerFits(s, c, h, t, saw, d)
    requires !SwingsTail(s, d) && !MovesHead(s, d)
    requires saw ==> saw'
    requires d.dpc == LoadNextD && h + 1 == |c| ==> saw'
    ensures DequeuerFits(s, c, h, t, saw', StepDequeuer(s, d).1)
  {
    if d.dpc == LoadNextD {
      DequeuerLoadsNext(s, c, h, t, saw, saw', d);
    } else if d.dpc == ReloadHead {
      DequeuerCompares(s, c, h, t, saw, saw', d);
    } else if d.dpc == LoadData {
      DequeuerLoadsData(s, c, h, t, saw, saw', d);
    } else if d.dpc in {LoadHead, LoadTailD} {
      DequeuerLoadsEnds(s, c, h, t, saw, saw', d);
    } else {
      hide ChainFits, Pos, NodeAt;
    }
  }

  lemma SameChainFits(s: Shared, c: seq<int>, h: nat, t: nat, s': Shared)
    requires s'.nodes == s.nodes && s'.head == s.head && s'.tail == s.tail && ChainFits(s, c, h, t)
    ensures ChainFits(s', c, h, t)
  {
    assert forall n :: NodeAt(s', n) == NodeAt(s, n);
  }

  lemma DequeuerSwings(s: Shared, c: seq<int>, h: nat, t: nat, saw: bool, saw': bool, d: Thread)
    requires ChainFits(s, c, h, t) && d.Dequeuer? && DequeuerFits(s, c, h, t, saw, d) && SwingsTail(s, d)
    ensures var (s', d') := StepDequeuer(s, d);
            ChainFits(s', c, h, t + 1) && DequeuerFits(s', c, h, t + 1, saw', d') && Evolves(s, c, h, t, s', c, h, t + 1, 0)
  {
    TailMovesOn(s, c, h, t, d.tail, d.next.ptr, 0);
    hide ChainFits, Evolves, Pos;
  }

  /** The successful cmpxchg of Head: the value taken is that of the first node after the old Head. */
  lemma DequeuerMoves(s: Shared, c: seq<int>, h: nat, t: nat, saw: bool, saw': bool, d: Thread)
    requires ChainFits(s, c, h, t) && d.Dequeuer? && DequeuerFits(s, c, h, t, saw, d) && MovesHead(s, d)
    ensures h + 1 < |c| && d.data == NodeAt(s, c[h + 1]).data
    ensures var (s', d') := StepDequeuer(s, d);
            ChainFits(s', c, h + 1, t) && DequeuerFits(s', c, h + 1, t, saw', d') && Evolves(s, c, h, t, s', c, h + 1, t, 0)
  {
    HeadAndTailInChain(s, c, h, t);
    ChainSuccessor(s, c, h, t, d.head.ptr);
    assert forall n :: NodeAt(StepDequeuer(s, d).0, n) == NodeAt(s, n);
  }

  /** What a step of a dequeuer keeps. */
  lemma DequeuerStep(s: Shared, c: seq<int>, h: nat, t: nat, saw: bool, saw': bool, d: Thread)
    requires ChainFits(s, c, h, t) && d.Dequeuer? && DequeuerFits(s, c, h, t, saw, d)
    requires saw ==> saw'
    requires d.dpc == LoadNextD && h + 1 == |c| ==> saw'
    ensures var (s', d') := StepDequeuer(s, d);
            var h' := if MovesHead(s, d) then h + 1 else h;
            var t' := if SwingsTail(s, d) then t + 1 else t;
            && ChainFits(s', c, h', t') && d'.Dequeuer? && DequeuerFits(s', c, h', t', saw', d')
            && Evolves(s, c, h, t, s', c, h', t', 0)
  {
    hide ChainFits, DequeuerFits, Evolves, StepDequeuer, NodeAt;
    EffectsExclude(s, d);
    if SwingsTail(s, d) {
      DequeuerSwings(s, c, h, t, saw, saw', d);
    } else if MovesHead(s, d) {
      DequeuerMoves(s, c, h, t, saw, saw', d);
    } else {
      DequeuerReads(s, c, h, t, saw, saw', d);
      var s' := StepDequeuer(s, d).0;
      DequeuerKeepsShared(s, d);
      SameChainFits(s, c, h, t, s');
      NothingEvolves(s, c, h, t, s', 0);
      SameNodesFit(s, c, h, t, saw', StepDequeuer(s, d).1, s');
    }
  }

  lemma EffectsExclude(s: Shared, t: Thread)
    ensures !(SwingsTail(s, t) && MovesHead(s, t)) && !(Links(s, t) && SwingsTail(s, t))
    ensures t.Enqueuer? ==> !MovesHead(s, t)
    ensures t.Dequeuer? ==> !Links(s, t)
  {
  }

  lemma DequeuerKeepsShared(s: Shared, d: Thread)
    requires d.Dequeuer? && !SwingsTail(s, d) && !MovesHead(s, d)
    ensures var s' := StepDequeuer(s, d).0; s'.nodes == s.nodes && s'.head == s.head && s'.tail == s.tail
  {
  }

  lemma SameNodesFit(s: Shared, c: seq<int>, h: nat, t: nat, saw: bool, d: Thread, s': Shared)
    requires s'.nodes == s.nodes && d.Dequeuer? && DequeuerFits(s, c, h, t, saw, d)
    ensures DequeuerFits(s', c, h, t, saw, d)
  {
    assert forall n :: NodeAt(s', n) == NodeAt(s, n);
  }

  lemma OtherThreadFits(h: History, i: nat, j: nat)
    requires Fits(h) && i < |h.sys.threads| && j < |h.sys.threads| && i != j
    requires var h', t := StepHistory(h, i), h.sys.threads[i];
             Evolves(h.sys.shared, h.chain, h.headAt, h.tailAt, h'.sys.shared, h'.chain, h'.headAt, h'.tailAt, OwnNode(t))
    ensures ThreadFits(StepHistory(h, i), j)
  {
    hide ChainFits, Evolves, EnqueuerFits, DequeuerFits, StepThread;
    var h', t, u := StepHistory(h, i), h.sys.threads[i], h.sys.threads[j];
    assert ThreadFits(h, j) && ThreadFits(h, i);
    if u.Enqueuer? {
      OwnNodesDiffer(h, i, j);
      OtherEnqueuerFits(h.sys.shared, h.chain, h.headAt, h.tailAt, h'.sys.shared, h'.chain, h'.headAt, h'.tailAt,
                        OwnNode(t), u);
    } else {
      OtherDequeuerFits(h.sys.shared, h.chain, h.headAt, h.tailAt, h'.sys.shared, h'.chain, h'.headAt, h'.tailAt,
                        OwnNode(t), u, j in h.sawEmpty, j in h'.sawEmpty);
    }
  }

  lemma OwnNodesDiffer(h: History, i: nat, j: nat)
    requires Fits(h) && i < |h.sys.threads| && j < |h.sys.threads| && i != j && h.sys.threads[j].Enqueuer?
    ensures h.sys.threads[j].nid != OwnNode(h.sys.threads[i])
  {
    assert ThreadFits(h, j);
  }

  lemma StepEvolves(h: History, i: nat)
    requires Fits(h) && i < |h.sys.threads|
    ensures var h', t := StepHistory(h, i), h.sys.threads[i];
            && ChainFits(h'.sys.shared, h'.chain, h'.headAt, h'.tailAt) && ThreadFits(h', i)
            && Evolves(h.sys.shared, h.chain, h.headAt, h.tailAt, h'.sys.shared, h'.chain, h'.headAt, h'.tailAt, OwnNode(t))
  {
    hide ChainFits, Evolves, EnqueuerFits, DequeuerFits, StepEnqueuer, StepDequeuer, Links, MovesHead, SwingsTail;
    var h', t := StepHistory(h, i), h.sys.threads[i];
    assert ThreadFits(h, i);
    EffectsExclude(h.sys.shared, t);
    if t.Enqueuer? {
      EnqueuerStep(h.sys.shared, h.chain, h.headAt, h.tailAt, t);
    } else {
      StepCalls(h, i);
      DequeuerStep(h.sys.shared, h.chain, h.headAt, h.tailAt, i in h.sawEmpty, i in h'.sawEmpty, t);
    }
  }

  lemma StepKeepsFits(h: History, i: nat)
    requires Fits(h) && i < |h.sys.threads|
    ensures Fits(StepHistory(h, i))
  {
    hide ChainFits, Evolves, ThreadFits;
    var h' := StepHistory(h, i);
    StepEvolves(h, i);
    StepKeepsNodes(h, i);
    forall j: nat | j < |h.sys.threads|
      ensures ThreadFits(h', j)
    {
      if j != i {
        OtherThreadFits(h, i, j);
      }
    }
  }

  lemma StepCalls(h: History, i: nat)
    requires i < |h.sys.threads| && h.sys.threads[i].Dequeuer?
    ensures var t := h.sys.threads[i];
            t.dpc == LoadNextD && h.headAt + 1 == |h.chain| ==>
              i in StepHistory(h, i).sawEmpty
  {
    if h.sys.threads[i].dpc == LoadNextD {
      assert Calling(StepHistory(h, i).sys.threads[i]);
    }
  }

  lemma StepKeepsNodes(h: History, i: nat)
    requires i < |h.sys.threads| && DistinctNodes(h.sys.threads)
    ensures DistinctNodes(StepHistory(h, i).sys.threads)
    ensures StepHistory(h, i).sys.threads[i].Enqueuer? <==> h.sys.threads[i].Enqueuer?
  {
    var t, t' := h.sys.threads[i], StepHistory(h, i).sys.threads[i];
    assert t.Enqueuer? ==> t'.Enqueuer? && t'.nid == t.nid;
  }

  // ----- First in, first out -----

  predicate HasLinked(t: Thread) {
    t.Enqueuer? && t.epc in {MoveTail, Enqueued}
  }

  predicate HasUnlinked(t: Thread) {
    t.Dequeuer? && t.dpc in {FreeNode, Dequeued}
  }

  /** The value an enqueuer adds, or the one a dequeuer has read. */
  function Value(t: Thread): int { if t.Enqueuer? then t.value else t.data }

  function Values(threads: seq<Thread>): (values: seq<int>)
    ensures |values| == |threads|
    ensures forall i :: 0 <= i < |threads| ==> values[i] == Value(threads[i])
  {
    seq(|threads|, i requires 0 <= i < |threads| => Value(threads[i]))
  }

  function Linked?(threads: seq<Thread>): (done: seq<bool>)
    ensures |done| == |threads|
    ensures forall i :: 0 <= i < |threads| ==> done[i] == HasLinked(threads[i])
  {
    seq(|threads|, i requires 0 <= i < |threads| => HasLinked(threads[i]))
  }

  function Unlinked?(threads: seq<Thread>): (done: seq<bool>)
    ensures |done| == |threads|
    ensures forall i :: 0 <= i < |threads| ==> done[i] == HasUnlinked(threads[i])
  {
    seq(|threads|, i requires 0 <= i < |threads| => HasUnlinked(threads[i]))
  }

  /** The data of every node ever linked, oldest first; the first node is the constructor's. */
  function LinkedData(h: History): seq<int> {
    if h.chain == [] then [] else DataOf(h.sys.shared, h.chain[1..])
  }

  /** `log` names every thread that is done once, and its entry k goes with `data[k]`. */
  ghost predicate Log(log: seq<nat>, done: seq<bool>, values: seq<int>, data: seq<int>) {
    && |log| <= |data| && |values| == |done|
    && (forall i, j :: 0 <= i < j < |log| ==> log[i] != log[j])
    && (forall i: nat :: i in log <==> i < |done| && done[i])
    && (forall k :: 0 <= k < |log| ==> log[k] < |values| && values[log[k]] == data[k])
  }

  lemma LogStep(log: seq<nat>, done: seq<bool>, values: seq<int>, data: seq<int>, i: nat, grows: bool,
                done': seq<bool>, values': seq<int>, data': seq<int>)
    requires Log(log, done, values, data) && i < |done| == |done'| == |values'|
    requires forall j :: 0 <= j < |done| && j != i ==> done'[j] == done[j]
    requires (done'[i] <==> done[i] || grows) && (grows ==> !done[i])
    requires forall j :: 0 <= j < |done| && done[j] ==> values'[j] == values[j]
    requires data <= data'
    requires grows ==> |log| < |data'| && data'[|log|] == values'[i]
    ensures Log(if grows then log + [i] else log, done', values', data')
  {
    forall k | 0 <= k < |log|
      ensures log[k] < |values'| && values'[log[k]] == data'[k]
    {
      assert log[k] in log;
    }
    if grows {
      LogNames(log, done, done', i);
    }
  }

  lemma LogNames(log: seq<nat>, done: seq<bool>, done': seq<bool>, i: nat)
    requires i < |done| == |done'| && done'[i] && !done[i]
    requires forall j: nat :: j in log <==> j < |done| && done[j]
    requires forall j :: 0 <= j < |done| && j != i ==> done'[j] == done[j]
    ensures i !in log
    ensures forall j: nat :: j in log + [i] <==> j < |done'| && done'[j]
  {
  }

  ghost predicate Logged(h: History) {
    && h.headAt == |h.dequeuers| && |h.chain| == |h.enqueuers| + 1
    && Log(h.enqueuers, Linked?(h.sys.threads), Values(h.sys.threads), LinkedData(h))
    && Log(h.dequeuers, Unlinked?(h.sys.threads), Values(h.sys.threads), LinkedData(h))
  }

  lemma DataEvolves(s: Shared, c: seq<int>, h: nat, t: nat, s': Shared, c': seq<int>, h': nat, t': nat, own: int)
    requires c != [] && Evolves(s, c, h, t, s', c', h', t', own)
    ensures c' != [] && DataOf(s, c[1..]) <= DataOf(s', c'[1..])
    ensures c' != c ==> DataOf(s', c'[1..]) == DataOf(s, c[1..]) + [NodeAt(s', own).data]
  {
    forall k | 0 <= k < |c|
      ensures c'[k] == c[k] && NodeAt(s', c'[k]).data == NodeAt(s, c[k]).data
    {
      assert c[k] in c;
    }
  }

  /** What a step does to the progress and the values of the thread that takes it. */
  lemma ProgressOf(s: Shared, c: seq<int>, h: nat, t: nat, saw: bool, u: Thread)
    requires if u.Enqueuer? then EnqueuerFits(s, c, t, u) else DequeuerFits(s, c, h, t, saw, u)
    ensures var (s', u') := StepThread(s, u);
            && (HasLinked(u') <==> HasLinked(u) || Links(s, u)) && (Links(s, u) ==> !HasLinked(u))
            && (HasUnlinked(u') <==> HasUnlinked(u) || MovesHead(s, u)) && (MovesHead(s, u) ==> !HasUnlinked(u))
            && (HasUnlinked(u') || u.Enqueuer? ==> Value(u') == Value(u))
            && u'.Enqueuer? == u.Enqueuer?
  {
    hide Pos, NodeAt, SetNode, SwingTail;
  }

  lemma LinkedValue(s: Shared, c: seq<int>, t: nat, e: Thread)
    requires e.Enqueuer? && EnqueuerFits(s, c, t, e) && Links(s, e)
    ensures NodeAt(StepEnqueuer(s, e).0, e.nid).data == e.value
  {
    hide Pos;
  }

  lemma StepKeepsLogged(h: History, i: nat)
    requires Fits(h) && i < |h.sys.threads| && Logged(h)
    ensures Logged(StepHistory(h, i))
  {
    hide Log, ChainFits, Evolves, EnqueuerFits, DequeuerFits, StepEnqueuer, StepDequeuer, Links, MovesHead, SwingsTail;
    var s, t := h.sys.shared, h.sys.threads[i];
    var h' := StepHistory(h, i);
    var s', t' := h'.sys.shared, h'.sys.threads[i];
    assert ThreadFits(h, i);
    StepEvolves(h, i);
    DataEvolves(s, h.chain, h.headAt, h.tailAt, s', h'.chain, h'.headAt, h'.tailAt, OwnNode(t));
    ProgressOf(s, h.chain, h.headAt, h.tailAt, i in h.sawEmpty, t);
    EffectsExclude(s, t);
    if Links(s, t) {
      LinkedValue(s, h.chain, h.tailAt, t);
      assert |h'.chain| == |h.chain| + 1;
      assert LinkedData(h') == LinkedData(h) + [t.value];
    }
    if MovesHead(s, t) {
      DequeuerMoves(s, h.chain, h.headAt, h.tailAt, i in h.sawEmpty, true, t);
    }
    var threads, threads' := h.sys.threads, h'.sys.threads;
    LogStep(h.enqueuers, Linked?(threads), Values(threads), LinkedData(h), i, Links(s, t),
            Linked?(threads'), Values(threads'), LinkedData(h'));
    LogStep(h.dequeuers, Unlinked?(threads), Values(threads), LinkedData(h), i, MovesHead(s, t),
            Unlinked?(threads'), Values(threads'), LinkedData(h'));
  }

  // ----- Whole runs -----

  lemma InitialFits(h: History)
    requires Initial(h)
    ensures Fits(h) && Logged(h)
  {
    forall i: nat | i < |h.sys.threads|
      ensures ThreadFits(h, i) && !HasLinked(h.sys.threads[i]) && !HasUnlinked(h.sys.threads[i])
    {
      assert Fresh(h.sys.threads[i]);
    }
  }

  /** Every interleaving keeps the invariants, whatever the number of calls. */
  lemma {:induction false} RunFits(h: History, schedule: seq<nat>)
    requires Initial(h) && Schedule(|h.sys.threads|, schedule)
    ensures Fits(Run(h, schedule)) && Logged(Run(h, schedule))
  {
    hide Fits, Logged, Initial, StepHistory;
    if schedule == [] {
      InitialFits(h);
    } else {
      var last := |schedule| - 1;
      RunFits(h, schedule[..last]);
      StepKeepsFits(Run(h, schedule[..last]), schedule[last]);
      StepKeepsLogged(Run(h, schedule[..last]), schedule[last]);
    }
  }

  /**
   No assert in the code fails, in any run. Head never passes Tail in the order of linking, and at most
   one node is linked behind Tail.
   */
  lemma AssertsHold(h: History, schedule: seq<nat>)
    requires Initial(h) && Schedule(|h.sys.threads|, schedule)
    ensures var h' := Run(h, schedule);
            && (forall i :: 0 <= i < |h'.sys.threads| ==>
                  var t := h'.sys.threads[i];
                  if t.Enqueuer? then t.epc != EnqueueFailed else t.dpc != DequeueFailed)
            && h'.headAt <= h'.tailAt < |h'.chain| <= h'.tailAt + 2
            && h'.sys.shared.head.ptr == h'.chain[h'.headAt] && h'.sys.shared.tail.ptr == h'.chain[h'.tailAt]
  {
    RunFits(h, schedule);
    var h' := Run(h, schedule);
    forall i: nat | i < |h'.sys.threads|
      ensures var t := h'.sys.threads[i]; if t.Enqueuer? then t.epc != EnqueueFailed else t.dpc != DequeueFailed
    {
      assert ThreadFits(h', i);
    }
  }

  /**
   In every state of every run the k-th call to move Head has read the value of the k-th call to link a
   node; every call that got that far is in its log, once.
   */
  lemma FirstInFirstOut(h: History, schedule: seq<nat>)
    requires Initial(h) && Schedule(|h.sys.threads|, schedule)
    ensures var h' := Run(h, schedule);
            var threads := h'.sys.threads;
            && |h'.dequeuers| <= |h'.enqueuers|
            && (forall k :: 0 <= k < |h'.dequeuers| ==>
                  && h'.dequeuers[k] < |threads| && h'.enqueuers[k] < |threads|
                  && Value(threads[h'.dequeuers[k]]) == Value(threads[h'.enqueuers[k]]))
            && Log(h'.enqueuers, Linked?(threads), Values(threads), LinkedData(h'))
            && Log(h'.dequeuers, Unlinked?(threads), Values(threads), LinkedData(h'))
  {
    RunFits(h, schedule);
    hide Fits, Run, Initial, Schedule, HasLinked, HasUnlinked, LinkedData;
  }

  /** The abstract queue: the values linked and not yet taken, oldest first. */
  function Queue(h: History): seq<int>
    requires h.headAt < |h.chain|
  {
    DataOf(h.sys.shared, h.chain[h.headAt + 1..])
  }

  /**
   Every step is a step of a first-in first-out queue: linking appends the caller's value, moving Head
   removes the first one, which is the one the caller returns, and no other step changes the queue.
   */
  lemma StepsRefineQueue(h: History, i: nat)
    requires Fits(h) && i < |h.sys.threads|
    ensures var h', t := StepHistory(h, i), h.sys.threads[i];
            && h.headAt < |h.chain| && h'.headAt < |h'.chain|
            && (if Links(h.sys.shared, t) then
                  Queue(h') == Queue(h) + [t.value]
                else if MovesHead(h.sys.shared, t) then
                  Queue(h) == [t.data] + Queue(h') && h'.sys.threads[i].data == t.data
                else
                  Queue(h') == Queue(h))
  {
    hide ChainFits, EnqueuerFits, DequeuerFits, StepEnqueuer, StepDequeuer, Links, MovesHead, SwingsTail, Queue, NodeAt;
    var s, t := h.sys.shared, h.sys.threads[i];
    assert ThreadFits(h, i);
    EffectsExclude(s, t);
    LinkedDataGrows(h, i);
    QueueIsSuffix(h);
    QueueIsSuffix(StepHistory(h, i));
    if Links(s, t) {
      LinkedValue(s, h.chain, h.tailAt, t);
    } else if MovesHead(s, t) {
      TakenValue(h, i);
    }
    hide LinkedData;
  }

  lemma TakenValue(h: History, i: nat)
    requires Fits(h) && i < |h.sys.threads| && MovesHead(h.sys.shared, h.sys.threads[i])
    ensures var t := h.sys.threads[i];
            && h.headAt < |LinkedData(h)| && LinkedData(h)[h.headAt] == t.data
            && StepHistory(h, i).sys.threads[i].data == t.data
  {
    var s, t := h.sys.shared, h.sys.threads[i];
    assert ThreadFits(h, i);
    MovedHeadUnlinked(s, t);
    hide ChainFits, EnqueuerFits, DequeuerFits, Evolves, StepDequeuer, MovesHead, NodeAt;
    DequeuerMoves(s, h.chain, h.headAt, h.tailAt, i in h.sawEmpty, true, t);
  }

  lemma HeadInChain(h: History)
    requires Fits(h)
    ensures h.headAt < |h.chain|
  {
  }

  lemma LinkedDataGrows(h: History, i: nat)
    requires Fits(h) && i < |h.sys.threads|
    ensures var h', t := StepHistory(h, i), h.sys.threads[i];
            && h.headAt < |h.chain| && h'.headAt < |h'.chain|
            && LinkedData(h') == LinkedData(h) + (if Links(h.sys.shared, t) then [NodeAt(h'.sys.shared, t.nid).data] else [])
  {
    hide Fits, ChainFits, ThreadFits, Evolves, StepThread, Links, MovesHead, SwingsTail, NodeAt;
    var t, h' := h.sys.threads[i], StepHistory(h, i);
    StepEvolves(h, i);
    StepKeepsFits(h, i);
    HeadInChain(h);
    HeadInChain(h');
    DataEvolves(h.sys.shared, h.chain, h.headAt, h.tailAt, h'.sys.shared, h'.chain, h'.headAt, h'.tailAt, OwnNode(t));
    EffectsExclude(h.sys.shared, t);
    assert Links(h.sys.shared, t) ==> |h'.chain| == |h.chain| + 1;
  }

  lemma MovedHeadUnlinked(s: Shared, d: Thread)
    requires MovesHead(s, d)
    ensures StepDequeuer(s, d).1.data == d.data
  {
  }

  lemma QueueIsSuffix(h: History)
    requires h.headAt < |h.chain|
    ensures Queue(h) == LinkedData(h)[h.headAt..]
  {
    assert h.chain[1..][h.headAt..] == h.chain[h.headAt + 1..];
  }

  /** `path` is what a walk along `next` from its first node visits, up to a null pointer. */
  predicate Walk(s: Shared, path: seq<int>) {
    && path != []
    && var next := NodeAt(s, path[0]).next.ptr;
       if |path| == 1 then next <= 0 else next == path[1] > 0 && Walk(s, path[1..])
  }

  lemma {:induction false} WalkIsUnique(s: Shared, p: seq<int>, q: seq<int>)
    requires Walk(s, p) && Walk(s, q) && p[0] == q[0]
    ensures p == q
  {
    hide NodeAt;
    if |p| > 1 {
      WalkIsUnique(s, p[1..], q[1..]);
    }
    assert p == [p[0]] + p[1..] && q == [q[0]] + q[1..];
  }

  predicate WalkFrom(s: Shared, n: int, path: seq<int>) {
    path != [] && path[0] == n && Walk(s, path)
  }

  /**
   In every state of every run a walk from Head along `next` comes to an end, there is only one, and
   what it finds in memory behind Head is the abstract queue.
   */
  lemma QueueIsInMemory(h: History, schedule: seq<nat>) returns (path: seq<int>)
    requires Initial(h) && Schedule(|h.sys.threads|, schedule)
    ensures var h' := Run(h, schedule);
            && WalkFrom(h'.sys.shared, h'.sys.shared.head.ptr, path)
            && (forall other :: WalkFrom(h'.sys.shared, h'.sys.shared.head.ptr, other) ==> other == path)
            && h'.headAt < |h'.chain| && DataOf(h'.sys.shared, path[1..]) == Queue(h')
  {
    RunFits(h, schedule);
    hide Run, Initial, Logged;
    path := FittingQueueIsInMemory(Run(h, schedule));
  }

  lemma FittingQueueIsInMemory(h: History) returns (path: seq<int>)
    requires Fits(h)
    ensures WalkFrom(h.sys.shared, h.sys.shared.head.ptr, path)
    ensures forall other :: WalkFrom(h.sys.shared, h.sys.shared.head.ptr, other) ==> other == path
    ensures h.headAt < |h.chain| && DataOf(h.sys.shared, path[1..]) == Queue(h)
  {
    RestIsWalk(h.sys.shared, h.chain, h.headAt, h.tailAt, h.headAt);
    path := h.chain[h.headAt..];
    assert path[1..] == h.chain[h.headAt + 1..];
    hide Walk, ChainFits, ThreadFits, DistinctNodes;
    forall other | WalkFrom(h.sys.shared, h.sys.shared.head.ptr, other)
      ensures other == path
    {
      WalkIsUnique(h.sys.shared, other, path);
    }
  }

  lemma {:induction false} RestIsWalk(s: Shared, c: seq<int>, h: nat, t: nat, k: nat)
    requires ChainFits(s, c, h, t) && k < |c|
    ensures Walk(s, c[k..])
    decreases |c| - k
  {
    hide NodeAt;
    if k + 1 < |c| {
      RestIsWalk(s, c, h, t, k + 1);
      assert c[k..][1..] == c[k + 1..];
    }
  }

  /** The queue was empty while call i was under way. */
  predicate EmptyDuring(h: History, i: nat) {
    i < |h.sys.threads| && Calling(h.sys.threads[i]) && h.headAt < |h.chain| && Queue(h) == []
  }

  lemma {:induction false} SawEmptyMeansEmpty(h: History, schedule: seq<nat>, i: nat)
    requires Initial(h) && Schedule(|h.sys.threads|, schedule)
    requires i in Run(h, schedule).sawEmpty
    ensures exists k: nat :: k <= |schedule| && Schedule(|h.sys.threads|, schedule[..k]) && EmptyDuring(Run(h, schedule[..k]), i)
  {
    hide EmptyDuring, StepHistory;
    var last := |schedule| - 1;
    var before := schedule[..last];
    if i in Run(h, before).sawEmpty {
      SawEmptyMeansEmpty(h, before, i);
      var k: nat :| k <= |before| && Schedule(|h.sys.threads|, before[..k]) && EmptyDuring(Run(h, before[..k]), i);
      assert before[..k] == schedule[..k];
    } else {
      NewlySawEmpty(Run(h, before), schedule[last], i);
      assert schedule[..|schedule|] == schedule;
    }
  }

  lemma NewlySawEmpty(h: History, j: nat, i: nat)
    requires j < |h.sys.threads| && i in StepHistory(h, j).sawEmpty && i !in h.sawEmpty
    ensures EmptyDuring(StepHistory(h, j), i)
  {
    hide StepThread, Links, MovesHead, SwingsTail;
  }

  /** A dequeue call returns false only if the queue was empty in some state of the run during that call. */
  lemma EmptyOnlyIfEmptyDuringCall(h: History, schedule: seq<nat>, i: nat)
    requires Initial(h) && Schedule(|h.sys.threads|, schedule) && i < |h.sys.threads|
    requires var t := Run(h, schedule).sys.threads[i]; t.Dequeuer? && t.dpc == FoundEmpty
    ensures exists k: nat :: k <= |schedule| && Schedule(|h.sys.threads|, schedule[..k]) && EmptyDuring(Run(h, schedule[..k]), i)
  {
    RunFits(h, schedule);
    assert ThreadFits(Run(h, schedule), i);
    SawEmptyMeansEmpty(h, schedule, i);
  }

  /** The node a dequeuer frees has left the queue for good: it lies behind Head, which moves on only. */
  lemma FreedNodeIsBehindHead(h: History, schedule: seq<nat>, i: nat)
    requires Initial(h) && Schedule(|h.sys.threads|, schedule) && i < |h.sys.threads|
    requires var t := Run(h, schedule).sys.threads[i]; t.Dequeuer? && t.dpc == FreeNode
    ensures var h' := Run(h, schedule);
            var freed := h'.sys.threads[i].head.ptr;
            && StepHistory(h', i).sys.shared.inUse == h'.sys.shared.inUse - {freed}
            && exists k :: 0 <= k < h'.headAt < |h'.chain| && h'.chain[k] == freed
  {
    RunFits(h, schedule);
    hide Run, Initial, Logged;
    FreesBehindHead(Run(h, schedule), i);
    FreesOwnHead(Run(h, schedule), i);
  }

  lemma FreesBehindHead(h: History, i: nat)
    requires Fits(h) && i < |h.sys.threads| && h.sys.threads[i].Dequeuer? && h.sys.threads[i].dpc == FreeNode
    ensures exists k :: 0 <= k < h.headAt < |h.chain| && h.chain[k] == h.sys.threads[i].head.ptr
  {
    assert ThreadFits(h, i);
    HeadInChain(h);
    hide ChainFits;
    var freed := h.sys.threads[i].head.ptr;
    assert h.chain[Pos(h.chain, freed)] == freed;
  }

  lemma FreesOwnHead(h: History, i: nat)
    requires i < |h.sys.threads| && h.sys.threads[i].Dequeuer? && h.sys.threads[i].dpc == FreeNode
    ensures StepHistory(h, i).sys.shared.inUse == h.sys.shared.inUse - {h.sys.threads[i].head.ptr}
  {
  }
}
