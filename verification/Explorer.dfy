/**
 The single-threaded explorer: breadth first, level by level, on the hash-consing store.

 A model is its initial state and, for every state, the successors it reports, in order.
 */
module Explorer {
  import opened HashConsing

  datatype Lts = Lts(init: Bytes, next: Bytes -> seq<Bytes>)

  // ----- Distances -----

  /** A path of k transitions leads to s. */
  ghost predicate ReachedIn(m: Lts, s: Bytes, k: nat)
    decreases k
  {
    if k == 0 then s == m.init else exists p :: ReachedIn(m, p, k - 1) && s in m.next(p)
  }

  ghost predicate Reachable(m: Lts, s: Bytes) {
    exists k: nat :: ReachedIn(m, s, k)
  }

  ghost predicate Within(m: Lts, s: Bytes, d: nat) {
    exists k: nat :: k <= d && ReachedIn(m, s, k)
  }

  /** The shortest path to s has d transitions. */
  ghost predicate AtLevel(m: Lts, s: Bytes, d: nat) {
    ReachedIn(m, s, d) && forall k: nat :: k < d ==> !ReachedIn(m, s, k)
  }

  lemma LevelOf(m: Lts, s: Bytes, k: nat) returns (d: nat)
    requires ReachedIn(m, s, k)
    ensures d <= k && AtLevel(m, s, d)
  {
    if j: nat :| j < k && ReachedIn(m, s, j) {
      d := LevelOf(m, s, j);
    } else {
      d := k;
    }
  }

  lemma NextLevel(m: Lts, s: Bytes, d: nat)
    ensures AtLevel(m, s, d + 1) <==> Within(m, s, d + 1) && !Within(m, s, d)
  {
    if Within(m, s, d + 1) && !Within(m, s, d) {
      var k: nat :| k <= d + 1 && ReachedIn(m, s, k);
      assert k == d + 1;
    }
  }

  lemma OneMoreStep(m: Lts, p: Bytes, s: Bytes, k: nat)
    requires s in m.next(p)
    ensures ReachedIn(m, p, k) ==> ReachedIn(m, s, k + 1)
  {
  }

  /** A shortest path comes from a state one level up. */
  lemma PredecessorLevel(m: Lts, s: Bytes, d: nat) returns (p: Bytes)
    requires AtLevel(m, s, d + 1)
    ensures AtLevel(m, p, d) && s in m.next(p)
  {
    p :| ReachedIn(m, p, d) && s in m.next(p);
    forall k: nat | k < d
      ensures !ReachedIn(m, p, k)
    {
      OneMoreStep(m, p, s, k);
    }
  }

  lemma SuccessorsWithin(m: Lts, p: Bytes, d: nat, s: Bytes)
    requires AtLevel(m, p, d) && s in m.next(p)
    ensures Within(m, s, d + 1)
  {
    assert ReachedIn(m, s, d + 1);
  }

  /** No state at level d, no state beyond. */
  lemma {:induction false} EmptyLevelEnds(m: Lts, d: nat, s: Bytes, k: nat)
    requires forall t :: !AtLevel(m, t, d)
    requires AtLevel(m, s, k)
    ensures k < d
    decreases k
  {
    if k > d {
      var p := PredecessorLevel(m, s, k - 1);
      EmptyLevelEnds(m, d, p, k - 1);
    }
  }

  // ----- The invariant -----

  datatype Expansion = Expansion(state: Bytes, level: nat)

  ghost predicate Expanded(log: seq<Expansion>, s: Bytes) {
    exists e :: e in log && e.state == s
  }

  predicate ExpandedOnce(log: seq<Expansion>) {
    forall i, j :: 0 <= i < j < |log| ==> log[i].state != log[j].state
  }

  /**
   During level d: `contents` is the store, `log` the expansions so far, `pending` the successors of the
   state being expanded that are still to be reported.
   */
  ghost predicate InLevel(m: Lts, d: nat, contents: seq<Bytes>, queue: seq<Bytes>, queueNew: seq<Bytes>,
                          log: seq<Expansion>, pending: seq<Bytes>) {
    && StoreFits(m, d, contents, queueNew)
    && LogFits(m, d, queue, log)
    && (forall e, s :: e in log && s in m.next(e.state) ==> s in contents || s in pending)
    && (forall s :: s in pending ==> Within(m, s, d + 1))
  }

  ghost predicate StoreFits(m: Lts, d: nat, contents: seq<Bytes>, queueNew: seq<Bytes>) {
    && (forall s :: s in contents <==> Within(m, s, d) || s in queueNew)
    && (forall s :: s in queueNew ==> AtLevel(m, s, d + 1))
    && Distinct(queueNew)
  }

  ghost predicate LogFits(m: Lts, d: nat, queue: seq<Bytes>, log: seq<Expansion>) {
    && (forall e :: e in log ==> AtLevel(m, e.state, e.level) && e.level <= d)
    && ExpandedOnce(log)
    && (forall s, k: nat :: k < d && AtLevel(m, s, k) ==> Expanded(log, s))
    && (forall s :: s in queue <==> AtLevel(m, s, d) && !Expanded(log, s))
    && Distinct(queue)
  }

  lemma ReportFits(m: Lts, d: nat, contents: seq<Bytes>, queue: seq<Bytes>, queueNew: seq<Bytes>,
                   log: seq<Expansion>, pending: seq<Bytes>)
    requires InLevel(m, d, contents, queue, queueNew, log, pending) && pending != []
    ensures var s := pending[0];
            InLevel(m, d, Intern(contents, s).0, queue, if s in contents then queueNew else queueNew + [s], log, pending[1..])
  {
    hide LogFits, AtLevel, Within, Intern;
    var s := pending[0];
    assert pending == [s] + pending[1..];
    assert s in pending && Within(m, s, d + 1);
    InternMembers(contents, s);
    NextLevel(m, s, d);
    if s !in contents {
      NewStateFits(m, d, contents, queueNew, s);
    }
    hide StoreFits;
    forall e, x | e in log && x in m.next(e.state)
      ensures x in Intern(contents, s).0 || x in pending[1..]
    {
      assert x in contents || x in pending;
    }
    assert forall x :: x in pending[1..] ==> x in pending;
  }

  lemma InternMembers(contents: seq<Bytes>, s: Bytes)
    ensures forall c :: c in Intern(contents, s).0 <==> c in contents || c == s
    ensures s in contents ==> Intern(contents, s).0 == contents
    ensures s !in contents ==> Intern(contents, s).0 == contents + [s]
  {
  }

  lemma NewStateFits(m: Lts, d: nat, contents: seq<Bytes>, queueNew: seq<Bytes>, s: Bytes)
    requires StoreFits(m, d, contents, queueNew) && s !in contents && Within(m, s, d + 1)
    ensures StoreFits(m, d, contents + [s], queueNew + [s])
  {
    NextLevel(m, s, d);
    hide AtLevel, Within;
  }

  lemma LogPop(m: Lts, d: nat, queue: seq<Bytes>, log: seq<Expansion>)
    requires LogFits(m, d, queue, log) && queue != []
    ensures LogFits(m, d, queue[1..], log + [Expansion(queue[0], d)])
  {
    hide AtLevel;
    var s := queue[0];
    var log' := log + [Expansion(s, d)];
    assert queue == [s] + queue[1..];
    assert Expansion(s, d) in log';
    forall t
      ensures Expanded(log', t) <==> Expanded(log, t) || t == s
    {
      if Expanded(log, t) {
        var e :| e in log && e.state == t;
        assert e in log';
      }
    }
    forall i, j | 0 <= i < j < |log'|
      ensures log'[i].state != log'[j].state
    {
      if j == |log| {
        assert log[i] in log;
      }
    }
  }

  lemma PopFits(m: Lts, d: nat, contents: seq<Bytes>, queue: seq<Bytes>, queueNew: seq<Bytes>, log: seq<Expansion>)
    requires InLevel(m, d, contents, queue, queueNew, log, []) && queue != []
    ensures InLevel(m, d, contents, queue[1..], queueNew, log + [Expansion(queue[0], d)], m.next(queue[0]))
  {
    LogPop(m, d, queue, log);
    assert AtLevel(m, queue[0], d);
    hide LogFits, StoreFits, AtLevel, Within;
    forall s | s in m.next(queue[0])
      ensures Within(m, s, d + 1)
    {
      SuccessorsWithin(m, queue[0], d, s);
    }
  }

  /** When a level's queue is empty, the states found new are the next level. */
  lemma LevelEnds(m: Lts, d: nat, contents: seq<Bytes>, queueNew: seq<Bytes>, log: seq<Expansion>)
    requires InLevel(m, d, contents, [], queueNew, log, [])
    ensures forall s :: s in queueNew <==> AtLevel(m, s, d + 1)
    ensures InLevel(m, d + 1, contents, queueNew, [], log, [])
  {
    hide Within, Expanded;
    forall s | AtLevel(m, s, d + 1)
      ensures s in queueNew && !Expanded(log, s)
    {
      var p := PredecessorLevel(m, s, d);
      PredecessorExpanded(m, d, log, p);
      NextLevel(m, s, d);
      NotYetExpanded(m, d, log, s);
    }
    forall s
      ensures s in contents <==> Within(m, s, d + 1)
    {
      NextLevel(m, s, d);
      WithinGrows(m, s, d);
    }
    LevelsUpTo(m, d, log);
  }

  lemma WithinGrows(m: Lts, s: Bytes, d: nat)
    ensures Within(m, s, d) ==> Within(m, s, d + 1)
  {
  }

  lemma PredecessorExpanded(m: Lts, d: nat, log: seq<Expansion>, p: Bytes)
    requires LogFits(m, d, [], log) && AtLevel(m, p, d)
    ensures exists e :: e in log && e.state == p
  {
    assert Expanded(log, p);
  }

  lemma NotYetExpanded(m: Lts, d: nat, log: seq<Expansion>, s: Bytes)
    requires LogFits(m, d, [], log) && AtLevel(m, s, d + 1)
    ensures !Expanded(log, s)
  {
    forall e | e in log
      ensures e.state != s
    {
      assert AtLevel(m, e.state, e.level);
    }
  }

  lemma LevelsUpTo(m: Lts, d: nat, log: seq<Expansion>)
    requires LogFits(m, d, [], log)
    ensures forall s, k: nat :: k < d + 1 && AtLevel(m, s, k) ==> Expanded(log, s)
  {
  }

  // ----- The code -----

  /** The number of transitions the expansions report. */
  function Transitions(m: Lts, log: seq<Expansion>): nat {
    if log == [] then 0 else Transitions(m, log[..|log| - 1]) + |m.next(log[|log| - 1].state)|
  }

  /** The transitions of the space, each given as a reachable state and the transition's position there. */
  ghost predicate AllTransitions(m: Lts, ts: set<(Bytes, nat)>) {
    forall t :: t in ts <==> Reachable(m, t.0) && t.1 < |m.next(t.0)|
  }

  ghost predicate HasTransitions(m: Lts, n: nat) {
    exists ts: set<(Bytes, nat)> :: |ts| == n && AllTransitions(m, ts)
  }

  function TransitionsOf(m: Lts, s: Bytes): (ts: set<(Bytes, nat)>)
    ensures forall t :: t in ts <==> t.0 == s && t.1 < |m.next(s)|
  {
    set k: nat | k < |m.next(s)| :: (s, k)
  }

  lemma {:induction false} TransitionsOfSize(s: Bytes, n: nat)
    ensures |set k: nat | k < n :: (s, k)| == n
    decreases n
  {
    var ts := set k: nat | k < n :: (s, k);
    if n > 0 {
      TransitionsOfSize(s, n - 1);
      assert ts == (set k: nat | k < n - 1 :: (s, k)) + {(s, n - 1)};
    }
  }

  /** If each state is expanded once, the number reported is that of the transitions there are. */
  lemma {:induction false} TransitionsAreCounted(m: Lts, log: seq<Expansion>) returns (ts: set<(Bytes, nat)>)
    requires ExpandedOnce(log)
    ensures |ts| == Transitions(m, log)
    ensures forall t :: t in ts <==> Expanded(log, t.0) && t.1 < |m.next(t.0)|
  {
    if log == [] {
      ts := {};
    } else {
      var rest, last := log[..|log| - 1], log[|log| - 1];
      var before := TransitionsAreCounted(m, rest);
      TransitionsOfSize(last.state, |m.next(last.state)|);
      var new_ := TransitionsOf(m, last.state);
      assert before !! new_ by {
        forall t | t in before
          ensures t !in new_
        {
          var e :| e in rest && e.state == t.0;
        }
      }
      ts := before + new_;
      assert log == rest + [last];
      assert forall s :: Expanded(log, s) <==> Expanded(rest, s) || s == last.state by {
        assert last in log;
      }
    }
  }

  /** The counter's final value does not depend on the order of the search. */
  lemma CountsTransitions(m: Lts, log: seq<Expansion>)
    requires ExpandedOnce(log) && forall s :: Reachable(m, s) <==> Expanded(log, s)
    ensures HasTransitions(m, Transitions(m, log))
  {
    var ts := TransitionsAreCounted(m, log);
    hide Reachable, Expanded, ExpandedOnce, Transitions;
    assert AllTransitions(m, ts);
  }

  /** The states of the log are distinct members of a finite universe, so there is room left for another one. */
  lemma {:induction false} RoomLeft(log: seq<Expansion>, universe: set<Bytes>, s: Bytes)
    requires ExpandedOnce(log) && (forall e :: e in log ==> e.state in universe && e.state != s) && s in universe
    ensures |log| < |universe|
  {
    if log != [] {
      var last := |log| - 1;
      var e := log[last];
      assert e in log;
      forall d | d in log[..last]
        ensures d in log && d.state in universe - {e.state} && d.state != s
      {
        var i :| 0 <= i < last && log[..last][i] == d;
        assert log[i].state != log[last].state;
      }
      RoomLeft(log[..last], universe - {e.state}, s);
    }
  }

  ghost predicate Closed(m: Lts, universe: set<Bytes>) {
    m.init in universe && forall s, t :: s in universe && t in m.next(s) ==> t in universe
  }

  lemma {:induction false} ReachedInUniverse(m: Lts, universe: set<Bytes>, s: Bytes, k: nat)
    requires Closed(m, universe) && ReachedIn(m, s, k)
    ensures s in universe
    decreases k
  {
    if k > 0 {
      var p :| ReachedIn(m, p, k - 1) && s in m.next(p);
      ReachedInUniverse(m, universe, p, k - 1);
    }
  }

  lemma QueuedHasRoom(m: Lts, d: nat, contents: seq<Bytes>, queue: seq<Bytes>, queueNew: seq<Bytes>, log: seq<Expansion>,
                      universe: set<Bytes>)
    requires InLevel(m, d, contents, queue, queueNew, log, []) && queue != [] && Closed(m, universe)
    ensures |log| < |universe|
  {
    var s := queue[0];
    assert s in queue && AtLevel(m, s, d) && !Expanded(log, s);
    forall e | e in log
      ensures e.state in universe && e.state != s
    {
      ReachedInUniverse(m, universe, e.state, e.level);
    }
    ReachedInUniverse(m, universe, s, d);
    RoomLeft(log, universe, s);
  }

  lemma InitialFits(m: Lts)
    ensures InLevel(m, 0, [m.init], [m.init], [], [], [])
  {
    assert ReachedIn(m, m.init, 0);
  }

  /** What the explorer has done when it stops at level d with nothing new. */
  lemma ExploredAll(m: Lts, d: nat, contents: seq<Bytes>, log: seq<Expansion>)
    requires InLevel(m, d, contents, [], [], log, [])
    ensures forall s :: s in contents <==> Reachable(m, s)
    ensures forall s :: Reachable(m, s) <==> Expanded(log, s)
    ensures ExpandedOnce(log) && forall e :: e in log ==> AtLevel(m, e.state, e.level)
  {
    LevelEnds(m, d, contents, [], log);
    forall s
      ensures s in contents <==> Reachable(m, s)
      ensures Reachable(m, s) <==> Expanded(log, s)
    {
      if Reachable(m, s) {
        var k: nat :| ReachedIn(m, s, k);
        var l := LevelOf(m, s, k);
        EmptyLevelEnds(m, d + 1, s, l);
        assert Within(m, s, d);
        LevelsUpTo(m, d, log);
      }
      if Expanded(log, s) {
        var e :| e in log && e.state == s;
        assert ReachedIn(m, s, e.level);
      }
    }
  }

  class SingleThreadedExplorer {
    const model: Lts
    const store: TypeStore
    var stateQueue: seq<Bytes>
    var stateQueueNew: seq<Bytes>
    var transitions: nat

    constructor (model: Lts)
      ensures this.model == model && fresh(store) && store.Valid() && store.Contents() == []
      ensures stateQueue == [] && stateQueueNew == [] && transitions == 0
    {
      this.model := model;
      store := new TypeStore();
      stateQueue, stateQueueNew, transitions := [], [], 0;
    }

    /** A reported successor is stored and, when it is new, queued for the next level. */
    method ReportTransition(s: Bytes)
      requires store.Valid()
      modifies this`transitions, this`stateQueueNew, store
      ensures store.Valid() && store.Contents() == Intern(old(store.Contents()), s).0
      ensures transitions == old(transitions) + 1
      ensures stateQueueNew == if s in old(store.Contents()) then old(stateQueueNew) else old(stateQueueNew) + [s]
    {
      transitions := transitions + 1;
      var id, isNew := store.Insert(s);
      if isNew {
        stateQueueNew := stateQueueNew + [s];
      }
    }

    /** The model reports the successors of s one by one. */
    method GetNextAll(s: Bytes, ghost d: nat, ghost log: seq<Expansion>)
      requires store.Valid()
      requires InLevel(model, d, store.Contents(), stateQueue, stateQueueNew, log, model.next(s))
      modifies this`transitions, this`stateQueueNew, store
      ensures store.Valid() && InLevel(model, d, store.Contents(), stateQueue, stateQueueNew, log, [])
      ensures transitions == old(transitions) + |model.next(s)|
    {
      hide InLevel, Intern, RefsFit, ContentsOf;
      var successors := model.next(s);
      var k := 0;
      assert successors[0..] == successors;
      while k < |successors|
        invariant k <= |successors| && store.Valid() && transitions == old(transitions) + k
        invariant InLevel(model, d, store.Contents(), stateQueue, stateQueueNew, log, successors[k..])
      {
        ReportFits(model, d, store.Contents(), stateQueue, stateQueueNew, log, successors[k..]);
        assert successors[k..][1..] == successors[k + 1..];
        ReportTransition(successors[k]);
        k := k + 1;
      }
      assert successors[k..] == [];
    }

    /**
     Explores the whole space. On return the store is exactly the set of reachable states, and each of
     them was expanded once, at the level that is its distance. `universe` is any finite set of states
     that is closed under transitions.
     */
    method Go(ghost universe: set<Bytes>) returns (ghost log: seq<Expansion>)
      requires store.Valid() && store.Contents() == [] && stateQueue == [] && stateQueueNew == [] && transitions == 0
      requires Closed(model, universe)
      modifies this, store
      ensures store.Valid() && forall s :: s in store.Contents() <==> Reachable(model, s)
      ensures Distinct(store.Contents())
      ensures ExpandedOnce(log) && forall s :: Reachable(model, s) <==> Expanded(log, s)
      ensures forall e :: e in log ==> AtLevel(model, e.state, e.level)
      ensures transitions == Transitions(model, log)
      ensures HasTransitions(model, transitions)
    {
      hide InLevel, AtLevel, Reachable, Expanded, ExpandedOnce, Closed, HasTransitions, Intern, RefsFit, ContentsOf;
      var id, isNew := store.Insert(model.init);
      InternMembers([], model.init);
      stateQueueNew := stateQueueNew + [model.init];
      assert store.Contents() == [model.init] && stateQueueNew == [model.init];
      InitialFits(model);
      log := [];
      var level := 0;
      var more := true;
      while more
        invariant store.Valid() && stateQueue == [] && transitions == Transitions(model, log)
        invariant more ==> stateQueueNew != [] && InLevel(model, level, store.Contents(), stateQueueNew, [], log, [])
        invariant !more ==> level > 0 && InLevel(model, level - 1, store.Contents(), [], [], log, [])
        decreases more, |universe| - |log|
      {
        stateQueue, stateQueueNew := stateQueueNew, stateQueue;
        ghost var before := |log|;
        QueuedHasRoom(model, level, store.Contents(), stateQueue, stateQueueNew, log, universe);
        var again := true;
        while again
          invariant store.Valid() && transitions == Transitions(model, log)
          invariant InLevel(model, level, store.Contents(), stateQueue, stateQueueNew, log, [])
          invariant again <==> stateQueue != []
          invariant before < |log| || (again && before == |log|)
          invariant again ==> |log| < |universe|
          decreases |stateQueue|
        {
          var s := stateQueue[0];
          PopFits(model, level, store.Contents(), stateQueue, stateQueueNew, log);
          stateQueue := stateQueue[1..];
          log := log + [Expansion(s, level)];
          assert log[..|log| - 1] + [Expansion(s, level)] == log;
          GetNextAll(s, level, log);
          again := stateQueue != [];
          if again {
            QueuedHasRoom(model, level, store.Contents(), stateQueue, stateQueueNew, log, universe);
          }
        }
        LevelEnds(model, level, store.Contents(), stateQueueNew, log);
        level := level + 1;
        more := stateQueueNew != [];
      }
      ExploredAll(model, level - 1, store.Contents(), log);
      CountsTransitions(model, log);
      KeysAreContents(store.typeInstances, store.refs, model.init);
    }
  }
}
