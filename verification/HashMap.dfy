/**
 The lock-free hash map with linear probing of the hashmap benchmark, for any number of calls of
 findorput and any number of slots.

 Every access to memory is one step and memory is sequentially consistent. A thread is one call.
 */
module HashMap {
  import opened Schedules
  import opened Counting

  datatype Shared = Shared(keys: seq<nat>, values: seq<nat>)

  /** Inserted is a call that returned 1, Found one that returned 0. */
  datatype Pc = LoadKey | CasKey | StoreValue | LoadValue | Inserted | Found

  /** `probes` counts the slots a call has passed by. No step reads it. */
  datatype Call = Call(pc: Pc, key: nat, value: nat, slot: nat, seen: nat, v: nat, probes: nat)

  datatype System = System(shared: Shared, calls: seq<Call>)

  function Next(slot: nat, n: nat): nat {
    if slot + 1 >= n then 0 else slot + 1
  }

  /** Where the loops go on once `seen` is known. */
  function AfterLoad(n: nat, c: Call): (r: Call)
    ensures r.key == c.key && r.value == c.value
  {
    if c.seen == 0 then c.(pc := CasKey)
    else if c.seen == c.key then c.(pc := LoadValue)
    else c.(slot := Next(c.slot, n), probes := c.probes + 1, pc := LoadKey)
  }

  predicate InBounds(s: Shared, c: Call) {
    c.slot < |s.keys| == |s.values|
  }

  function StepCall(s: Shared, c: Call): (r: (Shared, Call))
    requires InBounds(s, c)
    ensures InBounds(r.0, r.1) && |r.0.keys| == |s.keys|
    ensures r.1.key == c.key && r.1.value == c.value
  {
    match c.pc
    case LoadKey => (s, AfterLoad(|s.keys|, c.(seen := s.keys[c.slot])))
    case CasKey =>
      if s.keys[c.slot] == c.seen then (s.(keys := s.keys[c.slot := c.key]), c.(pc := StoreValue))
      else (s, AfterLoad(|s.keys|, c.(seen := s.keys[c.slot])))
    case StoreValue => (s.(values := s.values[c.slot := c.value]), c.(pc := Inserted))
    case LoadValue =>
      var v := s.values[c.slot];
      (s, c.(v := v, pc := if v != 0 then Found else LoadValue))
    case Inserted => (s, c)
    case Found => (s, c)
  }

  predicate AllInBounds(sys: System) {
    forall i :: 0 <= i < |sys.calls| ==> InBounds(sys.shared, sys.calls[i])
  }

  function Step(sys: System, i: nat): (sys': System)
    requires i < |sys.calls| && AllInBounds(sys)
    ensures AllInBounds(sys') && |sys'.calls| == |sys.calls|
  {
    var (s', c') := StepCall(sys.shared, sys.calls[i]);
    System(s', sys.calls[i := c'])
  }

  /** An empty map, and calls with nonzero keys that start at the slot their key hashes to. */
  predicate Initial(sys: System) {
    && |sys.shared.keys| == |sys.shared.values| > 0
    && (forall k :: 0 <= k < |sys.shared.keys| ==> sys.shared.keys[k] == 0 && sys.shared.values[k] == 0)
    && (forall i :: 0 <= i < |sys.calls| ==>
          var c := sys.calls[i];
          c.pc == LoadKey && c.key != 0 && c.slot == c.key % |sys.shared.keys| && c.probes == 0)
  }

  function Run(sys: System, schedule: seq<nat>): (sys': System)
    requires AllInBounds(sys) && Schedule(|sys.calls|, schedule)
    ensures AllInBounds(sys') && |sys'.calls| == |sys.calls|
  {
    if schedule == [] then sys
    else
      var last := |schedule| - 1;
      assert Schedule(|sys.calls|, schedule[..last]);
      Step(Run(sys, schedule[..last]), schedule[last])
  }

  // ----- The invariant -----

  /** The slot that is looked at after passing e others. */
  function Probe(key: nat, e: nat, n: nat): (slot: nat)
    requires n > 0
    ensures slot < n
  {
    if e == 0 then key % n else Next(Probe(key, e - 1, n), n)
  }

  /** The first d slots on the way of `key` hold other keys. */
  ghost predicate Passed(keys: seq<nat>, key: nat, d: nat)
    requires |keys| > 0
  {
    forall e: nat :: e < d ==> keys[Probe(key, e, |keys|)] != 0 && keys[Probe(key, e, |keys|)] != key
  }

  predicate Owns(c: Call) {
    c.pc in {StoreValue, Inserted}
  }

  ghost predicate CallFits(s: Shared, c: Call) {
    && InBounds(s, c) && c.key != 0
    && c.slot == Probe(c.key, c.probes, |s.keys|)
    && Passed(s.keys, c.key, c.probes)
    && (c.pc == CasKey ==> c.seen == 0)
    && (c.pc !in {LoadKey, CasKey} ==> s.keys[c.slot] == c.key)
    && (c.pc == StoreValue ==> s.values[c.slot] == 0)
    && (c.pc == Inserted ==> s.values[c.slot] == c.value)
    && (c.pc == Found ==> s.values[c.slot] == c.v != 0)
  }

  predicate OwnersDiffer(calls: seq<Call>) {
    forall i, j :: 0 <= i < j < |calls| && Owns(calls[i]) && Owns(calls[j]) ==> calls[i].slot != calls[j].slot
  }

  predicate Owned(calls: seq<Call>, slot: nat) {
    exists i :: 0 <= i < |calls| && Owns(calls[i]) && calls[i].slot == slot
  }

  function UsedFlags(s: Shared): (flags: seq<bool>)
    ensures |flags| == |s.keys|
    ensures forall k :: 0 <= k < |s.keys| ==> flags[k] == (s.keys[k] != 0)
  {
    seq(|s.keys|, k requires 0 <= k < |s.keys| => s.keys[k] != 0)
  }

  function OwnerFlags(calls: seq<Call>): (flags: seq<bool>)
    ensures |flags| == |calls|
    ensures forall i :: 0 <= i < |calls| ==> flags[i] == Owns(calls[i])
  {
    seq(|calls|, i requires 0 <= i < |calls| => Owns(calls[i]))
  }

  /** Every used slot has one owner, the call that claimed it. */
  ghost predicate Fits(sys: System) {
    && (forall i :: 0 <= i < |sys.calls| ==> CallFits(sys.shared, sys.calls[i]))
    && OwnersDiffer(sys.calls)
    && (forall k: nat :: k < |sys.shared.keys| && sys.shared.keys[k] != 0 ==> Owned(sys.calls, k))
    && (forall k: nat :: k < |sys.shared.keys| == |sys.shared.values| && sys.shared.values[k] != 0 ==> sys.shared.keys[k] != 0)
    && Count(UsedFlags(sys.shared)) == Count(OwnerFlags(sys.calls))
  }

  // ----- Preservation -----

  /** A step changes at most the slot `own`; a key is written only where there was none. */
  predicate Evolves(s: Shared, s': Shared, own: nat) {
    && |s'.keys| == |s.keys| && |s'.values| == |s.values|
    && (forall k :: 0 <= k < |s.keys| && s.keys[k] != 0 ==> s'.keys[k] == s.keys[k])
    && (forall k :: 0 <= k < |s.values| && k != own ==> s'.values[k] == s.values[k])
    && (forall k :: 0 <= k < |s.keys| && k != own ==> s'.keys[k] == s.keys[k])
  }

  lemma PassedEvolves(keys: seq<nat>, keys': seq<nat>, key: nat, d: nat)
    requires |keys| == |keys'| > 0 && Passed(keys, key, d)
    requires forall k :: 0 <= k < |keys| && keys[k] != 0 ==> keys'[k] == keys[k]
    ensures Passed(keys', key, d)
  {
    hide Probe;
    forall e: nat | e < d
      ensures keys'[Probe(key, e, |keys|)] != 0 && keys'[Probe(key, e, |keys|)] != key
    {
      assert keys[Probe(key, e, |keys|)] != 0;
    }
  }

  lemma AfterLoadFits(s: Shared, c: Call)
    requires InBounds(s, c) && c.key != 0 && c.slot == Probe(c.key, c.probes, |s.keys|)
    requires Passed(s.keys, c.key, c.probes) && c.seen == s.keys[c.slot]
    ensures CallFits(s, AfterLoad(|s.keys|, c))
  {
    assert Probe(c.key, c.probes + 1, |s.keys|) == Next(c.slot, |s.keys|);
    hide Probe;
  }

  lemma CallStep(s: Shared, c: Call)
    requires CallFits(s, c) && (s.keys[c.slot] == 0 ==> s.values[c.slot] == 0)
    ensures var (s', c') := StepCall(s, c);
            CallFits(s', c') && Evolves(s, s', c.slot)
  {
    hide Probe;
    if c.pc == LoadKey || (c.pc == CasKey && s.keys[c.slot] != 0) {
      AfterLoadFits(s, c.(seen := s.keys[c.slot]));
    } else {
      PassedEvolves(s.keys, StepCall(s, c).0.keys, c.key, c.probes);
      hide Passed;
    }
  }

  lemma OtherCallFits(s: Shared, s': Shared, own: nat, c: Call)
    requires CallFits(s, c) && Evolves(s, s', own)
    requires c.slot == own ==> s'.values == s.values || (!Owns(c) && s.values[own] == 0)
    ensures CallFits(s', c)
  {
    hide Probe;
    PassedEvolves(s.keys, s'.keys, c.key, c.probes);
    hide Passed;
  }

  predicate Claims(s: Shared, c: Call) {
    InBounds(s, c) && c.pc == CasKey && s.keys[c.slot] == 0 && c.seen == 0
  }

  /** How a step changes ownership. */
  lemma StepEffects(s: Shared, c: Call)
    requires CallFits(s, c)
    ensures var (s', c') := StepCall(s, c);
            && (Owns(c') <==> Owns(c) || Claims(s, c))
            && (Claims(s, c) ==> !Owns(c) && s'.keys == s.keys[c.slot := c.key])
            && (!Claims(s, c) ==> s'.keys == s.keys)
            && (Owns(c') ==> c'.slot == c.slot)
            && (Owns(c) ==> s.keys[c.slot] != 0)
            && (s'.values == s.values || (c.pc == StoreValue && s.values[c.slot] == 0))
            && (forall k :: 0 <= k < |s.values| && s'.values[k] != 0 ==> s.values[k] != 0 || (Owns(c) && k == c.slot))
  {
    hide Probe, Passed;
  }

  lemma StepOwners(sys: System, i: nat)
    requires i < |sys.calls| && AllInBounds(sys) && Fits(sys)
    ensures OwnersDiffer(Step(sys, i).calls)
    ensures var s' := Step(sys, i).shared; forall k: nat :: k < |s'.keys| && s'.keys[k] != 0 ==> Owned(Step(sys, i).calls, k)
  {
    var s, c, sys' := sys.shared, sys.calls[i], Step(sys, i);
    assert CallFits(s, c);
    StepEffects(s, c);
    hide Claims, StepCall, Passed, Probe;
    forall k: nat | k < |s.keys| && sys'.shared.keys[k] != 0
      ensures Owned(sys'.calls, k)
    {
      if s.keys[k] != 0 {
        var j :| 0 <= j < |sys.calls| && Owns(sys.calls[j]) && sys.calls[j].slot == k;
        assert Owns(sys'.calls[j]) && sys'.calls[j].slot == k;
      } else {
        assert Owns(sys'.calls[i]) && sys'.calls[i].slot == k;
      }
    }
    if Claims(s, c) {
      forall j | 0 <= j < |sys.calls| && Owns(sys.calls[j])
        ensures sys.calls[j].slot != c.slot
      {
        assert CallFits(s, sys.calls[j]);
        assert s.keys[c.slot] == 0 by { ClaimsEmptySlot(s, c); }
      }
    }
  }

  lemma ClaimsEmptySlot(s: Shared, c: Call)
    requires Claims(s, c)
    ensures s.keys[c.slot] == 0
  {
  }

  lemma StepCounts(sys: System, i: nat)
    requires i < |sys.calls| && AllInBounds(sys) && Fits(sys)
    ensures Count(UsedFlags(Step(sys, i).shared)) == Count(OwnerFlags(Step(sys, i).calls))
  {
    var s, c, sys' := sys.shared, sys.calls[i], Step(sys, i);
    assert CallFits(s, c);
    StepEffects(s, c);
    var owns := Owns(sys'.calls[i]);
    CountUpdate(OwnerFlags(sys.calls), i, owns);
    assert OwnerFlags(sys'.calls) == OwnerFlags(sys.calls)[i := owns];
    if Claims(s, c) {
      CountUpdate(UsedFlags(s), c.slot, true);
      assert UsedFlags(sys'.shared) == UsedFlags(s)[c.slot := true];
    } else {
      assert UsedFlags(sys'.shared) == UsedFlags(s);
    }
  }

  lemma StepCalls(sys: System, i: nat)
    requires i < |sys.calls| && AllInBounds(sys) && Fits(sys)
    ensures forall j :: 0 <= j < |sys.calls| ==> CallFits(Step(sys, i).shared, Step(sys, i).calls[j])
  {
    var s, c, sys' := sys.shared, sys.calls[i], Step(sys, i);
    assert CallFits(s, c);
    StepEffects(s, c);
    CallStep(s, c);
    hide Claims, StepCall, Passed, Probe, Evolves;
    forall j | 0 <= j < |sys.calls| && j != i
      ensures CallFits(sys'.shared, sys'.calls[j])
    {
      assert CallFits(s, sys.calls[j]);
      OtherCallFits(s, sys'.shared, c.slot, sys.calls[j]);
    }
  }

  lemma StepFits(sys: System, i: nat)
    requires i < |sys.calls| && AllInBounds(sys) && Fits(sys)
    ensures Fits(Step(sys, i))
  {
    StepCalls(sys, i);
    StepCounts(sys, i);
    StepOwners(sys, i);
    assert CallFits(sys.shared, sys.calls[i]);
    StepEffects(sys.shared, sys.calls[i]);
    hide Claims, StepCall, CallFits, OwnersDiffer, Owned;
  }

  // ----- Whole runs -----

  lemma InitialFits(sys: System)
    requires Initial(sys)
    ensures AllInBounds(sys) && Fits(sys)
  {
    CountNone(UsedFlags(sys.shared));
    CountNone(OwnerFlags(sys.calls));
  }

  lemma {:induction false} RunFits(sys: System, schedule: seq<nat>)
    requires Initial(sys) && Schedule(|sys.calls|, schedule)
    ensures AllInBounds(sys) && Fits(Run(sys, schedule))
    ensures |Run(sys, schedule).shared.keys| == |sys.shared.keys|
    ensures forall i :: 0 <= i < |sys.calls| ==>
              var c, c' := sys.calls[i], Run(sys, schedule).calls[i]; c'.key == c.key && c'.value == c.value
  {
    InitialFits(sys);
    hide Fits, Initial;
    if schedule != [] {
      RunFits(sys, schedule[..|schedule| - 1]);
      StepFits(Run(sys, schedule[..|schedule| - 1]), schedule[|schedule| - 1]);
    }
  }

  /** A key once written is never overwritten. */
  lemma {:induction false} KeysAreWriteOnce(sys: System, schedule: seq<nat>, more: seq<nat>, k: nat)
    requires Initial(sys) && AllInBounds(sys) && Schedule(|sys.calls|, schedule) && Schedule(|sys.calls|, schedule + more)
    requires k < |sys.shared.keys| == |Run(sys, schedule).shared.keys| && Run(sys, schedule).shared.keys[k] != 0
    ensures k < |Run(sys, schedule + more).shared.keys|
    ensures Run(sys, schedule + more).shared.keys[k] == Run(sys, schedule).shared.keys[k]
    decreases |more|
  {
    hide Initial, Fits, Step;
    if more == [] {
      assert schedule + more == schedule;
    } else {
      var last := |more| - 1;
      assert (schedule + more)[..|schedule| + last] == schedule + more[..last];
      KeysAreWriteOnce(sys, schedule, more[..last], k);
      RunFits(sys, schedule + more[..last]);
      assert more[last] == (schedule + more)[|schedule| + last];
      StepWritesOnce(Run(sys, schedule + more[..last]), more[last], k);
    }
  }

  lemma StepWritesOnce(sys: System, i: nat, k: nat)
    requires AllInBounds(sys) && Fits(sys) && i < |sys.calls| && k < |sys.shared.keys| && sys.shared.keys[k] != 0
    ensures k < |Step(sys, i).shared.keys| && Step(sys, i).shared.keys[k] == sys.shared.keys[k]
  {
    assert CallFits(sys.shared, sys.calls[i]);
  }

  lemma OwnerOf(sys: System, k: nat) returns (i: nat)
    requires Fits(sys) && k < |sys.shared.keys| && sys.shared.keys[k] != 0
    ensures i < |sys.calls| && Owns(sys.calls[i]) && sys.calls[i].slot == k && sys.calls[i].key == sys.shared.keys[k]
  {
    assert Owned(sys.calls, k);
    i :| 0 <= i < |sys.calls| && Owns(sys.calls[i]) && sys.calls[i].slot == k;
    assert CallFits(sys.shared, sys.calls[i]);
  }

  lemma OwnersOfOneKey(sys: System, i: nat, j: nat)
    requires Fits(sys) && i < |sys.calls| && j < |sys.calls| && Owns(sys.calls[i]) && Owns(sys.calls[j])
    requires sys.calls[i].key == sys.calls[j].key
    ensures i == j
  {
    var c, d := sys.calls[i], sys.calls[j];
    assert CallFits(sys.shared, c) && CallFits(sys.shared, d);
    assert !(c.probes < d.probes) && !(d.probes < c.probes);
    assert c.slot == d.slot;
  }

  /** In every state of every run each key is in at most one slot. */
  lemma EachKeyInOneSlot(sys: System, schedule: seq<nat>, k: nat, l: nat)
    requires Initial(sys) && AllInBounds(sys) && Schedule(|sys.calls|, schedule)
    requires k < |sys.shared.keys| && l < |sys.shared.keys| == |Run(sys, schedule).shared.keys|
    requires var keys := Run(sys, schedule).shared.keys; keys[k] == keys[l] != 0
    ensures k == l
  {
    RunFits(sys, schedule);
    var i := OwnerOf(Run(sys, schedule), k);
    var j := OwnerOf(Run(sys, schedule), l);
    OwnersOfOneKey(Run(sys, schedule), i, j);
  }

  /** A call that returned 0 has read the value that a call with the same key had stored before it returned 1. */
  lemma FoundReadsInserted(sys: System, schedule: seq<nat>, i: nat) returns (j: nat)
    requires Initial(sys) && AllInBounds(sys) && Schedule(|sys.calls|, schedule) && i < |sys.calls|
    requires Run(sys, schedule).calls[i].pc == Found
    ensures j < |sys.calls|
    ensures var c, d := Run(sys, schedule).calls[i], Run(sys, schedule).calls[j];
            d.pc == Inserted && d.key == c.key && d.value == c.v != 0
  {
    RunFits(sys, schedule);
    var sys' := Run(sys, schedule);
    assert CallFits(sys'.shared, sys'.calls[i]);
    j := OwnerOf(sys', sys'.calls[i].slot);
    assert CallFits(sys'.shared, sys'.calls[j]);
  }

  // ----- Room for every key -----

  function KeysOf(keys: seq<nat>): (r: set<nat>)
    ensures forall k :: k in r <==> k in keys
  {
    if keys == [] then {} else KeysOf(keys[..|keys| - 1]) + {keys[|keys| - 1]}
  }

  lemma {:induction false} KeysOfSize(keys: seq<nat>)
    ensures |KeysOf(keys)| <= |keys|
    ensures (forall k, l :: 0 <= k < l < |keys| ==> keys[k] != keys[l]) ==> |KeysOf(keys)| == |keys|
  {
    if keys != [] {
      KeysOfSize(keys[..|keys| - 1]);
    }
  }

  function CallKeys(calls: seq<Call>): (r: set<nat>)
    ensures forall i :: 0 <= i < |calls| ==> calls[i].key in r
    ensures forall k :: k in r ==> exists i :: 0 <= i < |calls| && calls[i].key == k
  {
    set i | 0 <= i < |calls| :: calls[i].key
  }

  lemma {:induction false} ProbeFromStart(key: nat, e: nat, n: nat)
    requires n > 0 && e < n
    ensures Probe(key, e, n) == if key % n + e < n then key % n + e else key % n + e - n
  {
    if e > 0 {
      ProbeFromStart(key, e - 1, n);
    }
  }

  /** A call that has passed n slots has passed all of them. */
  lemma AllPassed(keys: seq<nat>, key: nat, d: nat)
    requires |keys| > 0 && Passed(keys, key, d) && d >= |keys|
    ensures key !in keys && 0 !in keys
  {
    var n, start := |keys|, key % |keys|;
    forall k | 0 <= k < n
      ensures keys[k] != 0 && keys[k] != key
    {
      var e: nat := if k >= start then k - start else k + n - start;
      ProbeFromStart(key, e, n);
      assert keys[Probe(key, e, n)] != 0 && keys[Probe(key, e, n)] != key;
    }
  }

  lemma SlotKeysAreCallKeys(sys: System)
    requires Fits(sys)
    ensures forall k :: k in sys.shared.keys && k != 0 ==> k in CallKeys(sys.calls)
    ensures forall k, l :: 0 <= k < l < |sys.shared.keys| && sys.shared.keys[k] != 0 ==> sys.shared.keys[k] != sys.shared.keys[l]
  {
    var keys := sys.shared.keys;
    hide Fits;
    forall k | k in keys && k != 0
      ensures k in CallKeys(sys.calls)
    {
      var slot: nat :| slot < |keys| && keys[slot] == k;
      var i := OwnerOf(sys, slot);
    }
    forall k: nat, l: nat | k < l < |keys| && keys[k] != 0
      ensures keys[k] != keys[l]
    {
      if keys[k] == keys[l] {
        var i := OwnerOf(sys, k);
        var j := OwnerOf(sys, l);
        OwnersOfOneKey(sys, i, j);
      }
    }
  }

  /** With at least as many slots as distinct keys, no call ever passes as many slots as there are. */
  lemma ProbesNeverGoRound(sys: System, schedule: seq<nat>, i: nat)
    requires Initial(sys) && AllInBounds(sys) && Schedule(|sys.calls|, schedule) && i < |sys.calls|
    requires |CallKeys(sys.calls)| <= |sys.shared.keys|
    ensures Run(sys, schedule).calls[i].probes < |sys.shared.keys|
  {
    RunFits(sys, schedule);
    hide CallFits, Run, Initial;
    var sys' := Run(sys, schedule);
    assert CallFits(sys'.shared, sys'.calls[i]);
    assert CallKeys(sys'.calls) == CallKeys(sys.calls);
    GoneRoundMeansFull(sys', i);
  }

  lemma GoneRoundMeansFull(sys: System, i: nat)
    requires Fits(sys) && i < |sys.calls| && CallFits(sys.shared, sys.calls[i])
    ensures sys.calls[i].probes >= |sys.shared.keys| ==> |CallKeys(sys.calls)| > |sys.shared.keys|
  {
    var c, keys := sys.calls[i], sys.shared.keys;
    if c.probes >= |keys| {
      AllPassed(keys, c.key, c.probes);
      hide CallFits, Fits;
      SlotKeysAreCallKeys(sys);
      OneTooMany(keys, c.key, CallKeys(sys.calls));
    }
  }

  lemma OneTooMany(keys: seq<nat>, key: nat, all: set<nat>)
    requires key !in keys && key in all && 0 !in keys
    requires forall k :: k in keys && k != 0 ==> k in all
    requires forall k, l :: 0 <= k < l < |keys| && keys[k] != 0 ==> keys[k] != keys[l]
    ensures |all| > |keys|
  {
    assert forall k :: 0 <= k < |keys| ==> keys[k] in keys;
    KeysOfSize(keys);
    SubsetSize(KeysOf(keys), all - {key});
  }

  predicate Returned(sys: System) {
    forall i :: 0 <= i < |sys.calls| ==> sys.calls[i].pc in {Inserted, Found}
  }

  /**
   Once every call has returned, there is exactly one call per distinct key that returned 1; the key is
   in the map, with that call's value.
   */
  lemma OneInsertPerKey(sys: System, schedule: seq<nat>, i: nat) returns (j: nat)
    requires Initial(sys) && AllInBounds(sys) && Schedule(|sys.calls|, schedule) && i < |sys.calls|
    requires Returned(Run(sys, schedule))
    ensures j < |sys.calls|
    ensures var sys' := Run(sys, schedule);
            var d := sys'.calls[j];
            && d.pc == Inserted && d.key == sys.calls[i].key
            && InBounds(sys'.shared, d) && sys'.shared.keys[d.slot] == d.key && sys'.shared.values[d.slot] == d.value
            && (forall k :: 0 <= k < |sys.calls| && sys'.calls[k].key == d.key && sys'.calls[k].pc == Inserted ==> k == j)
  {
    RunFits(sys, schedule);
    var sys' := Run(sys, schedule);
    hide Run, Initial;
    assert CallFits(sys'.shared, sys'.calls[i]);
    j := OwnerOf(sys', sys'.calls[i].slot);
    assert CallFits(sys'.shared, sys'.calls[j]);
    hide Fits, CallFits;
    forall k: nat | k < |sys.calls| && sys'.calls[k].key == sys'.calls[j].key && sys'.calls[k].pc == Inserted
      ensures k == j
    {
      OwnersOfOneKey(sys', k, j);
    }
  }

  /** So all calls can return only if there are at least as many slots as distinct keys. */
  lemma ReturningTakesRoom(sys: System, schedule: seq<nat>)
    requires Initial(sys) && AllInBounds(sys) && Schedule(|sys.calls|, schedule)
    requires Returned(Run(sys, schedule))
    ensures |CallKeys(sys.calls)| <= |sys.shared.keys|
  {
    var keys := Run(sys, schedule).shared.keys;
    hide Run, Initial, Fits, AllInBounds, Returned;
    RunFits(sys, schedule);
    forall k | k in CallKeys(sys.calls)
      ensures k in KeysOf(keys)
    {
      var i: nat :| i < |sys.calls| && sys.calls[i].key == k;
      KeyHasSlot(sys, schedule, i);
    }
    hide CallKeys, KeysOf;
    SubsetSize(CallKeys(sys.calls), KeysOf(keys));
    KeysOfSize(keys);
  }

  lemma KeyHasSlot(sys: System, schedule: seq<nat>, i: nat)
    requires Initial(sys) && AllInBounds(sys) && Schedule(|sys.calls|, schedule) && i < |sys.calls|
    requires Returned(Run(sys, schedule))
    ensures sys.calls[i].key in Run(sys, schedule).shared.keys
  {
    hide Run, Initial, Returned;
    var j := OneInsertPerKey(sys, schedule, i);
  }

  // ----- The check at the end -----

  /** The loop of verify: it counts the used slots. */
  method Verify(s: Shared) returns (count: nat)
    ensures count == Count(UsedFlags(s))
  {
    count := 0;
    var k := 0;
    while k < |s.keys|
      invariant k <= |s.keys| && count == Count(UsedFlags(s)[..k])
    {
      assert UsedFlags(s)[..k + 1][..k] == UsedFlags(s)[..k];
      if s.keys[k] != 0 {
        count := count + 1;
      }
      k := k + 1;
    }
    assert UsedFlags(s)[..k] == UsedFlags(s);
  }

  function FailedFlags(calls: seq<Call>): (flags: seq<bool>)
    ensures |flags| == |calls|
    ensures forall i :: 0 <= i < |calls| ==> flags[i] == (calls[i].pc == Found)
  {
    seq(|calls|, i requires 0 <= i < |calls| => calls[i].pc == Found)
  }

  /** The assert of verify: used slots and failed calls add up to the number of calls. */
  lemma CountsAddUp(sys: System, schedule: seq<nat>)
    requires Initial(sys) && AllInBounds(sys) && Schedule(|sys.calls|, schedule)
    requires Returned(Run(sys, schedule))
    ensures var sys' := Run(sys, schedule);
            Count(UsedFlags(sys'.shared)) + Count(FailedFlags(sys'.calls)) == |sys.calls|
  {
    RunFits(sys, schedule);
    CountComplement(OwnerFlags(Run(sys, schedule).calls), FailedFlags(Run(sys, schedule).calls));
  }
}
