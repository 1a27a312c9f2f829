/**
 The hash-consing store of state and chunk contents, and the chunk operations of the single-threaded
 explorer on it. Contents are byte strings; hashing and equality are those of the content.
 */
module HashConsing {

  type Bytes = seq<int>

  datatype Ref = Null | Instance(content: Bytes)

  // ----- The store as a list of contents: id k is entry k - 1 -----

  predicate Distinct(contents: seq<Bytes>) {
    forall i, j :: 0 <= i < j < |contents| ==> contents[i] != contents[j]
  }

  /** The id of a content, or 0. */
  function IdOf(contents: seq<Bytes>, b: Bytes): (id: nat)
    ensures id <= |contents| && (id > 0 ==> contents[id - 1] == b)
    ensures id == 0 <==> b !in contents
  {
    if contents == [] then 0
    else if contents[|contents| - 1] == b then |contents|
    else IdOf(contents[..|contents| - 1], b)
  }

  function Intern(contents: seq<Bytes>, b: Bytes): (r: (seq<Bytes>, nat))
    ensures contents <= r.0 && 0 < r.1 <= |r.0| && r.0[r.1 - 1] == b
    ensures Distinct(contents) ==> Distinct(r.0)
    ensures forall c :: c in r.0 <==> c in contents || c == b
  {
    var id := IdOf(contents, b);
    if id > 0 then (contents, id) else (contents + [b], |contents| + 1)
  }

  /** The copy that clone-and-modify makes. `gap` is what fresh memory holds between the old end and the offset. */
  function Modify(b: Bytes, offset: nat, data: Bytes, gap: Bytes): (r: Bytes)
    requires GapFits(b, offset, gap)
    ensures |r| == if offset + |data| > |b| then offset + |data| else |b|
    ensures forall k :: 0 <= k < |data| ==> r[offset + k] == data[k]
    ensures forall k :: 0 <= k < |b| && !(offset <= k < offset + |data|) ==> r[k] == b[k]
    ensures forall k :: |b| <= k < offset ==> r[k] == gap[k - |b|]
  {
    var whole := b + gap;
    whole[..offset] + data + (if offset + |data| < |whole| then whole[offset + |data|..] else [])
  }

  predicate GapFits(b: Bytes, offset: nat, gap: Bytes) {
    |gap| == if offset > |b| then offset - |b| else 0
  }

  // ----- Any session of chunk operations -----

  /** `from` is the number of the earlier operation whose id is modified. */
  datatype Op = Put(data: Bytes) | CloneAndModify(from: nat, offset: nat, data: Bytes, gap: Bytes)

  /** The bytes operation k is about, read off the operations alone. */
  function BytesOf(ops: seq<Op>, k: nat): Bytes
    requires k < |ops| && Chained(ops)
    decreases k
  {
    match ops[k]
    case Put(data) => data
    case CloneAndModify(from, offset, data, gap) =>
      var b := BytesOf(ops, from);
      if GapFits(b, offset, gap) then Modify(b, offset, data, gap) else b
  }

  predicate Chained(ops: seq<Op>) {
    forall k :: 0 <= k < |ops| && ops[k].CloneAndModify? ==> ops[k].from < k
  }

  predicate GapsFit(ops: seq<Op>)
    requires Chained(ops)
  {
    forall k :: 0 <= k < |ops| && ops[k].CloneAndModify? ==> GapFits(BytesOf(ops, ops[k].from), ops[k].offset, ops[k].gap)
  }

  /** What an operation inserts, given the store and the ids so far. */
  function Inserted(contents: seq<Bytes>, ids: seq<nat>, op: Op): Bytes {
    match op
    case Put(data) => data
    case CloneAndModify(from, offset, data, gap) =>
      if from < |ids| && 0 < ids[from] <= |contents| && GapFits(contents[ids[from] - 1], offset, gap)
      then Modify(contents[ids[from] - 1], offset, data, gap) else []
  }

  /** Runs the operations on an empty store; the result has the id each one returned. */
  function Session(ops: seq<Op>): (r: (seq<Bytes>, seq<nat>))
    ensures |r.1| == |ops|
  {
    if ops == [] then ([], [])
    else
      var (contents, ids) := Session(ops[..|ops| - 1]);
      var (contents', id) := Intern(contents, Inserted(contents, ids, ops[|ops| - 1]));
      (contents', ids + [id])
  }

  lemma BytesOfPrefix(ops: seq<Op>, n: nat, k: nat)
    requires k < n <= |ops| && Chained(ops)
    ensures Chained(ops[..n]) && BytesOf(ops[..n], k) == BytesOf(ops, k)
    decreases k
  {
    if ops[k].CloneAndModify? {
      BytesOfPrefix(ops, n, ops[k].from);
    }
  }

  predicate AllValid(contents: seq<Bytes>, ids: seq<nat>) {
    forall k :: 0 <= k < |ids| ==> 0 < ids[k] <= |contents|
  }

  /** Looking up the id that operation k returned gives the bytes operation k is about. */
  predicate FindsAll(ops: seq<Op>, contents: seq<Bytes>, ids: seq<nat>)
    requires Chained(ops)
  {
    |ids| == |ops| && AllValid(contents, ids) && forall k :: 0 <= k < |ops| ==> contents[ids[k] - 1] == BytesOf(ops, k)
  }

  ghost predicate OnlyFromOps(ops: seq<Op>, contents: seq<Bytes>)
    requires Chained(ops)
  {
    forall b :: b in contents ==> exists k :: 0 <= k < |ops| && BytesOf(ops, k) == b
  }

  lemma OneMoreOp(ops: seq<Op>, n: nat, contents: seq<Bytes>, ids: seq<nat>)
    requires Chained(ops) && GapsFit(ops) && n + 1 == |ops| && Chained(ops[..n])
    requires FindsAll(ops[..n], contents, ids) && OnlyFromOps(ops[..n], contents)
    ensures var (contents', id) := Intern(contents, Inserted(contents, ids, ops[n]));
            FindsAll(ops, contents', ids + [id]) && OnlyFromOps(ops, contents')
  {
    hide BytesOf;
    var init := ops[..n];
    forall k: nat | k < n
      ensures BytesOf(init, k) == BytesOf(ops, k)
    {
      BytesOfPrefix(ops, n, k);
    }
    InsertedBytes(ops, n, contents, ids);
    hide Inserted, Modify;
    var (contents', id) := Intern(contents, Inserted(contents, ids, ops[n]));
    forall b | b in contents'
      ensures exists k :: 0 <= k < |ops| && BytesOf(ops, k) == b
    {
      if b in contents {
        var k :| 0 <= k < |init| && BytesOf(init, k) == b;
        assert BytesOf(ops, k) == b;
      }
    }
  }

  lemma InsertedBytes(ops: seq<Op>, n: nat, contents: seq<Bytes>, ids: seq<nat>)
    requires Chained(ops) && GapsFit(ops) && n + 1 == |ops| && Chained(ops[..n])
    requires FindsAll(ops[..n], contents, ids)
    ensures Inserted(contents, ids, ops[n]) == BytesOf(ops, n)
  {
    if ops[n].CloneAndModify? {
      BytesOfPrefix(ops, n, ops[n].from);
      assert contents[ids[ops[n].from] - 1] == BytesOf(ops[..n], ops[n].from);
    }
  }

  lemma PrefixFits(ops: seq<Op>, n: nat)
    requires n <= |ops| && Chained(ops) && GapsFit(ops)
    ensures Chained(ops[..n]) && GapsFit(ops[..n])
  {
    forall k | 0 <= k < n && ops[k].CloneAndModify?
      ensures Chained(ops[..n]) && GapFits(BytesOf(ops[..n], ops[k].from), ops[k].offset, ops[k].gap)
    {
      BytesOfPrefix(ops, n, ops[k].from);
    }
  }

  /**
   After any session find inverts insert for every operation so far, every content in the store was put
   there by an operation, and none is there twice.
   */
  lemma {:induction false} FindInvertsInsert(ops: seq<Op>)
    requires Chained(ops) && GapsFit(ops)
    ensures var (contents, ids) := Session(ops);
            Distinct(contents) && FindsAll(ops, contents, ids) && OnlyFromOps(ops, contents)
  {
    hide FindsAll, OnlyFromOps, Inserted, Chained, GapsFit;
    if ops == [] {
      assert FindsAll(ops, [], []) by { EmptyFinds(ops); }
      assert OnlyFromOps(ops, []) by { EmptyFinds(ops); }
    } else {
      var n := |ops| - 1;
      PrefixFits(ops, n);
      FindInvertsInsert(ops[..n]);
      OneMoreOp(ops, n, Session(ops[..n]).0, Session(ops[..n]).1);
    }
  }

  lemma EmptyFinds(ops: seq<Op>)
    requires ops == []
    ensures Chained(ops) && FindsAll(ops, [], []) && OnlyFromOps(ops, [])
  {
  }

  /** Two operations return the same id exactly when they are about equal bytes, however these came about. */
  lemma SameIdIffSameBytes(ops: seq<Op>, j: nat, k: nat)
    requires Chained(ops) && GapsFit(ops) && j < |ops| && k < |ops|
    ensures Session(ops).1[j] == Session(ops).1[k] <==> BytesOf(ops, j) == BytesOf(ops, k)
  {
    FindInvertsInsert(ops);
    var (contents, ids) := Session(ops);
    FoundAt(ops, contents, ids, j);
    FoundAt(ops, contents, ids, k);
    hide BytesOf, Session, FindsAll, OnlyFromOps, Chained, GapsFit, Distinct;
    EntriesDiffer(contents, ids[j] - 1, ids[k] - 1);
  }

  lemma FoundAt(ops: seq<Op>, contents: seq<Bytes>, ids: seq<nat>, k: nat)
    requires Chained(ops) && FindsAll(ops, contents, ids) && k < |ops|
    ensures k < |ids| && 0 < ids[k] <= |contents| && contents[ids[k] - 1] == BytesOf(ops, k)
  {
  }

  lemma EntriesDiffer(contents: seq<Bytes>, i: nat, j: nat)
    requires Distinct(contents) && i < |contents| && j < |contents|
    ensures contents[i] == contents[j] <==> i == j
  {
  }

  /** An id once returned is never given to other bytes, whatever operations follow. */
  lemma {:induction false} IdsAreForEver(ops: seq<Op>, more: seq<Op>)
    ensures Session(ops).0 <= Session(ops + more).0 && Session(ops).1 <= Session(ops + more).1
  {
    hide Inserted;
    if more == [] {
      assert ops + more == ops;
    } else {
      var n := |more| - 1;
      assert (ops + more)[..|ops| + n] == ops + more[..n];
      IdsAreForEver(ops, more[..n]);
    }
  }

  lemma InsideNeedsNoGap(b: Bytes, offset: nat, data: Bytes, gap: Bytes)
    requires GapFits(b, offset, gap) && offset <= |b|
    ensures Modify(b, offset, data, gap) == b[..offset] + data + (if offset + |data| < |b| then b[offset + |data|..] else [])
  {
    assert b + gap == b;
  }

  lemma GapsShowThrough(b: Bytes, offset: nat, data: Bytes)
    requires offset > |b|
    ensures exists gap, other :: GapFits(b, offset, gap) && GapFits(b, offset, other)
              && Modify(b, offset, data, gap) != Modify(b, offset, data, other)
  {
    var gap, other := seq(offset - |b|, _ => 0), seq(offset - |b|, _ => 1);
    var x, y := Modify(b, offset, data, gap), Modify(b, offset, data, other);
    assert x[|b|] == 0 && y[|b|] == 1;
  }

  /**
   What a modification yields does not depend on what fresh memory holds exactly when its offset is not
   behind the end of the old content. Otherwise the same modification of the same id can yield two ids.
   */
  lemma GapsMatterIff(b: Bytes, offset: nat, data: Bytes)
    ensures (forall gap, other :: GapFits(b, offset, gap) && GapFits(b, offset, other) ==>
               Modify(b, offset, data, gap) == Modify(b, offset, data, other))
            <==> offset <= |b|
  {
    if offset <= |b| {
      forall gap, other | GapFits(b, offset, gap) && GapFits(b, offset, other)
        ensures Modify(b, offset, data, gap) == Modify(b, offset, data, other)
      {
        InsideNeedsNoGap(b, offset, data, gap);
        InsideNeedsNoGap(b, offset, data, other);
      }
    } else {
      GapsShowThrough(b, offset, data);
    }
  }

  // ----- The code -----

  /** The hash set, with the id beside each content, and the vector of references describe each other. */
  ghost predicate RefsFit(typeInstances: map<Bytes, nat>, refs: seq<Ref>) {
    && refs != [] && refs[0] == Null
    && (forall k :: 1 <= k < |refs| ==>
          refs[k].Instance? && refs[k].content in typeInstances && typeInstances[refs[k].content] == k)
    && (forall b :: b in typeInstances ==> 1 <= typeInstances[b] < |refs| && refs[typeInstances[b]] == Instance(b))
  }

  ghost function ContentsOf(refs: seq<Ref>): (contents: seq<Bytes>)
    requires refs != [] && forall k :: 1 <= k < |refs| ==> refs[k].Instance?
    ensures |contents| == |refs| - 1
    ensures forall k :: 1 <= k < |refs| ==> contents[k - 1] == refs[k].content
  {
    seq(|refs| - 1, k requires 0 <= k < |refs| - 1 => refs[k + 1].content)
  }

  lemma KeysAreContents(typeInstances: map<Bytes, nat>, refs: seq<Ref>, b: Bytes)
    requires RefsFit(typeInstances, refs)
    ensures Distinct(ContentsOf(refs))
    ensures IdOf(ContentsOf(refs), b) == if b in typeInstances then typeInstances[b] else 0
  {
    var contents := ContentsOf(refs);
    forall i | 0 <= i < |contents|
      ensures contents[i] in typeInstances && typeInstances[contents[i]] == i + 1
    {
      assert contents[(i + 1) - 1] == refs[i + 1].content;
    }
    if b in typeInstances {
      assert contents[typeInstances[b] - 1] == b;
    }
  }

  lemma NewRefFits(typeInstances: map<Bytes, nat>, refs: seq<Ref>, b: Bytes)
    requires RefsFit(typeInstances, refs) && b !in typeInstances
    ensures RefsFit(typeInstances[b := |refs|], refs + [Instance(b)])
    ensures ContentsOf(refs + [Instance(b)]) == ContentsOf(refs) + [b]
  {
    var refs' := refs + [Instance(b)];
    var contents, contents' := ContentsOf(refs), ContentsOf(refs');
    forall j | 0 <= j < |contents'|
      ensures contents'[j] == (contents + [b])[j]
    {
      assert contents'[(j + 1) - 1] == refs'[j + 1].content;
      assert j < |contents| ==> contents[(j + 1) - 1] == refs[j + 1].content;
    }
  }

  class TypeStore {
    var typeInstances: map<Bytes, nat>
    var refs: seq<Ref>

    ghost predicate Valid()
      reads this
    {
      RefsFit(typeInstances, refs)
    }

    ghost function Contents(): seq<Bytes>
      requires Valid()
      reads this
    {
      ContentsOf(refs)
    }

    constructor ()
      ensures Valid() && Contents() == []
    {
      typeInstances, refs := map[], [Null];
    }

    method Insert(b: Bytes) returns (id: nat, isNew: bool)
      requires Valid()
      modifies this
      ensures Valid() && (Contents(), id) == Intern(old(Contents()), b)
      ensures isNew <==> b !in old(Contents())
    {
      KeysAreContents(typeInstances, refs, b);
      if b in typeInstances {
        return typeInstances[b], false;
      }
      NewRefFits(typeInstances, refs, b);
      id, isNew := |refs|, true;
      typeInstances := typeInstances[b := id];
      refs := refs + [Instance(b)];
    }

    method Find(index: nat) returns (b: Bytes)
      requires Valid() && 0 < index <= |Contents()|
      ensures b == Contents()[index - 1]
    {
      b := refs[index].content;
    }

    method Size() returns (n: nat)
      requires Valid()
      ensures n == |Contents()|
    {
      n := |refs| - 1;
    }
  }

  /** One store per type, made when the type is first used. */
  class TreeStore {
    var typeDB: seq<TypeStore>

    ghost predicate Valid()
      reads this, typeDB
    {
      && typeDB != []
      && (forall i, j :: 0 <= i < j < |typeDB| ==> typeDB[i] != typeDB[j])
      && (forall i :: 0 <= i < |typeDB| ==> typeDB[i].Valid())
    }

    /** The contents of a type; types never used have none. */
    ghost function Contents(kind: nat): seq<Bytes>
      requires Valid()
      reads this, typeDB
    {
      if kind < |typeDB| then typeDB[kind].Contents() else []
    }

    constructor ()
      ensures Valid() && forall kind: nat :: Contents(kind) == []
      ensures fresh(typeDB)
    {
      var first := new TypeStore();
      typeDB := [first];
    }

    /** Grows the vector of stores up to a type. */
    method Resize(size: nat)
      requires Valid()
      modifies this
      ensures Valid() && |typeDB| >= size && old(typeDB) <= typeDB && forall t :: t in typeDB && t !in old(typeDB) ==> fresh(t)
      ensures forall kind: nat :: Contents(kind) == old(Contents(kind))
    {
      hide RefsFit, ContentsOf;
      while |typeDB| < size
        invariant Valid() && old(typeDB) <= typeDB && forall t :: t in typeDB && t !in old(typeDB) ==> fresh(t)
        invariant forall kind: nat :: Contents(kind) == old(Contents(kind))
        decreases size - |typeDB|
      {
        var next := new TypeStore();
        typeDB := typeDB + [next];
      }
    }

    method Insert(kind: nat, b: Bytes) returns (id: nat, isNew: bool)
      requires Valid()
      modifies this, typeDB
      ensures Valid() && kind < |typeDB| && old(typeDB) <= typeDB
      ensures (Contents(kind), id) == Intern(old(Contents(kind)), b)
      ensures isNew <==> b !in old(Contents(kind))
      ensures forall other: nat :: other != kind ==> Contents(other) == old(Contents(other))
    {
      hide Intern, RefsFit, ContentsOf;
      if kind >= |typeDB| {
        Resize(kind + 1);
      }
      assert typeDB[kind] in typeDB;
      id, isNew := typeDB[kind].Insert(b);
    }

    method Find(kind: nat, index: nat) returns (b: Bytes)
      requires Valid() && kind < |typeDB| && 0 < index <= |Contents(kind)|
      ensures b == Contents(kind)[index - 1]
    {
      hide RefsFit, ContentsOf;
      b := typeDB[kind].Find(index);
    }

    /** pins_chunk_put; type 0 is for states. */
    method PutChunk(kind: nat, data: Bytes) returns (id: nat)
      requires Valid()
      modifies this, typeDB
      ensures Valid() && (Contents(kind + 1), id) == Intern(old(Contents(kind + 1)), Inserted(old(Contents(kind + 1)), [], Put(data)))
      ensures 0 < id <= |Contents(kind + 1)| && Contents(kind + 1)[id - 1] == data
      ensures forall other: nat :: other != kind + 1 ==> Contents(other) == old(Contents(other))
    {
      var isNew;
      id, isNew := Insert(kind + 1, data);
    }

    /** pins_chunk_cam: a copy of chunk `index`, extended if need be and modified, is put. */
    method CloneAndModifyChunk(kind: nat, index: nat, offset: nat, data: Bytes, gap: Bytes) returns (id: nat)
      requires Valid() && kind + 1 < |typeDB| && 0 < index <= |Contents(kind + 1)|
      requires GapFits(Contents(kind + 1)[index - 1], offset, gap)
      modifies this, typeDB
      ensures Valid()
      ensures (Contents(kind + 1), id)
              == Intern(old(Contents(kind + 1)), Inserted(old(Contents(kind + 1)), [index], CloneAndModify(0, offset, data, gap)))
      ensures 0 < id <= |Contents(kind + 1)|
      ensures Contents(kind + 1)[id - 1] == Modify(old(Contents(kind + 1))[index - 1], offset, data, gap)
      ensures forall other: nat :: other != kind + 1 ==> Contents(other) == old(Contents(other))
    {
      hide Intern, RefsFit, ContentsOf;
      var b := Find(kind + 1, index);
      var newLength := if offset + |data| > |b| then offset + |data| else |b|;
      var copy := b + gap;
      copy := copy[..offset] + data + (if offset + |data| < newLength then copy[offset + |data|..] else []);
      assert copy == Modify(b, offset, data, gap);
      hide Modify;
      var isNew;
      id, isNew := Insert(kind + 1, copy);
    }
  }
}
