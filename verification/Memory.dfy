/**
 Memory access. Every process has a memory of its own, one chunk of bytes; a pointer carries the number
 of the process that allocated it in its top byte and the offset in that process's chunk below.

 Reading behind the end of a chunk gives zeros, and writing there extends it.
 */
module Memory {
  import M = Machine
  import G = GlobalStatus
  import A = Allocation

  newtype Byte = x: int | 0 <= x < 256

  // ----- Pointers -----

  const TWO56 := M.TWO56

  function MakePointer(pid: nat, offset: nat): (p: nat)
    ensures p == M.MakePointer(pid, offset)
  {
    (pid + 1) * TWO56 + offset
  }

  function CreatorOf(p: nat): int { p / TWO56 - 1 }

  function OffsetOf(p: nat): nat { p % TWO56 }

  /** Packing and unpacking as the generated code does them, on 64-bit words. */
  function PackBits(pid: bv64, offset: bv64): bv64 { ((pid + 1) << 56) | offset }

  function CreatorBits(p: bv64): bv64 { (p >> 56) - 1 }

  function OffsetBits(p: bv64): bv64 { p & 0xFF_FFFF_FFFF_FFFF }

  lemma OffsetComesBack(pid: bv64, offset: bv64)
    ensures OffsetBits(PackBits(pid, offset)) == OffsetBits(offset)
  {
  }

  lemma CreatorComesBack(pid: bv64, offset: bv64)
    requires offset <= 0xFF_FFFF_FFFF_FFFF
    ensures CreatorBits(PackBits(pid, offset)) == ((pid + 1) & 0xFF) - 1
  {
  }

  lemma OffsetFits(offset: bv64)
    ensures OffsetBits(offset) == offset <==> offset <= 0xFF_FFFF_FFFF_FFFF
  {
  }

  lemma CreatorFits(pid: bv64)
    ensures ((pid + 1) & 0xFF) - 1 == pid <==> pid + 1 < 256
  {
  }

  /** Unpacking inverts packing exactly when the number plus one fits in a byte and the offset below it. */
  lemma PackingInverseIff(pid: bv64, offset: bv64)
    ensures CreatorBits(PackBits(pid, offset)) == pid && OffsetBits(PackBits(pid, offset)) == offset
            <==> pid + 1 < 256 && offset <= 0xFF_FFFF_FFFF_FFFF
  {
    OffsetComesBack(pid, offset);
    OffsetFits(offset);
    CreatorFits(pid);
    if offset <= 0xFF_FFFF_FFFF_FFFF {
      CreatorComesBack(pid, offset);
    }
    hide PackBits, CreatorBits, OffsetBits;
  }

  lemma ShiftIsTimes(n: bv64)
    requires n < 256
    ensures (n << 56) as nat == (n as nat) * 0x100_0000_0000_0000
  {
  }

  lemma OrIsPlus(n: bv64, offset: bv64)
    requires offset <= 0xFF_FFFF_FFFF_FFFF
    ensures (n << 56) | offset == (n << 56) + offset
  {
  }

  lemma NoCarry(n: bv64, offset: bv64)
    requires n < 256 && offset <= 0xFF_FFFF_FFFF_FFFF
    ensures ((n << 56) + offset) as nat == (n << 56) as nat + offset as nat
  {
  }

  lemma NextNumber(pid: bv64)
    requires pid < 255
    ensures (pid + 1) as nat == pid as nat + 1
  {
  }

  /** Within these bounds the 64-bit word is the number that the machine calls the pointer. */
  lemma PackedIsPointer(pid: bv64, offset: bv64)
    requires pid < 255 && offset <= 0xFF_FFFF_FFFF_FFFF
    ensures PackBits(pid, offset) as nat == MakePointer(pid as nat, offset as nat)
  {
    NextNumber(pid);
    ShiftIsTimes(pid + 1);
    OrIsPlus(pid + 1, offset);
    NoCarry(pid + 1, offset);
  }

  /** Unpacking the number, for any process number and offset. */
  lemma PointerInverseIff(pid: nat, offset: nat)
    ensures CreatorOf(MakePointer(pid, offset)) == pid && OffsetOf(MakePointer(pid, offset)) == offset
            <==> offset < TWO56
  {
  }

  // ----- Chunks -----

  type Chunk = seq<Byte>

  function ByteAt(c: Chunk, k: nat): Byte {
    if k < |c| then c[k] else 0
  }

  function ReadPart(c: Chunk, offset: nat, size: nat): (data: seq<Byte>)
    ensures |data| == size && forall k :: 0 <= k < size ==> data[k] == ByteAt(c, offset + k)
  {
    seq(size, k requires 0 <= k < size => ByteAt(c, offset + k))
  }

  /** The chunk with `data` written at an offset. */
  function Delta(c: Chunk, offset: nat, data: seq<Byte>): (c': Chunk)
    ensures forall k: nat :: ByteAt(c', k) == if offset <= k < offset + |data| then data[k - offset] else ByteAt(c, k)
  {
    if data == [] then c
    else
      var length := if offset + |data| > |c| then offset + |data| else |c|;
      seq(length, k requires 0 <= k < length => if offset <= k < offset + |data| then data[k - offset] else ByteAt(c, k))
  }

  // ----- One flat memory -----

  type Flat = nat -> Byte

  /** The byte at every pointer value. */
  function Meaning(chunks: seq<Chunk>): Flat {
    (p: nat) => if 0 <= CreatorOf(p) < |chunks| then ByteAt(chunks[CreatorOf(p)], OffsetOf(p)) else 0
  }

  ghost predicate Same(f: Flat, g: Flat) {
    forall p: nat :: f(p) == g(p)
  }

  function FlatRead(f: Flat, p: nat, size: nat): (data: seq<Byte>)
    ensures |data| == size && forall k :: 0 <= k < size ==> data[k] == f(p + k)
  {
    seq(size, k requires 0 <= k < size => f(p + k))
  }

  function FlatWrite(f: Flat, p: nat, data: seq<Byte>): Flat {
    (q: nat) => if p <= q < p + |data| then data[q - p] else f(q)
  }

  /** f and g differ at most in the block of `size` bytes at p. */
  ghost predicate SameOutside(f: Flat, g: Flat, p: nat, size: nat) {
    forall q: nat :: q < p || p + size <= q ==> g(q) == f(q)
  }

  /** The block of `size` bytes lies in the memory of one process. */
  predicate InRange(chunks: seq<Chunk>, p: nat, size: nat) {
    0 <= CreatorOf(p) < |chunks| && OffsetOf(p) + size <= TWO56
  }

  /** Inside a block, pointer arithmetic stays with the creator. */
  lemma SameCreator(p: nat, k: nat)
    requires OffsetOf(p) + k < TWO56
    ensures CreatorOf(p + k) == CreatorOf(p) && OffsetOf(p + k) == OffsetOf(p) + k
  {
  }

  lemma OutsideBlock(p: nat, size: nat, q: nat)
    requires OffsetOf(p) + size <= TWO56 && CreatorOf(q) == CreatorOf(p)
    ensures p <= q < p + size <==> OffsetOf(p) <= OffsetOf(q) < OffsetOf(p) + size
    ensures q - p == OffsetOf(q) - OffsetOf(p)
  {
    assert p == (CreatorOf(p) + 1) * TWO56 + OffsetOf(p) && q == (CreatorOf(q) + 1) * TWO56 + OffsetOf(q);
  }

  function ReadChunks(chunks: seq<Chunk>, p: nat, size: nat): seq<Byte>
    requires InRange(chunks, p, size)
  {
    ReadPart(chunks[CreatorOf(p)], OffsetOf(p), size)
  }

  function WriteChunks(chunks: seq<Chunk>, p: nat, data: seq<Byte>): seq<Chunk>
    requires InRange(chunks, p, |data|)
  {
    chunks[CreatorOf(p) := Delta(chunks[CreatorOf(p)], OffsetOf(p), data)]
  }

  lemma ReadIsFlat(chunks: seq<Chunk>, p: nat, size: nat)
    requires InRange(chunks, p, size)
    ensures ReadChunks(chunks, p, size) == FlatRead(Meaning(chunks), p, size)
  {
    forall k | 0 <= k < size
      ensures ReadChunks(chunks, p, size)[k] == FlatRead(Meaning(chunks), p, size)[k]
    {
      SameCreator(p, k);
    }
  }

  lemma WriteIsFlat(chunks: seq<Chunk>, p: nat, data: seq<Byte>)
    requires InRange(chunks, p, |data|)
    ensures Same(Meaning(WriteChunks(chunks, p, data)), FlatWrite(Meaning(chunks), p, data))
  {
    forall q: nat
      ensures Meaning(WriteChunks(chunks, p, data))(q) == FlatWrite(Meaning(chunks), p, data)(q)
    {
      if CreatorOf(q) == CreatorOf(p) {
        WrittenByCreator(chunks, p, data, q);
      } else {
        OtherCreator(chunks, p, data, q);
      }
    }
    hide Meaning, FlatWrite, WriteChunks;
  }

  lemma WrittenByCreator(chunks: seq<Chunk>, p: nat, data: seq<Byte>, q: nat)
    requires InRange(chunks, p, |data|) && CreatorOf(q) == CreatorOf(p)
    ensures Meaning(WriteChunks(chunks, p, data))(q) == FlatWrite(Meaning(chunks), p, data)(q)
  {
    OutsideBlock(p, |data|, q);
    hide CreatorOf, OffsetOf, Delta, ByteAt;
  }

  lemma OtherCreator(chunks: seq<Chunk>, p: nat, data: seq<Byte>, q: nat)
    requires InRange(chunks, p, |data|) && CreatorOf(q) != CreatorOf(p)
    ensures Meaning(WriteChunks(chunks, p, data))(q) == FlatWrite(Meaning(chunks), p, data)(q)
  {
    if p <= q < p + |data| {
      SameCreator(p, q - p);
    }
    hide CreatorOf, OffsetOf, Delta, ByteAt;
  }

  /** No block disjoint from the one written changes, whoever allocated it. */
  lemma DisjointBlockKept(chunks: seq<Chunk>, p: nat, data: seq<Byte>, q: nat, size: nat)
    requires InRange(chunks, p, |data|) && InRange(chunks, q, size)
    requires q + size <= p || p + |data| <= q
    ensures InRange(WriteChunks(chunks, p, data), q, size)
    ensures ReadChunks(WriteChunks(chunks, p, data), q, size) == ReadChunks(chunks, q, size)
  {
    ReadIsFlat(chunks, q, size);
    ReadIsFlat(WriteChunks(chunks, p, data), q, size);
    WriteIsFlat(chunks, p, data);
  }

  /** A write inside the block of allocation i, in a run whose requests fit. */
  predicate WritesInside(log: seq<M.Event>, i: nat, p: nat, data: seq<Byte>) {
    && i < |log| && log[i].Allocated? && data != []
    && A.InBlock(log[i], p) && A.InBlock(log[i], p + |data| - 1)
  }

  /** An access inside the block of one allocation of a run leaves the block of every other one as it was. */
  lemma OtherAllocationsKept(model: G.Model, n: nat, s: M.State, log: seq<M.Event>, i: nat, j: nat,
                             chunks: seq<Chunk>, p: nat, data: seq<Byte>)
    requires G.ValidModel(model) && G.Reachable(model, n, s, log) && A.RequestsFit(model.globalsSize, log)
    requires WritesInside(log, i, p, data) && j < |log| && i != j && log[j].Allocated?
    requires InRange(chunks, p, |data|)
    requires InRange(chunks, M.MakePointer(log[j].pid, log[j].offset), log[j].size)
    ensures var q := M.MakePointer(log[j].pid, log[j].offset);
            && InRange(WriteChunks(chunks, p, data), q, log[j].size)
            && ReadChunks(WriteChunks(chunks, p, data), q, log[j].size) == ReadChunks(chunks, q, log[j].size)
  {
    var q, size := M.MakePointer(log[j].pid, log[j].offset), log[j].size;
    hide G.Reachable, G.ValidModel, A.RequestsFit;
    A.AllocationsAreDisjoint(model, n, s, log, i, p);
    if p <= q < p + |data| && size > 0 {
      A.AllocationsAreDisjoint(model, n, s, log, i, q);
    }
    if size > 0 {
      DisjointBlockKept(chunks, p, data, q, size);
    }
  }

  /** And so it leaves the globals. */
  lemma GlobalsKept(model: G.Model, n: nat, s: M.State, log: seq<M.Event>, i: nat, chunks: seq<Chunk>, p: nat, data: seq<Byte>)
    requires G.ValidModel(model) && G.Reachable(model, n, s, log) && A.RequestsFit(model.globalsSize, log)
    requires WritesInside(log, i, p, data)
    requires InRange(chunks, p, |data|) && InRange(chunks, M.MakePointer(0, 0), model.globalsSize)
    ensures var q := M.MakePointer(0, 0);
            && InRange(WriteChunks(chunks, p, data), q, model.globalsSize)
            && ReadChunks(WriteChunks(chunks, p, data), q, model.globalsSize) == ReadChunks(chunks, q, model.globalsSize)
  {
    hide G.Reachable, G.ValidModel, A.RequestsFit;
    A.AllocationsAreDisjoint(model, n, s, log, i, p);
    A.AllocationsAreDisjoint(model, n, s, log, i, p + |data| - 1);
    DisjointBlockKept(chunks, p, data, M.MakePointer(0, 0), model.globalsSize);
  }

  // ----- Sizes of types -----

  /** The number of bytes accessed for a type of `size` bytes. */
  function AlignedSize(size: nat): (n: nat)
    ensures size <= n < size + 4 && n % 4 == 0
    ensures n == size <==> size % 4 == 0
  {
    (size + 3) / 4 * 4
  }

  /** What lies behind a value of `size` bytes in the storage that a store copies from. */
  predicate Padding(size: nat, padding: seq<Byte>) {
    |padding| == AlignedSize(size) - size
  }

  /** A typed store leaves all bytes but the value's alone, whatever the padding, exactly for sizes that are whole words. */
  lemma TypedStoreExactIff(chunks: seq<Chunk>, p: nat, value: seq<Byte>)
    requires InRange(chunks, p, AlignedSize(|value|))
    ensures |value| % 4 == 0 <==>
            forall padding :: Padding(|value|, padding) ==>
              Same(Meaning(WriteChunks(chunks, p, value + padding)), FlatWrite(Meaning(chunks), p, value))
  {
    var f := Meaning(chunks);
    if |value| % 4 == 0 {
      forall padding | Padding(|value|, padding)
        ensures Same(Meaning(WriteChunks(chunks, p, value + padding)), FlatWrite(f, p, value))
      {
        assert value + padding == value;
        WriteIsFlat(chunks, p, value);
      }
    } else {
      var next := p + |value|;
      var other: Byte := if f(next) == 0 then 1 else 0;
      var padding := seq(AlignedSize(|value|) - |value|, _ => other);
      assert Padding(|value|, padding);
      WriteIsFlat(chunks, p, value + padding);
      assert FlatWrite(f, p, value + padding)(next) == other;
      assert FlatWrite(f, p, value)(next) == f(next);
    }
  }

  // ----- The generated code -----

  class Memories {
    var chunks: seq<Chunk>

    constructor (n: nat)
      ensures chunks == seq(n, _ => [])
    {
      chunks := seq(n, _ => []);
    }

    /** generateAccessToMemory: downloads a block into local storage. */
    method Access(p: nat, size: nat) returns (storage: seq<Byte>)
      requires InRange(chunks, p, size)
      ensures storage == FlatRead(Meaning(chunks), p, size)
    {
      var pid, offset := CreatorOf(p), OffsetOf(p);
      storage := ReadPart(chunks[pid], offset, size);
      ReadIsFlat(chunks, p, size);
    }

    /** generateStore with a size: writes local storage to a block. */
    method StoreBytes(p: nat, storage: seq<Byte>)
      requires InRange(chunks, p, |storage|)
      modifies this
      ensures |chunks| == old(|chunks|)
      ensures Same(Meaning(chunks), FlatWrite(old(Meaning(chunks)), p, storage))
    {
      WriteIsFlat(chunks, p, storage);
      var pid, offset := CreatorOf(p), OffsetOf(p);
      chunks := chunks[pid := Delta(chunks[pid], offset, storage)];
    }

    method Load(p: nat, size: nat) returns (value: seq<Byte>)
      requires InRange(chunks, p, AlignedSize(size))
      ensures value == FlatRead(Meaning(chunks), p, size)
    {
      var storage := Access(p, AlignedSize(size));
      value := storage[..size];
    }

    method Store(p: nat, value: seq<Byte>, padding: seq<Byte>)
      requires Padding(|value|, padding) && InRange(chunks, p, AlignedSize(|value|))
      modifies this
      ensures |chunks| == old(|chunks|)
      ensures Same(Meaning(chunks), FlatWrite(old(Meaning(chunks)), p, value + padding))
    {
      StoreBytes(p, value + padding);
    }

    /** __atomic_load: *ret = *p. */
    method AtomicLoad(p: nat, ret: nat, size: nat)
      requires InRange(chunks, p, size) && InRange(chunks, ret, size)
      modifies this
      ensures var f := old(Meaning(chunks)); Same(Meaning(chunks), FlatWrite(f, ret, FlatRead(f, p, size)))
    {
      var storage := Access(p, size);
      StoreBytes(ret, storage);
    }

    /** __atomic_store: *p = *val. */
    method AtomicStore(p: nat, val: nat, size: nat)
      requires InRange(chunks, p, size) && InRange(chunks, val, size)
      modifies this
      ensures var f := old(Meaning(chunks)); Same(Meaning(chunks), FlatWrite(f, p, FlatRead(f, val, size)))
    {
      var storage := Access(val, size);
      StoreBytes(p, storage);
    }

    /** __atomic_compare_exchange: all three blocks are read before one is written. */
    method AtomicCompareExchange(p: nat, expected: nat, desired: nat, size: nat) returns (success: bool)
      requires InRange(chunks, p, size) && InRange(chunks, expected, size) && InRange(chunks, desired, size)
      modifies this
      ensures var f := old(Meaning(chunks)); success <==> FlatRead(f, p, size) == FlatRead(f, expected, size)
      ensures var f := old(Meaning(chunks));
              if success then FlatRead(Meaning(chunks), p, size) == FlatRead(f, desired, size)
              else FlatRead(Meaning(chunks), expected, size) == FlatRead(f, p, size)
      ensures SameOutside(old(Meaning(chunks)), Meaning(chunks), if success then p else expected, size)
    {
      var storage := Access(p, size);
      var storageExpected := Access(expected, size);
      var storageDesired := Access(desired, size);
      if storage == storageExpected {
        StoreBytes(p, storageDesired);
        success := true;
      } else {
        StoreBytes(expected, storage);
        success := false;
      }
    }

    /** The cmpxchg instruction: the operands are register values, and the loaded value is a result. */
    method CmpXchg(p: nat, expected: seq<Byte>, desired: seq<Byte>, padding: seq<Byte>) returns (loaded: seq<Byte>, success: bool)
      requires |expected| == |desired| && Padding(|desired|, padding) && InRange(chunks, p, AlignedSize(|desired|))
      modifies this
      ensures loaded == FlatRead(old(Meaning(chunks)), p, |desired|)
      ensures success == (loaded == expected)
      ensures var f := old(Meaning(chunks));
              Same(Meaning(chunks), if success then FlatWrite(f, p, desired + padding) else f)
    {
      loaded := Load(p, |desired|);
      success := loaded == expected;
      if success {
        Store(p, desired, padding);
      }
    }
  }
}
