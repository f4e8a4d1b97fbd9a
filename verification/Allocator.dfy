/** The tracking allocator (src/support/memory.c): live blocks, a quarantine of freed ones,
    and the byte accounting. The system's malloc, realloc and free are an oracle that gives
    ranges disjoint from everything not yet given back. */
module Allocator {
  import opened Ir
  import opened MemoryRecords
  import opened MemoryTable

  const BLOCK_LIMIT: nat := 64
  const BYTE_LIMIT: nat := 1024 * 1024
  const PREFIX: nat := 16
  const TAIL: nat := 8
  const SIZE_MAX: nat := 0xFFFF_FFFF_FFFF_FFFF

  /** How many of the newest blocks fit into both limits. */
  function RunLength(bs: seq<Block>, blocks: nat, bytes: nat): (n: nat)
    ensures n <= |bs|
  {
    if bs == [] || blocks == 0 || bytes < bs[0].size then 0
    else 1 + RunLength(bs[1..], blocks - 1, bytes - bs[0].size)
  }

  /** The newest-first run of the free history that the quarantine keeps. */
  function Newest(frees: seq<Block>): seq<Block> {
    frees[..RunLength(frees, BLOCK_LIMIT, BYTE_LIMIT)]
  }

  predicate Fits(bs: seq<Block>, blocks: nat, bytes: nat) { |bs| <= blocks && Total(bs) <= bytes }

  /** It is the longest run within both limits: a prefix fits exactly when it is no longer. */
  lemma {:induction false} RunIsLongest(bs: seq<Block>, blocks: nat, bytes: nat, n: nat)
    requires n <= |bs|
    ensures Fits(bs[..n], blocks, bytes) <==> n <= RunLength(bs, blocks, bytes)
    decreases bs
  {
    if n != 0 {
      assert bs[..n][1..] == bs[1..][..n - 1];
      if blocks != 0 && bs[0].size <= bytes {
        RunIsLongest(bs[1..], blocks - 1, bytes - bs[0].size, n - 1);
      }
    }
  }

  /** Freeing one more block never lengthens the run by more than that block. */
  lemma {:induction false} RunGrowsByOne(b: Block, bs: seq<Block>)
    ensures RunLength([b] + bs, BLOCK_LIMIT, BYTE_LIMIT) <= 1 + RunLength(bs, BLOCK_LIMIT, BYTE_LIMIT)
  {
    var all := [b] + bs;
    var n := RunLength(all, BLOCK_LIMIT, BYTE_LIMIT);
    if n != 0 {
      RunIsLongest(all, BLOCK_LIMIT, BYTE_LIMIT, n);
      assert all[..n] == [b] + bs[..n - 1];
      assert all[..n][1..] == bs[..n - 1];
      RunIsLongest(bs, BLOCK_LIMIT, BYTE_LIMIT, n - 1);
    }
  }

  /** The quarantine keeps 64 blocks and one MiB, no more and no fewer. */
  lemma {:induction false} QuarantineLimits(frees: seq<Block>, n: nat)
    requires n <= |frees|
    ensures n <= |Newest(frees)| <==> n <= 64 && Total(frees[..n]) <= 1_048_576
    ensures Newest(frees) <= frees
  {
    RunIsLongest(frees, BLOCK_LIMIT, BYTE_LIMIT, n);
    assert |frees[..n]| == n;
  }

  function Highest(levels: seq<nat>): nat {
    if levels == [] then 0
    else
      var rest := Highest(levels[1..]);
      if rest < levels[0] then levels[0] else rest
  }

  /** The system blocks around two payloads do not overlap. */
  predicate Apart(p: nat, n: nat, q: nat, m: nat) {
    p + n + TAIL + PREFIX <= q || q + m + TAIL + PREFIX <= p
  }

  /** The blocks of these records are disjoint ranges of memory. */
  ghost predicate Separate(rs: set<Record>)
    reads rs`ptr, rs`size
  {
    && (forall r :: r in rs ==> 0 < r.size && PREFIX <= r.ptr)
    && (forall r, s :: r in rs && s in rs && r != s ==> Apart(r.ptr, r.size, s.ptr, s.size))
  }

  /** What the system promises of a block it gives: it overlaps none it has given before. */
  ghost predicate Unused(rs: set<Record>, ptr: nat, size: nat)
    reads rs`ptr, rs`size
  {
    PREFIX <= ptr && forall r :: r in rs ==> Apart(ptr, size, r.ptr, r.size)
  }

  lemma SeparatePlus(rs: set<Record>, r: Record)
    requires Separate(rs) && Unused(rs, r.ptr, r.size) && 0 < r.size
    ensures Separate(rs + {r})
  {
  }

  lemma SeparateLess(rs: set<Record>, less: set<Record>)
    requires Separate(rs) && less <= rs
    ensures Separate(less)
  {
  }

  /** A pointer belongs to one block at most. */
  lemma OneBlockEach(rs: set<Record>, r: Record, s: Record)
    requires Separate(rs) && r in rs && s in rs && r.ptr == s.ptr
    ensures r == s
  {
  }

  datatype FreeResult =
    | Nothing
    | Freed
    | DoubleFree
    | Interior(start: nat)
    | Unmanaged

  datatype AllocResult = Pointer(ptr: nat) | Abort(code: string)

  class Allocator {
    const live: RecordTable
    const freed: RecordTable
    var peakBytes: nat
    /** Every block ever freed, newest first, and the live bytes after every step. */
    ghost var frees: seq<Block>
    ghost var levels: seq<nat>

    ghost function Records(): set<Record>
      reads live.list, freed.list
    {
      SetOf(live.list.items) + SetOf(freed.list.items)
    }

    /** Both tables are sound, no record is in both, and the blocks are disjoint ranges. */
    ghost predicate Shared()
      reads live, freed, live.list, live.index, live.index.buckets, freed.list, freed.index, freed.index.buckets,
        live.list.items, live.index.members, freed.list.items, freed.index.members
    {
      && live.Valid() && freed.Valid()
      && live != freed && live.list != freed.list && live.index != freed.index
      && live.index.buckets != freed.index.buckets
      && (forall r :: r in live.list.items ==> r !in freed.list.items) && Separate(Records())
    }

    /** And the quarantine is the newest run of the free history. */
    ghost predicate Sound()
      reads this`frees, live, freed, live.list, live.index, live.index.buckets, freed.list, freed.index,
        freed.index.buckets,
        live.list.items, live.index.members, freed.list.items, freed.index.members
    {
      Shared() && Blocks(freed.list.items) == Newest(frees)
    }

    /** The quarantine is a run of the free history that may still be too long. */
    ghost predicate Evictable()
      reads this`frees, live, freed, live.list, live.index, live.index.buckets, freed.list, freed.index,
        freed.index.buckets,
        live.list.items, live.index.members, freed.list.items, freed.index.members
    {
      && Shared() && Blocks(freed.list.items) <= frees
      && RunLength(frees, BLOCK_LIMIT, BYTE_LIMIT) <= |freed.list.items|
    }

    /** The peak is the highest level the live bytes ever had. */
    ghost predicate Levelled()
      reads this`levels, this`peakBytes, live`bytes
    {
      levels != [] && levels[0] == live.bytes && peakBytes == Highest(levels)
    }

    ghost predicate Valid()
      reads this, live, freed, live.list, live.index, live.index.buckets, freed.list, freed.index, freed.index.buckets,
        live.list.items, live.index.members, freed.list.items, freed.index.members
    {
      Sound() && Levelled()
    }

    constructor (h: Hash)
      ensures Valid() && live.list.items == [] && frees == [] && peakBytes == 0
    {
      hide RecordTable.Valid, RecordList.Valid, RecordIndex.Valid, Separate, Newest, Highest, Blocks, Total;
      live := new RecordTable(h);
      freed := new RecordTable(h);
      peakBytes, frees, levels := 0, [], [0];
      new;
      NothingSeparate(Records());
      NothingFreed();
      EmptyTable(live);
      EmptyTable(freed);
    }

    static lemma NothingSeparate(rs: set<Record>)
      requires rs == {}
      ensures Separate(rs)
    {
    }

    static lemma NothingFreed()
      ensures Newest([]) == [] && Highest([0]) == 0
    {
    }

    static lemma EmptyTable(t: RecordTable)
      requires t.Valid() && t.list.items == []
      ensures t.bytes == 0 && Blocks(t.list.items) == []
    {
    }

    static lemma Members(t: RecordTable)
      requires t.Valid()
      ensures t.index.members == SetOf(t.list.items) && Distinct(t.list.items)
      ensures t.blocks == |t.list.items| && t.bytes == Total(Blocks(t.list.items))
    {
    }

    static lemma Lists(t: RecordTable)
      requires t.Valid()
      ensures t.list.Valid()
    {
    }

    static predicate Overflows(size: nat) { SIZE_MAX < size + PREFIX + TAIL }

    static function Product(count: nat, size: nat): nat { count * size }

    static function Actual(size: nat): (n: nat)
      ensures 1 <= n && (1 <= size ==> n == size) && (size == 0 ==> n == 1)
    {
      if size == 0 then 1 else size
    }

    static lemma ProductOf(count: nat, size: nat)
      ensures Product(count, size) == count * size
    {
    }

    method NoteLevel()
      requires levels != [] && peakBytes == Highest(levels)
      modifies this`peakBytes, this`levels
      ensures levels == [live.bytes] + old(levels) && peakBytes == Highest(levels)
    {
      levels := [live.bytes] + levels;
      assert levels[1..] == old(levels);
      if live.bytes > peakBytes {
        peakBytes := live.bytes;
      }
    }

    method AddLive(record: Record)
      requires Sound() && record !in Records() && 0 < record.size && Unused(Records(), record.ptr, record.size)
      modifies live, live.list, live.index, live.index.buckets, record`prev, record`next, record`bucketNext,
        live.list.items`prev, live.list.items`bucketNext
      ensures Sound() && live.list.items == [record] + old(live.list.items)
      ensures Blocks(live.list.items) == [Block(record.ptr, record.size)] + old(Blocks(live.list.items))
      ensures live.index.buckets == old(live.index.buckets) || fresh(live.index.buckets)
    {
      hide RecordTable.Valid, Blocks, Newest, Total, Separate, Unused;
      Parts();
      Members(live);
      Members(freed);
      ghost var was, bs, rs := live.list.items, Blocks(live.list.items), Records();
      assert record !in was && record !in freed.list.items && record !in freed.index.members;
      live.Add(record);
      assert freed.Valid();
      assert Blocks(was) == bs;
      PushBlocks(record, was);
      assert Separate(rs) && Unused(rs, record.ptr, record.size);
      SeparatePlus(rs, record);
      assert Records() == rs + {record};
    }

    /** `system` is malloc's answer for the payload; None is a failed malloc. */
    method Alloc(size: nat, system: Option<nat>) returns (r: AllocResult)
      requires Valid() && (system.Some? ==> Unused(Records(), system.value, Actual(size)))
      modifies this`peakBytes, this`levels, live, live.list, live.index, live.index.buckets, live.list.items`prev,
        live.list.items`bucketNext
      ensures r ==
              if Overflows(Actual(size)) then Abort("R4006")
              else if system.None? then Abort("R4001") else Pointer(system.value)
      ensures r == Abort("R4006") <==> 0xFFFF_FFFF_FFFF_FFE7 < size
      ensures Valid() && frees == old(frees)
      ensures r.Pointer? ==>
        && Blocks(live.list.items) == [Block(r.ptr, Actual(size))] + old(Blocks(live.list.items))
        && levels == [live.bytes] + old(levels)
      ensures r.Abort? ==> Blocks(live.list.items) == old(Blocks(live.list.items)) && levels == old(levels)
    {
      hide Sound, Blocks, Highest, Unused;
      var n := Actual(size);
      if Overflows(n) {
        return Abort("R4006");
      }
      if system.None? {
        return Abort("R4001");
      }
      var record := new Record(system.value, n);
      AddLive(record);
      NoteLevel();
      r := Pointer(system.value);
    }
  
    method Calloc(count: nat, size: nat, system: Option<nat>) returns (r: AllocResult)
      requires Valid() && (system.Some? ==> Unused(Records(), system.value, Actual(Product(count, size))))
      modifies this`peakBytes, this`levels, live, live.list, live.index, live.index.buckets, live.list.items`prev,
        live.list.items`bucketNext
      ensures r == if SIZE_MAX < Product(count, size) || Overflows(Actual(Product(count, size))) then Abort("R4006")
                   else if system.None? then Abort("R4001") else Pointer(system.value)
      ensures r == Abort("R4006") <==> 0xFFFF_FFFF_FFFF_FFE7 < count * size
      ensures Valid() && frees == old(frees)
      ensures r.Pointer? ==>
        Blocks(live.list.items) == [Block(r.ptr, Actual(Product(count, size)))] + old(Blocks(live.list.items))
      ensures r.Pointer? ==> levels == [live.bytes] + old(levels)
      ensures r.Abort? ==> Blocks(live.list.items) == old(Blocks(live.list.items)) && levels == old(levels)
    {
      hide Sound, Blocks, Highest, Unused, Product;
      ProductOf(count, size);
      if SIZE_MAX < Product(count, size) {
        return Abort("R4006");
      }
      r := Alloc(Product(count, size), system);
    }

    /** Takes a block out of the live table. */
    method TakeLive(record: Record, ghost i: nat)
      requires Sound() && i < |live.list.items| && live.list.items[i] == record
      modifies live, live.list, live.index, live.index.buckets,
        live.list.items`prev, live.list.items`next, live.list.items`bucketNext
      ensures Sound() && live.list.items == Without(old(live.list.items), i)
      ensures Blocks(live.list.items) == Drop(old(Blocks(live.list.items)), i)
      ensures live.bytes == old(live.bytes) - record.size
      ensures record !in Records() && live.index.buckets == old(live.index.buckets)
      ensures Unused(Records(), record.ptr, record.size) && 0 < record.size
    {
      hide RecordTable.Valid, Blocks, Newest, Total, Separate, Unused, Without;
      Parts();
      Members(live);
      Members(freed);
      ghost var was, bs, rs := live.list.items, Blocks(live.list.items), Records();
      live.Remove(record, i);
      assert freed.Valid();
      Members(live);
      assert Blocks(was) == bs;
      BlocksWithout(was, i);
      DropTotal(bs, i);
      WithoutAt(was, i);
      assert Separate(rs);
      SeparateLess(rs, Records());
      SeparateRest(rs, Records(), record);
    }

    static lemma SeparateRest(rs: set<Record>, less: set<Record>, r: Record)
      requires Separate(rs) && less <= rs && r in rs && r !in less
      ensures Unused(less, r.ptr, r.size) && 0 < r.size
    {
    }

    /** A run past a limit is not the newest run yet. */
    lemma TooLong()
      requires Evictable() && (freed.blocks > BLOCK_LIMIT || freed.bytes > BYTE_LIMIT)
      ensures freed.list.items != [] && RunLength(frees, BLOCK_LIMIT, BYTE_LIMIT) < |freed.list.items|
    {
      hide RecordTable.Valid, Separate, Blocks, RunLength;
      Members(freed);
      var n := |freed.list.items|;
      assert frees[..n] == Blocks(freed.list.items);
      RunIsLongest(frees, BLOCK_LIMIT, BYTE_LIMIT, n);
    }

    lemma WithinLimits()
      requires Evictable() && freed.blocks <= BLOCK_LIMIT && freed.bytes <= BYTE_LIMIT
      ensures Blocks(freed.list.items) == Newest(frees)
    {
      hide RecordTable.Valid, Separate, Blocks, RunLength;
      Members(freed);
      var n := |freed.list.items|;
      assert frees[..n] == Blocks(freed.list.items);
      RunIsLongest(frees, BLOCK_LIMIT, BYTE_LIMIT, n);
    }

    lemma TailIsLast()
      requires freed.Valid() && freed.list.items != []
      ensures freed.list.tail == freed.list.items[|freed.list.items| - 1]
    {
    }

    /** Gives the oldest quarantined block back to the system. */
    method EvictOne()
      requires Evictable() && (freed.blocks > BLOCK_LIMIT || freed.bytes > BYTE_LIMIT)
      modifies freed, freed.list, freed.index, freed.index.buckets,
        freed.list.items`prev, freed.list.items`next, freed.list.items`bucketNext
      ensures Evictable() && |freed.list.items| == |old(freed.list.items)| - 1
      ensures freed.index.buckets == old(freed.index.buckets)
      ensures freed.list.items <= old(freed.list.items)
    {
      hide RecordTable.Valid, Blocks, Total, Separate, RunLength;
      TooLong();
      TailIsLast();
      Parts();
      Members(live);
      Members(freed);
      ghost var was, bs, rs, last := freed.list.items, Blocks(freed.list.items), Records(), |freed.list.items| - 1;
      var record := freed.list.tail;
      freed.Remove(record, last);
      assert live.Valid();
      assert freed.list.items == was[..last];
      assert Blocks(was) == bs;
      BlocksWithout(was, last);
      assert Separate(rs);
      SeparateLess(rs, Records());
    }

    /** Evicts the oldest quarantined blocks until both limits hold. */
    method EvictQuarantine()
      requires Evictable()
      modifies freed, freed.list, freed.index, freed.index.buckets,
        freed.list.items`prev, freed.list.items`next, freed.list.items`bucketNext
      ensures Sound() && freed.index.buckets == old(freed.index.buckets)
    {
      hide Shared, Blocks, RunLength, Newest;
      while freed.blocks > BLOCK_LIMIT || freed.bytes > BYTE_LIMIT
        invariant Evictable() && freed.index.buckets == old(freed.index.buckets)
        invariant freed.list.items <= old(freed.list.items)
        decreases |freed.list.items|
      {
        EvictOne();
      }
      WithinLimits();
    }
  
    /** A freed block becomes the newest of the quarantine; the oldest may have to go. */
    method MoveToQuarantine(record: Record)
      requires Sound() && record !in Records() && 0 < record.size && Unused(Records(), record.ptr, record.size)
      modifies this`frees, freed, freed.list, freed.index, freed.index.buckets, record`prev, record`next,
        record`bucketNext,
        freed.list.items`prev, freed.list.items`next, freed.list.items`bucketNext
      ensures Sound() && frees == [Block(record.ptr, record.size)] + old(frees)
      ensures freed.index.buckets == old(freed.index.buckets) || fresh(freed.index.buckets)
    {
      hide Evictable, Sound, Blocks, Unused;
      AddFreed(record);
      EvictQuarantine();
    }

    method AddFreed(record: Record)
      requires Sound() && record !in Records() && 0 < record.size && Unused(Records(), record.ptr, record.size)
      modifies this`frees, freed, freed.list, freed.index, freed.index.buckets, record`prev, record`next,
        record`bucketNext,
        freed.list.items`prev, freed.list.items`bucketNext
      ensures Evictable() && frees == [Block(record.ptr, record.size)] + old(frees)
      ensures freed.list.items == [record] + old(freed.list.items)
      ensures freed.index.buckets == old(freed.index.buckets) || fresh(freed.index.buckets)
    {
      hide RecordTable.Valid, Blocks, Total, Separate, Unused, RunLength;
      Parts();
      Members(live);
      Members(freed);
      ghost var was, bs, rs := freed.list.items, Blocks(freed.list.items), Records();
      assert record !in was && record !in live.list.items && record !in live.index.members;
      RunGrowsByOne(Block(record.ptr, record.size), frees);
      freed.Add(record);
      assert live.Valid();
      assert Blocks(was) == bs;
      PushBlocks(record, was);
      frees := [Block(record.ptr, record.size)] + frees;
      assert live.Valid() && freed.Valid();
      assert Separate(rs) && Unused(rs, record.ptr, record.size);
      SeparatePlus(rs, record);
      assert Records() == rs + {record};
    }

    /** The record whose block strictly contains ptr, if there is one. */
    static method FindContaining(list: RecordList, ptr: nat) returns (r: Record?)
      requires list.Valid()
      ensures r != null ==> r in list.items && r.ptr < ptr < r.ptr + r.size
      ensures r == null ==> forall m :: m in list.items ==> !(m.ptr < ptr < m.ptr + m.size)
    {
      hide At;
      ghost var items := list.items;
      AtIndex(items, 0);
      r := list.head;
      ghost var i := 0;
      while r != null
        invariant 0 <= i <= |items| && r == At(items, i)
        invariant forall j :: 0 <= j < i ==> !(items[j].ptr < ptr < items[j].ptr + items[j].size)
        decreases |items| - i
      {
        AtIndex(items, i);
        if r.ptr < ptr < r.ptr + r.size {
          return;
        }
        r := r.next;
        i := i + 1;
      }
      AtIndex(items, i);
    }

    /** The diagnosis of a pointer that is not live. */
    method Diagnose(ptr: nat) returns (r: FreeResult)
      requires Shared() && !HasPtr(live.list.items, ptr)
      ensures r.DoubleFree? <==> HasPtr(freed.list.items, ptr)
      ensures r.Interior? ==> exists m :: m in Records() && m.ptr == r.start && m.ptr < ptr < m.ptr + m.size
      ensures r.Unmanaged? ==> forall m :: m in Records() ==> !(m.ptr <= ptr < m.ptr + m.size)
      ensures !r.Nothing? && !r.Freed?
    {
      hide RecordTable.Valid, RecordList.Valid, Separate;
      Lists(live);
      Lists(freed);
      var again := freed.Find(ptr);
      if again != null {
        return DoubleFree;
      }
      var containing := FindContaining(live.list, ptr);
      if containing == null {
        containing := FindContaining(freed.list, ptr);
      }
      if containing != null {
        return Interior(containing.ptr);
      }
      r := Unmanaged;
    }

    /** Block i, at ptr, has moved from the live blocks to the free history. */
    ghost predicate Leaves(was: seq<Block>, i: nat, ptr: nat, before: seq<Block>)
      requires i < |was|
      reads this`frees, live.list, live.list.items`ptr, live.list.items`size
    {
      was[i].ptr == ptr && Blocks(live.list.items) == Drop(was, i) && frees == [was[i]] + before
    }

    /** The two tables share nothing. */
    lemma Parts()
      requires Shared()
      ensures live != freed && live.list != freed.list && live.index != freed.index
      ensures live.index.buckets != freed.index.buckets
      ensures forall r :: r in freed.list.items ==> r !in live.list.items
      ensures forall r :: r in live.list.items ==> r !in freed.list.items
      ensures forall i, j :: 0 <= i < |live.list.items| && 0 <= j < |freed.list.items| ==>
        live.list.items[i] != freed.list.items[j]
      ensures forall i :: 0 <= i < |live.list.items| ==> live.list.items[i] !in freed.index.members
      ensures forall i :: 0 <= i < |freed.list.items| ==> freed.list.items[i] !in live.index.members
    {
    }

    /** Frees a live block; a second free of a quarantined one is always diagnosed. */
    method Free(ptr: nat) returns (r: FreeResult)
      requires Valid()
      modifies this`frees, this`levels, live, live.list, live.index, live.index.buckets,
        live.list.items`prev, live.list.items`next, live.list.items`bucketNext,
        freed, freed.list, freed.index, freed.index.buckets,
        freed.list.items`prev, freed.list.items`next, freed.list.items`bucketNext
      ensures Valid()
      ensures r.Nothing? <==> ptr == 0
      ensures r.Freed? <==> ptr != 0 && old(HasPtr(live.list.items, ptr))
      ensures r.DoubleFree? <==> ptr != 0 && old(HasPtr(freed.list.items, ptr))
      ensures r.Freed? ==>
        exists i :: 0 <= i < |old(Blocks(live.list.items))| && Leaves(old(Blocks(live.list.items)), i, ptr,
          old(frees))
      ensures r.Freed? ==> levels == [live.bytes] + old(levels)
      ensures r.Interior? ==> exists m :: m in Records() && m.ptr == r.start && m.ptr < ptr < m.ptr + m.size
      ensures r.Unmanaged? ==> forall m :: m in Records() ==> !(m.ptr <= ptr < m.ptr + m.size)
      ensures !r.Freed? ==>
        && live.list.items == old(live.list.items) && freed.list.items == old(freed.list.items) && frees == old(frees)
        && levels == old(levels)
    {
      hide RecordTable.Valid, RecordList.Valid, Separate, Blocks, Newest, Highest, Unused, Without, Drop;
      if ptr == 0 {
        NullIsNoBlock();
        return Nothing;
      }
      var record := live.Find(ptr);
      if record == null {
        r := Diagnose(ptr);
        return;
      }
      NotBoth(record);
      ghost var i :| 0 <= i < |live.list.items| && live.list.items[i] == record;
      ghost var was := Blocks(live.list.items);
      Release(record, i);
      assert Leaves(was, i, ptr, old(frees));
      r := Freed;
    }

    /** The steps that free a block that was found. */
    method Release(record: Record, ghost i: nat)
      requires Valid() && i < |live.list.items| && live.list.items[i] == record
      modifies this`frees, this`levels, live, live.list, live.index, live.index.buckets,
        live.list.items`prev, live.list.items`next, live.list.items`bucketNext,
        freed, freed.list, freed.index, freed.index.buckets,
        freed.list.items`prev, freed.list.items`next, freed.list.items`bucketNext
      ensures Valid() && Blocks(live.list.items) == Drop(old(Blocks(live.list.items)), i)
      ensures frees == [old(Blocks(live.list.items))[i]] + old(frees) && levels == [live.bytes] + old(levels)
    {
      hide Sound, Shared, Blocks, Highest, Unused, Without, Drop;
      assert Blocks(live.list.items)[i] == Block(record.ptr, record.size);
      assert Shared() by { SoundShared(); }
      Parts();
      TakeLive(record, i);
      MoveToQuarantine(record);
      HighestLower(live.bytes, levels);
      levels := [live.bytes] + levels;
    }

    /** The system's promise for a moved block: apart from every block but the one it replaces. */
    ghost predicate UnusedBy(ptr: nat, new': nat, size: nat)
      reads live.list, freed.list, Records()`ptr, Records()`size
    {
      PREFIX <= new' && forall r :: r in Records() && r.ptr != ptr ==> Apart(new', size, r.ptr, r.size)
    }

    /** Moves or resizes a live block; the record keeps its place in the list. */
    method Realloc(ptr: nat, size: nat, system: Option<nat>) returns (r: AllocResult)
      requires Valid()
      requires system.Some? ==>
                 if ptr == 0 then Unused(Records(), system.value, Actual(size))
                 else UnusedBy(ptr, system.value, Actual(size))
      modifies this`peakBytes, this`levels, live, live.list, live.index, live.index.buckets, live.list.items
      ensures Valid() && frees == old(frees)
      ensures ptr != 0 && !old(HasPtr(live.list.items, ptr)) ==>
        r == Abort(if old(HasPtr(freed.list.items, ptr)) then "R4013" else "R4002")
      ensures ptr != 0 && old(HasPtr(live.list.items, ptr)) ==>
        r ==
        if Overflows(Actual(size)) then Abort("R4009")
        else if system.None? then Abort("R4008") else Pointer(system.value)
      ensures r == Abort("R4009") <==> ptr != 0 && old(HasPtr(live.list.items, ptr)) && 0xFFFF_FFFF_FFFF_FFE7 < size
      ensures r.Pointer? && ptr != 0 ==>
        exists i :: 0 <= i < |old(Blocks(live.list.items))| && Moved(old(Blocks(live.list.items)), i, ptr,
          Block(r.ptr, Actual(size)))
      ensures r.Pointer? && ptr == 0 ==>
        Blocks(live.list.items) == [Block(r.ptr, Actual(size))] + old(Blocks(live.list.items))
      ensures r.Pointer? ==> levels == [live.bytes] + old(levels)
      ensures r.Abort? ==> Blocks(live.list.items) == old(Blocks(live.list.items)) && levels == old(levels)
    {
      hide Sound, RecordTable.Valid, Blocks, Highest, Unused;
      if ptr == 0 {
        r := Alloc(size, system);
        return;
      }
      assert live.Valid() && freed.Valid() by { SoundShared(); SharedTables(); }
      var record := live.Find(ptr);
      if record == null {
        var again := freed.Find(ptr);
        return Abort(if again != null then "R4013" else "R4002");
      }
      if Overflows(Actual(size)) {
        return Abort("R4009");
      }
      if system.None? {
        return Abort("R4008");
      }
      ghost var i :| 0 <= i < |live.list.items| && live.list.items[i] == record;
      ghost var was := Blocks(live.list.items);
      assert was[i].ptr == ptr;
      MoveLive(record, i, system.value, Actual(size));
      NoteLevel();
      assert Moved(was, i, ptr, Block(system.value, Actual(size)));
      r := Pointer(system.value);
    }

    ghost predicate Moved(was: seq<Block>, i: nat, ptr: nat, b: Block)
      requires i < |was|
      reads live.list, live.list.items`ptr, live.list.items`size
    {
      was[i].ptr == ptr && Blocks(live.list.items) == was[i := b]
    }

    method MoveLive(record: Record, ghost i: nat, ptr: nat, size: nat)
      requires Sound() && i < |live.list.items| && live.list.items[i] == record && 0 < size
      requires UnusedBy(record.ptr, ptr, size)
      modifies live`bytes, live.index, live.index.buckets, live.list.items`bucketNext, record`ptr, record`size
      ensures Sound() && live.list.items == old(live.list.items)
      ensures Blocks(live.list.items) == old(Blocks(live.list.items))[i := Block(ptr, size)]
    {
      hide RecordTable.Valid, Blocks, Newest, Total, Separate, UnusedBy;
      Parts();
      Members(live);
      Members(freed);
      ghost var rs := Records();
      assert record in rs && record !in freed.list.items;
      SeparateLess(rs, rs - {record});
      OthersUnused(record, ptr, size);
      live.Rebind(record, i, ptr, size);
      assert freed.Valid();
      assert Separate(rs - {record}) && Unused(rs - {record}, ptr, size);
      SeparatePlus(rs - {record}, record);
      assert Records() == rs && rs - {record} + {record} == rs;
    }

    lemma OthersUnused(record: Record, ptr: nat, size: nat)
      requires Separate(Records()) && record in Records() && UnusedBy(record.ptr, ptr, size)
      ensures Unused(Records() - {record}, ptr, size)
    {
      forall r | r in Records() - {record}
        ensures r.ptr != record.ptr
      {
        assert Apart(r.ptr, r.size, record.ptr, record.size);
      }
    }

    lemma SharedTables()
      requires Shared()
      ensures live.Valid() && freed.Valid()
    {
    }

    lemma SoundShared()
      requires Sound()
      ensures Shared()
    {
    }

    lemma NullIsNoBlock()
      requires Sound()
      ensures !HasPtr(live.list.items, 0) && !HasPtr(freed.list.items, 0)
    {
      forall r | r in Records()
        ensures r.ptr != 0
      {
      }
    }

    /** A live block is not quarantined. */
    lemma NotBoth(record: Record)
      requires Sound() && record in live.list.items
      ensures !HasPtr(freed.list.items, record.ptr)
    {
      hide RecordTable.Valid, Separate;
      forall r | r in freed.list.items
        ensures r.ptr != record.ptr
      {
        assert r in Records() && record in Records();
        if r.ptr == record.ptr {
          OneBlockEach(Records(), r, record);
        }
      }
    }
  }

  ghost predicate HasPtr(s: seq<Record>, ptr: nat)
    reads s`ptr
  {
    exists r :: r in s && r.ptr == ptr
  }

  lemma {:induction false} HighestLower(b: nat, levels: seq<nat>)
    requires levels != [] && b <= levels[0]
    ensures Highest([b] + levels) == Highest(levels)
  {
    assert ([b] + levels)[1..] == levels;
  }
}