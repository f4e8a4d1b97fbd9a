/** A list of records with its hash index and its accounting, as the allocator keeps one for
    the live blocks and one for the quarantined ones (src/support/memory.c). */
module MemoryTable {
  import opened MemoryRecords

  datatype Block = Block(ptr: nat, size: nat)

  function Total(bs: seq<Block>): nat {
    if bs == [] then 0 else bs[0].size + Total(bs[1..])
  }

  lemma {:induction false} TotalAppend(a: seq<Block>, b: seq<Block>)
    ensures Total(a + b) == Total(a) + Total(b)
  {
    if a == [] {
      assert a + b == b;
    } else {
      assert (a + b)[1..] == a[1..] + b;
      TotalAppend(a[1..], b);
    }
  }

  /** What the records say, in order. */
  function Blocks(s: seq<Record>): (bs: seq<Block>)
    reads s`ptr, s`size
    ensures |bs| == |s| && forall i :: 0 <= i < |s| ==> bs[i] == Block(s[i].ptr, s[i].size)
  {
    if s == [] then [] else [Block(s[0].ptr, s[0].size)] + Blocks(s[1..])
  }

  function Drop(bs: seq<Block>, i: nat): seq<Block>
    requires i < |bs|
  {
    bs[..i] + bs[i + 1..]
  }

  lemma {:induction false} DropTotal(bs: seq<Block>, i: nat)
    requires i < |bs|
    ensures Total(Drop(bs, i)) == Total(bs) - bs[i].size
  {
    hide Total;
    assert bs == bs[..i] + ([bs[i]] + bs[i + 1..]);
    TotalAppend(bs[..i], [bs[i]] + bs[i + 1..]);
    TotalAppend([bs[i]], bs[i + 1..]);
    TotalAppend(bs[..i], bs[i + 1..]);
    TotalOne(bs[i]);
  }

  lemma {:induction false} TotalOne(b: Block)
    ensures Total([b]) == b.size
  {
    assert [b][1..] == [];
  }

  lemma {:induction false} BlocksWithout(s: seq<Record>, i: nat)
    requires i < |s|
    ensures Blocks(Without(s, i)) == Drop(Blocks(s), i)
  {
    hide Blocks;
    var bs, r := Blocks(s), Without(s, i);
    forall j | 0 <= j < |r|
      ensures Blocks(r)[j] == Drop(bs, i)[j]
    {
      assert r[j] == s[if j < i then j else j + 1];
      assert Blocks(r)[j] == Block(r[j].ptr, r[j].size);
    }
  }

  class RecordTable {
    const list: RecordList
    const index: RecordIndex
    var blocks: nat
    var bytes: nat

    /** A pointer is in the index exactly when a record of the list has it; the counters are
        the length and the sum of the list; the table has two buckets per record or more. */
    ghost predicate Valid()
      reads this, list, index, index.buckets, list.items, index.members
    {
      && list.Valid() && index.Valid() && index.members == SetOf(list.items)
      && blocks == |list.items| && bytes == Total(Blocks(list.items))
      && 2 * blocks <= index.buckets.Length
    }

    constructor (h: Hash)
      ensures Valid() && list.items == [] && fresh(list) && fresh(index) && fresh(index.buckets)
    {
      list := new RecordList();
      index := new RecordIndex(h);
      blocks, bytes := 0, 0;
    }

    method Find(ptr: nat) returns (r: Record?)
      requires Valid()
      ensures r != null ==> r in list.items && r.ptr == ptr
      ensures r == null ==> forall m :: m in list.items ==> m.ptr != ptr
    {
      r := index.Find(ptr);
    }

    /** Makes room, then links the record in front and into its bucket. */
    method Add(r: Record)
      requires Valid() && r !in list.items
      modifies this, list, index, index.buckets, r`prev, r`next, r`bucketNext, list.items`prev, list.items`bucketNext
      ensures Valid() && list.items == [r] + old(list.items)
      ensures index.buckets == old(index.buckets) || fresh(index.buckets)
    {
      hide RecordList.Valid, RecordIndex.Valid, Total, Blocks;
      ghost var was, bs := list.items, Blocks(list.items);
      index.Rehash(list, blocks + 1);
      list.InsertHead(r);
      assert index.Valid();
      index.Insert(r);
      assert list.Valid();
      assert SetOf(list.items) == SetOf(was) + {r};
      assert Blocks(was) == bs;
      PushBlocks(r, was);
      blocks := blocks + 1;
      bytes := bytes + r.size;
      assert list.Valid() && index.Valid();
    }

    method Remove(r: Record, ghost i: nat)
      requires Valid() && i < |list.items| && list.items[i] == r
      modifies this, list, index, index.buckets, list.items`prev, list.items`next, list.items`bucketNext
      ensures Valid() && list.items == Without(old(list.items), i)
      ensures index.buckets == old(index.buckets)
    {
      hide RecordList.Valid, RecordIndex.Valid, Total, Without, Blocks;
      ghost var was, bs := list.items, Blocks(list.items);
      assert Distinct(was) by { ListDistinct(); }
      index.Remove(r);
      assert list.Valid();
      list.Remove(r, i);
      assert index.Valid();
      assert Blocks(was) == bs;
      RemovedSet(was, i);
      BlocksWithout(was, i);
      DropTotal(Blocks(was), i);
      blocks := blocks - 1;
      bytes := bytes - r.size;
      assert list.Valid() && index.Valid();
    }

    /** Gives a record another block; its place in the list stays. */
    method Rebind(r: Record, ghost i: nat, ptr: nat, size: nat)
      requires Valid() && i < |list.items| && list.items[i] == r
      modifies this`bytes, index, index.buckets, list.items`bucketNext, r`ptr, r`size
      ensures Valid() && list.items == old(list.items) && index.buckets == old(index.buckets)
      ensures r.ptr == ptr && r.size == size
      ensures Blocks(list.items) == old(Blocks(list.items))[i := Block(ptr, size)]
      ensures forall m :: m in list.items && m != r ==> m.ptr == old(m.ptr) && m.size == old(m.size)
    {
      hide RecordList.Valid, RecordIndex.Valid, Total, Blocks;
      ghost var bs := Blocks(list.items);
      assert bs[i] == Block(r.ptr, r.size);
      assert Distinct(list.items) by { ListDistinct(); }
      DropTotal(bs, i);
      ReplaceTotal(bs, i, Block(ptr, size));
      index.Remove(r);
      assert list.Valid() && Blocks(list.items) == bs;
      bytes := bytes - r.size + size;
      r.ptr := ptr;
      r.size := size;
      assert list.Valid() && index.Valid();
      index.Insert(r);
      assert list.Valid();
      RebindBlocks(list.items, i, bs);
    }

    lemma ListDistinct()
      requires list.Valid()
      ensures Distinct(list.items)
    {
    }
  }

  lemma {:induction false} ReplaceTotal(bs: seq<Block>, i: nat, b: Block)
    requires i < |bs|
    ensures Total(bs[i := b]) == Total(bs) - bs[i].size + b.size && bs[i].size <= Total(bs)
  {
    hide Total;
    DropTotal(bs, i);
    DropTotal(bs[i := b], i);
    assert Drop(bs[i := b], i) == Drop(bs, i);
  }

  lemma {:induction false} RebindBlocks(s: seq<Record>, i: nat, bs: seq<Block>)
    requires |s| == |bs| && i < |s|
    requires forall j :: 0 <= j < |s| && j != i ==> bs[j] == Block(s[j].ptr, s[j].size)
    ensures Blocks(s) == bs[i := Block(s[i].ptr, s[i].size)]
  {
    hide Blocks;
    forall j | 0 <= j < |s|
      ensures Blocks(s)[j] == bs[i := Block(s[i].ptr, s[i].size)][j]
    {
      assert Blocks(s)[j] == Block(s[j].ptr, s[j].size);
    }
  }

  lemma {:induction false} PushBlocks(r: Record, s: seq<Record>)
    ensures Blocks([r] + s) == [Block(r.ptr, r.size)] + Blocks(s) && Total(Blocks([r] + s)) == r.size + Total(Blocks(s))
  {
    assert ([r] + s)[1..] == s;
  }

  lemma {:induction false} RemovedSet(s: seq<Record>, i: nat)
    requires i < |s| && Distinct(s)
    ensures SetOf(Without(s, i)) == SetOf(s) - {s[i]}
  {
    WithoutAt(s, i);
  }
}
