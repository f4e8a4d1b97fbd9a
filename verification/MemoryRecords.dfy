/** The linked structures of the tracking allocator (src/support/memory.c): a doubly linked
    list of records and a hash index of bucket chains through the same records. */
module MemoryRecords {
  import opened Powers

  /** `prev` and `next` thread a list, `bucketNext` a bucket chain. */
  class Record {
    var ptr: nat
    var size: nat
    var prev: Record?
    var next: Record?
    var bucketNext: Record?

    constructor (ptr: nat, size: nat)
      ensures this.ptr == ptr && this.size == size && prev == null && next == null && bucketNext == null
    {
      this.ptr, this.size, prev, next, bucketNext := ptr, size, null, null, null;
    }
  }

  function At(s: seq<Record>, i: int): Record? {
    if 0 <= i < |s| then s[i] else null
  }

  ghost predicate Distinct(s: seq<Record>) { forall i, j :: 0 <= i < j < |s| ==> s[i] != s[j] }

  function Without(s: seq<Record>, i: nat): (r: seq<Record>)
    requires i < |s|
    ensures |r| == |s| - 1
  {
    s[..i] + s[i + 1..]
  }

  lemma {:induction false} WithoutAt(s: seq<Record>, i: nat)
    requires i < |s| && Distinct(s)
    ensures forall j :: 0 <= j < |s| - 1 ==> Without(s, i)[j] == if j < i then s[j] else s[j + 1]
    ensures forall x :: x in Without(s, i) <==> x in s && x != s[i]
    ensures Distinct(Without(s, i))
  {
    var r := Without(s, i);
    forall x | x in s && x != s[i]
      ensures x in r
    {
      var j :| 0 <= j < |s| && s[j] == x;
      assert r[if j < i then j else j - 1] == x;
    }
  }

  lemma {:induction false} WithoutIn(s: seq<Record>, i: nat, j: nat)
    requires i < |s| && Distinct(s) && j < |s| - 1
    ensures Without(s, i)[j] in s && Without(s, i)[j] != s[i]
  {
    assert Without(s, i)[j] == s[if j < i then j else j + 1];
  }

  lemma {:induction false} WithoutKeeps(s: seq<Record>, i: nat, x: Record)
    requires i < |s| && Distinct(s)
    ensures x in s && x != s[i] ==> x in Without(s, i)
  {
    WithoutAt(s, i);
  }

  /** Neighbours point at each other. */
  ghost predicate Linked(s: seq<Record>)
    reads s`next, s`prev
  {
    forall i :: 0 <= i < |s| ==> s[i].next == At(s, i + 1) && s[i].prev == At(s, i - 1)
  }

  lemma Neighbours(s: seq<Record>)
    requires Linked(s)
    ensures forall i :: 0 <= i < |s| ==> s[i].next == At(s, i + 1) && s[i].prev == At(s, i - 1)
  {
  }

  lemma AtPush(r: Record, s: seq<Record>, j: int)
    ensures At([r] + s, j) == if j == 0 then r else if j < 0 then null else At(s, j - 1)
  {
  }

  lemma Ends(s: seq<Record>)
    ensures At(s, 0) == null <==> s == []
    ensures s != [] ==> At(s, 0) == s[0] && At(s, |s| - 1) == s[|s| - 1]
    ensures At(s, |s|) == null && At(s, -1) == null
  {
  }

  lemma AtWithout(s: seq<Record>, i: nat, j: int)
    requires i < |s|
    ensures At(Without(s, i), j) == At(s, if j < i then j else j + 1)
  {
  }

  /** Records whose links skip number i form the list without it. */
  lemma {:induction false} Relinked(s: seq<Record>, i: nat)
    requires i < |s|
    requires forall k :: 0 <= k < |s| && k != i ==> s[k].next == At(s, if k == i - 1 then i + 1 else k + 1)
    requires forall k :: 0 <= k < |s| && k != i ==> s[k].prev == At(s, if k == i + 1 then i - 1 else k - 1)
    ensures Linked(Without(s, i))
  {
    hide At;
    var r := Without(s, i);
    forall j | 0 <= j < |r|
      ensures r[j].next == At(r, j + 1) && r[j].prev == At(r, j - 1)
    {
      assert r[j] == s[if j < i then j else j + 1];
      AtWithout(s, i, j + 1);
      AtWithout(s, i, j - 1);
    }
  }

  ghost predicate Chained(s: seq<Record>)
    reads s`bucketNext
  {
    forall i :: 0 <= i < |s| ==> s[i].bucketNext == At(s, i + 1)
  }

  /** Newest record first. */
  class RecordList {
    var head: Record?
    var tail: Record?
    ghost var items: seq<Record>

    ghost predicate Valid()
      reads this, items`next, items`prev
    {
      Distinct(items) && Linked(items) && head == At(items, 0) && tail == At(items, |items| - 1)
    }

    constructor ()
      ensures Valid() && items == []
    {
      head, tail, items := null, null, [];
    }

    method InsertHead(r: Record)
      requires Valid() && r !in items
      modifies this, r`prev, r`next, items`prev
      ensures Valid() && items == [r] + old(items)
    {
      hide At;
      Ends(items);
      r.prev := null;
      r.next := head;
      if head != null {
        head.prev := r;
      } else {
        tail := r;
      }
      head := r;
      ghost var was := items;
      items := [r] + items;
      assert forall i :: 1 <= i < |items| ==> items[i] == was[i - 1];
      forall i | 0 <= i < |items|
        ensures items[i].next == At(items, i + 1) && items[i].prev == At(items, i - 1)
      {
        AtPush(r, was, i + 1);
        AtPush(r, was, i - 1);
      }
      AtPush(r, was, 0);
      AtPush(r, was, |was|);
    }

    /** The predecessor, or the head, skips r. */
    method SkipForward(r: Record, ghost i: nat)
      requires Valid() && i < |items| && items[i] == r
      modifies this`head, items`next
      ensures forall k :: 0 <= k < |items| ==> items[k].next == At(items, if k == i - 1 then i + 1 else k + 1)
      ensures head == At(items, if i == 0 then 1 else 0)
    {
      if r.prev != null {
        r.prev.next := r.next;
      } else {
        head := r.next;
      }
    }

    /** The successor, or the tail, skips r. */
    method SkipBack(r: Record, ghost i: nat)
      requires Distinct(items) && i < |items| && items[i] == r && r.next == At(items, i + 1)
      requires tail == At(items, |items| - 1) && forall k :: 0 <= k < |items| ==> items[k].prev == At(items, k - 1)
      modifies this`tail, items`prev
      ensures forall k :: 0 <= k < |items| ==> items[k].prev == At(items, if k == i + 1 then i - 1 else k - 1)
      ensures tail == At(items, if i == |items| - 1 then i - 1 else |items| - 1)
    {
      if r.next != null {
        r.next.prev := r.prev;
      } else {
        tail := r.prev;
      }
    }

    method Remove(r: Record, ghost i: nat)
      requires Valid() && i < |items| && items[i] == r
      modifies this, items`prev, items`next
      ensures Valid() && items == Without(old(items), i)
      ensures r.prev == null && r.next == null
    {
      hide Distinct, Without, At, Linked;
      Neighbours(items);
      SkipForward(r, i);
      SkipBack(r, i);
      WithoutAt(items, i);
      Unlink(r, i);
      Relinked(items, i);
      AtWithout(items, i, 0);
      AtWithout(items, i, |items| - 2);
      items := Without(items, i);
    }

    method Unlink(r: Record, ghost i: nat)
      requires Distinct(items) && i < |items| && items[i] == r
      modifies r`prev, r`next
      ensures r.prev == null && r.next == null
      ensures forall k :: 0 <= k < |items| && k != i ==>
        items[k].prev == old(items[k].prev) && items[k].next == old(items[k].next)
    {
      r.prev := null;
      r.next := null;
    }
  }

  type Hash = nat -> nat

  const INITIAL_BUCKETS: nat := 16

  /** The mask of a power of two is the remainder. */
  function Bucket(h: Hash, capacity: nat, ptr: nat): (k: nat)
    requires 0 < capacity
    ensures k < capacity
  {
    h(ptr) % capacity
  }

  method CapacityFor(required: nat) returns (capacity: nat)
    ensures IsPowerOfTwo(capacity) && 2 * required <= capacity && INITIAL_BUCKETS <= capacity
    ensures capacity == 16 || capacity < 4 * required
  {
    hide IsPowerOfTwo;
    capacity := INITIAL_BUCKETS;
    Sixteen();
    while capacity < required * 2
      invariant IsPowerOfTwo(capacity) && INITIAL_BUCKETS <= capacity
      invariant capacity == 16 || capacity < 4 * required
    {
      TwicePower(capacity);
      capacity := capacity * 2;
    }
  }

  ghost predicate ChainHolds(h: Hash, first: Record?, chain: seq<Record>, capacity: nat, k: nat)
    requires k < capacity
    reads chain`bucketNext, chain`ptr
  {
    && first == At(chain, 0) && Chained(chain) && Distinct(chain)
    && forall i :: 0 <= i < |chain| ==> Bucket(h, capacity, chain[i].ptr) == k
  }

  /** Records by pointer. */
  class RecordIndex {
    const hash: Hash
    var buckets: array<Record?>
    ghost var chains: seq<seq<Record>>
    ghost var members: set<Record>

    ghost predicate Valid()
      reads this, buckets, members`bucketNext, members`ptr
    {
      && |chains| == buckets.Length
      && (forall k, i :: 0 <= k < |chains| && 0 <= i < |chains[k]| ==> chains[k][i] in members)
      && (forall k :: 0 <= k < |chains| ==> ChainHolds(hash, buckets[k], chains[k], buckets.Length, k))
      && (forall r :: r in members ==> buckets.Length != 0 && r in chains[Bucket(hash, buckets.Length, r.ptr)])
      && (buckets.Length != 0 ==> IsPowerOfTwo(buckets.Length))
    }

    constructor (h: Hash)
      ensures Valid() && members == {} && fresh(buckets) && hash == h && buckets.Length == 0
    {
      hash := h;
      buckets := new Record?[0];
      chains, members := [], {};
    }

    /** A pointer is found exactly when a member has it. */
    method Find(ptr: nat) returns (r: Record?)
      requires Valid()
      ensures r != null ==> r in members && r.ptr == ptr
      ensures r == null ==> forall m :: m in members ==> m.ptr != ptr
    {
      if buckets.Length == 0 {
        return null;
      }
      var k := Bucket(hash, buckets.Length, ptr);
      ghost var chain := chains[k];
      assert ChainHolds(hash, buckets[k], chain, buckets.Length, k);
      r := buckets[k];
      ghost var i := 0;
      Ends(chain);
      while r != null
        invariant 0 <= i <= |chain| && r == At(chain, i)
        invariant forall j :: 0 <= j < i ==> chain[j].ptr != ptr
        decreases |chain| - i
      {
        if r.ptr == ptr {
          return;
        }
        r := r.bucketNext;
        i := i + 1;
      }
    }

    method Insert(r: Record)
      requires Valid() && r !in members && buckets.Length != 0
      modifies this`chains, this`members, buckets, r`bucketNext
      ensures Valid() && members == old(members) + {r}
    {
      hide ChainHolds, At, IsPowerOfTwo;
      var k := Bucket(hash, buckets.Length, r.ptr);
      ghost var was := chains;
      assert forall j :: 0 <= j < |was| ==> r !in was[j];
      r.bucketNext := buckets[k];
      buckets[k] := r;
      PushChain(hash, r, was[k], buckets.Length, k);
      chains := chains[k := [r] + was[k]];
      members := members + {r};
      assert forall j :: 0 <= j < |chains| && j != k ==> ChainHolds(hash, buckets[j], was[j], buckets.Length, j);
    }

    /** A record of one chain is in no other. */
    lemma OneChain(x: Record, k: nat, m: nat)
      requires Valid() && k < |chains| && m < |chains| && k != m && x in chains[k]
      ensures x !in chains[m]
    {
      assert ChainHolds(hash, buckets[k], chains[k], buckets.Length, k);
      assert ChainHolds(hash, buckets[m], chains[m], buckets.Length, m);
    }

    /** The record before r in its chain. */
    method FindBefore(k: nat, r: Record, ghost i: nat) returns (before: Record?)
      requires k < buckets.Length && k < |chains| && ChainHolds(hash, buckets[k], chains[k], buckets.Length, k)
      requires i < |chains[k]| && chains[k][i] == r
      ensures before == At(chains[k], i - 1)
    {
      hide At;
      ghost var chain := chains[k];
      Ends(chain);
      before := null;
      var cursor := buckets[k];
      ghost var j := 0;
      while cursor != r
        invariant 0 <= j <= i && cursor == chain[j] && before == At(chain, j - 1)
        decreases i - j
      {
        AtInside(chain, j);
        AtInside(chain, j + 1);
        before := cursor;
        cursor := cursor.bucketNext;
        j := j + 1;
      }
    }

    /** The predecessor, or the bucket, skips r. */
    method Unhook(k: nat, r: Record, before: Record?, ghost i: nat)
      requires k < buckets.Length && k < |chains| && ChainHolds(hash, buckets[k], chains[k], buckets.Length, k)
      requires i < |chains[k]| && chains[k][i] == r && before == At(chains[k], i - 1)
      modifies buckets, chains[k]`bucketNext
      ensures r.bucketNext == null && buckets[k] == At(chains[k], if i == 0 then 1 else 0)
      ensures forall m :: 0 <= m < buckets.Length && m != k ==> buckets[m] == old(buckets[m])
      ensures forall m :: 0 <= m < |chains[k]| && m != i ==>
        chains[k][m].bucketNext == At(chains[k], if m == i - 1 then i + 1 else m + 1)
    {
      hide At;
      ghost var chain := chains[k];
      Ends(chain);
      if i != 0 {
        AtInside(chain, i - 1);
      }
      if before != null {
        before.bucketNext := r.bucketNext;
      } else {
        buckets[k] := r.bucketNext;
      }
      r.bucketNext := null;
    }

    /** Takes r out of chain k; the other chains are untouched. */
    method Detach(k: nat, r: Record, ghost i: nat)
      requires Valid() && k < buckets.Length && i < |chains[k]| && chains[k][i] == r
      modifies buckets, members`bucketNext
      ensures r.bucketNext == null && ChainHolds(hash, buckets[k], Without(chains[k], i), buckets.Length, k)
      ensures forall m :: 0 <= m < |chains| && m != k ==> ChainHolds(hash, buckets[m], chains[m], buckets.Length, m)
    {
      hide At, IsPowerOfTwo, Distinct, Chained, ChainHolds, Without;
      ghost var chain := chains[k];
      forall m, x | 0 <= m < |chains| && m != k && x in chains[m]
        ensures x !in chain
      {
        OneChain(x, m, k);
      }
      ChainDistinct(hash, buckets[k], chain, buckets.Length, k);
      var before := FindBefore(k, r, i);
      assert forall x :: x in chain ==> x in members;
      Unhook(k, r, before, i);
      ShortChain(hash, chain, i, buckets.Length, k);
    }

    /** Walks the chain to r and unhooks it from its predecessor or its bucket. */
    method Remove(r: Record)
      requires Valid() && r in members
      modifies this`chains, this`members, buckets, members`bucketNext
      ensures Valid() && members == old(members) - {r} && r.bucketNext == null
    {
      hide At, IsPowerOfTwo, Distinct, Chained, ChainHolds, Without;
      var k := Bucket(hash, buckets.Length, r.ptr);
      ghost var chain := chains[k];
      ghost var i :| 0 <= i < |chain| && chain[i] == r;
      ChainDistinct(hash, buckets[k], chain, buckets.Length, k);
      WithoutAt(chain, i);
      forall m, j | 0 <= m < |chains| && m != k && 0 <= j < |chains[m]|
        ensures chains[m][j] != r
      {
        OneChain(r, k, m);
      }
      ghost var short, was := Without(chain, i), chains;
      forall j | 0 <= j < |short|
        ensures short[j] in members - {r}
      {
        WithoutIn(chain, i, j);
      }
      forall x | x in members - {r}
        ensures x in chains[k := short][Bucket(hash, buckets.Length, x.ptr)]
      {
        WithoutKeeps(chain, i, x);
      }
      Detach(k, r, i);
      chains := chains[k := short];
      members := members - {r};
      assert forall m :: 0 <= m < |chains| && m != k ==> ChainHolds(hash, buckets[m], was[m], buckets.Length, m);
    }

    /** Room for `required` records: a bigger table is filled again from the list. */
    method Rehash(list: RecordList, required: nat)
      requires Valid() && list.Valid() && members == SetOf(list.items) && 0 < required
      modifies this, members`bucketNext
      ensures Valid() && members == old(members) && list.Valid() && (buckets == old(buckets) || fresh(buckets))
      ensures 2 * required <= buckets.Length
    {
      if 2 * required <= buckets.Length {
        return;
      }
      var capacity := CapacityFor(required);
      buckets := new Record?[capacity](_ => null);
      chains, members := seq(capacity, _ => []), {};
      assert Valid() by {
        forall k | 0 <= k < capacity
          ensures ChainHolds(hash, buckets[k], chains[k], capacity, k)
        {
          NoChain(hash, capacity, k);
        }
      }
      Fill(list);
    }

    /** Inserts the records of the list one by one. */
    method Fill(list: RecordList)
      requires Valid() && list.Valid() && members == {} && buckets.Length != 0
      modifies this`chains, this`members, buckets, list.items`bucketNext
      ensures Valid() && members == SetOf(list.items) && list.Valid()
    {
      hide At, IsPowerOfTwo, Chained, ChainHolds;
      ghost var items := list.items;
      Ends(items);
      var cursor := list.head;
      ghost var i := 0;
      assert SetOf(items[..0]) == {};
      while cursor != null
        invariant 0 <= i <= |items| && cursor == At(items, i) && list.items == items
        invariant Valid() && list.Valid() && members == SetOf(items[..i]) && buckets.Length != 0
        decreases |items| - i
      {
        AtIndex(items, i);
        assert items[..i + 1] == items[..i] + [items[i]];
        assert SetOf(items[..i + 1]) == SetOf(items[..i]) + {items[i]};
        Insert(cursor);
        cursor := cursor.next;
        i := i + 1;
      }
      AtIndex(items, i);
      assert items[..|items|] == items;
    }
  }

  ghost function SetOf(s: seq<Record>): set<Record> { set x | x in s }

  lemma AtIndex(s: seq<Record>, i: nat)
    requires i <= |s|
    ensures At(s, i) == null <==> i == |s|
    ensures i < |s| ==> At(s, i) == s[i]
  {
  }

  lemma NoChain(h: Hash, capacity: nat, k: nat)
    requires k < capacity
    ensures ChainHolds(h, null, [], capacity, k)
  {
  }

  lemma AtInside(s: seq<Record>, i: nat)
    requires i < |s|
    ensures At(s, i) == s[i]
  {
  }

  lemma ChainDistinct(h: Hash, first: Record?, chain: seq<Record>, capacity: nat, k: nat)
    requires k < capacity && ChainHolds(h, first, chain, capacity, k)
    ensures Distinct(chain) && forall i :: 0 <= i < |chain| ==> Bucket(h, capacity, chain[i].ptr) == k
  {
  }

  lemma {:induction false} ShortChain(h: Hash, chain: seq<Record>, i: nat, capacity: nat, k: nat)
    requires k < capacity && i < |chain| && Distinct(chain) && forall j :: 0 <= j < |chain| ==>
      Bucket(h, capacity, chain[j].ptr) == k
    requires forall m :: 0 <= m < |chain| && m != i ==>
      chain[m].bucketNext == At(chain, if m == i - 1 then i + 1 else m + 1)
    ensures ChainHolds(h, At(chain, if i == 0 then 1 else 0), Without(chain, i), capacity, k)
  {
    hide At, Distinct;
    var r := Without(chain, i);
    WithoutAt(chain, i);
    forall j | 0 <= j < |r|
      ensures r[j].bucketNext == At(r, j + 1)
    {
      AtWithout(chain, i, j + 1);
    }
    AtWithout(chain, i, 0);
  }

  lemma {:induction false} PushChain(h: Hash, r: Record, chain: seq<Record>, capacity: nat, k: nat)
    requires k < capacity && r !in chain && ChainHolds(h, r.bucketNext, chain, capacity, k)
    requires Bucket(h, capacity, r.ptr) == k
    ensures ChainHolds(h, r, [r] + chain, capacity, k)
  {
    hide At;
    var all := [r] + chain;
    forall i | 0 <= i < |all|
      ensures all[i].bucketNext == At(all, i + 1)
    {
      AtPush(r, chain, i + 1);
    }
    AtPush(r, chain, 0);
  }
}
