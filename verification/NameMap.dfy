/** The open-addressing map behind every scope and symbol table (src/sema/typecheck.c:135-243). */
module NameMap {
  import opened Ir
  import opened Powers

  datatype Slot<+V> = Free | Used(key: string, value: V, index: nat)

  type Hash = string -> nat

  const INITIAL_CAPACITY: nat := 16

  /** Where probing for a key starts; the mask of a power of two is the remainder. */
  function Home(h: Hash, capacity: nat, key: string): (r: nat)
    requires 0 < capacity
    ensures r < capacity
  {
    h(key) % capacity
  }

  /** The slot d steps on from home, wrapping around. */
  function At(home: nat, d: nat, capacity: nat): (r: nat)
    requires home < capacity && d < capacity
    ensures r < capacity
  {
    if home + d < capacity then home + d else home + d - capacity
  }

  function Distance(home: nat, i: nat, capacity: nat): (d: nat)
    requires home < capacity && i < capacity
    ensures d < capacity && At(home, d, capacity) == i
  {
    if home <= i then i - home else i + capacity - home
  }

  function CountUsed<V>(t: seq<Slot<V>>): (n: nat)
    ensures n <= |t|
  {
    if t == [] then 0 else (if t[0].Used? then 1 else 0) + CountUsed(t[1..])
  }

  lemma {:induction false} SomeFree<V>(t: seq<Slot<V>>) returns (i: nat)
    requires CountUsed(t) < |t|
    ensures i < |t| && t[i].Free?
    decreases t
  {
    if t[0].Free? {
      i := 0;
    } else {
      i := SomeFree(t[1..]);
      i := i + 1;
    }
  }

  lemma {:induction false} CountUpdate<V>(t: seq<Slot<V>>, i: nat, s: Slot<V>)
    requires i < |t| && s.Used?
    ensures CountUsed(t[i := s]) == CountUsed(t) + if t[i].Used? then 0 else 1
    decreases t
  {
    if i == 0 {
      assert t[i := s][1..] == t[1..];
    } else {
      assert t[i := s][1..] == t[1..][i - 1 := s];
      CountUpdate(t[1..], i - 1, s);
    }
  }

  lemma {:induction false} CountAppend<V>(t: seq<Slot<V>>, s: Slot<V>)
    ensures CountUsed(t + [s]) == CountUsed(t) + if s.Used? then 1 else 0
  {
    if t == [] {
      assert t + [s] == [s] && [s][1..] == [];
    } else {
      assert (t + [s])[1..] == t[1..] + [s];
      CountAppend(t[1..], s);
    }
  }

  lemma {:induction false} CountFree<V>(t: seq<Slot<V>>)
    requires forall i :: 0 <= i < |t| ==> t[i].Free?
    ensures CountUsed(t) == 0
  {
    if t != [] {
      CountFree(t[1..]);
    }
  }

  lemma {:induction false} CountPrefix<V>(t: seq<Slot<V>>, i: nat)
    requires i <= |t|
    ensures CountUsed(t[..i]) <= CountUsed(t)
    decreases |t| - i
  {
    if i == |t| {
      assert t[..i] == t;
    } else {
      assert t[..i + 1] == t[..i] + [t[i]];
      CountAppend(t[..i], t[i]);
      CountPrefix(t, i + 1);
    }
  }

  predicate OneSlotEach<V>(t: seq<Slot<V>>) {
    forall i, j :: 0 <= i < |t| && 0 <= j < |t| && t[i].Used? && t[j].Used? && t[i].key == t[j].key ==> i == j
  }

  /** Every slot between a key's home and its place is in use. */
  ghost predicate Probed<V>(h: Hash, t: seq<Slot<V>>) {
    forall i, d: nat :: 0 <= i < |t| && t[i].Used? && d < Distance(Home(h, |t|, t[i].key), i, |t|) ==>
      t[At(Home(h, |t|, t[i].key), d, |t|)].Used?
  }

  ghost predicate Holds<V>(t: seq<Slot<V>>, m: map<string, (V, nat)>) {
    && (forall i :: 0 <= i < |t| && t[i].Used? ==> t[i].key in m && m[t[i].key] == (t[i].value, t[i].index))
    && (forall k :: k in m ==> exists i :: 0 <= i < |t| && t[i].Used? && t[i].key == k)
  }

  /** The table t stores exactly the bindings of m. */
  ghost predicate Stores<V>(h: Hash, t: seq<Slot<V>>, m: map<string, (V, nat)>) {
    OneSlotEach(t) && Probed(h, t) && Holds(t, m)
  }

  /** Probing from home for key stops at i. */
  ghost predicate StopsAt<V>(h: Hash, t: seq<Slot<V>>, key: string, i: nat) {
    && i < |t|
    && (t[i].Free? || t[i].key == key)
    && forall d: nat :: d < Distance(Home(h, |t|, key), i, |t|) ==>
         var s := t[At(Home(h, |t|, key), d, |t|)]; s.Used? && s.key != key
  }

  /** Probing finds a key exactly when it is bound. */
  lemma {:induction false} ProbeFinds<V>(h: Hash, t: seq<Slot<V>>, m: map<string, (V, nat)>, key: string, i: nat)
    requires Stores(h, t, m) && StopsAt(h, t, key, i)
    ensures t[i].Used? <==> key in m
    ensures t[i].Used? ==> m[key] == (t[i].value, t[i].index)
  {
    if key in m {
      var j :| 0 <= j < |t| && t[j].Used? && t[j].key == key;
      var home := Home(h, |t|, key);
      var di, dj := Distance(home, i, |t|), Distance(home, j, |t|);
      var first := t[At(home, di, |t|)];
      assert At(home, dj, |t|) == j && first == t[i];
      assert di < dj ==> first.Used?;
    }
  }

  /** Filling or overwriting the slot where probing stops binds the key and no other. */
  lemma {:induction false} PutStores<V>(h: Hash, t: seq<Slot<V>>, m: map<string, (V, nat)>, key: string, value: V,
      index: nat, i: nat)
    requires Stores(h, t, m) && StopsAt(h, t, key, i)
    ensures Stores(h, t[i := Used(key, value, index)], m[key := (value, index)])
  {
    hide Stores, Holds;
    assert OneSlotEach(t) && Probed(h, t) && Holds(t, m) by { StoresParts(h, t, m); }
    ProbeFinds(h, t, m, key, i);
    var t' := t[i := Used(key, value, index)];
    assert Probed(h, t') by { PutProbed(h, t, key, value, index, i); }
    assert OneSlotEach(t') by {
      if t[i].Free? {
        AbsentEverywhere(t, m, key);
      }
    }
    PutHolds(t, m, key, value, index, i);
    PartsStore(h, t', m[key := (value, index)]);
  }

  lemma StoresParts<V>(h: Hash, t: seq<Slot<V>>, m: map<string, (V, nat)>)
    requires Stores(h, t, m)
    ensures OneSlotEach(t) && Probed(h, t) && Holds(t, m)
  {
  }

  lemma PartsStore<V>(h: Hash, t: seq<Slot<V>>, m: map<string, (V, nat)>)
    requires OneSlotEach(t) && Probed(h, t) && Holds(t, m)
    ensures Stores(h, t, m)
  {
  }

  lemma AbsentEverywhere<V>(t: seq<Slot<V>>, m: map<string, (V, nat)>, key: string)
    requires Holds(t, m) && key !in m
    ensures forall j :: 0 <= j < |t| && t[j].Used? ==> t[j].key != key
  {
  }

  lemma {:induction false} PutProbed<V>(h: Hash, t: seq<Slot<V>>, key: string, value: V, index: nat, i: nat)
    requires Probed(h, t) && StopsAt(h, t, key, i)
    ensures Probed(h, t[i := Used(key, value, index)])
  {
    var t' := t[i := Used(key, value, index)];
    forall j, d: nat | 0 <= j < |t'| && t'[j].Used? && d < Distance(Home(h, |t'|, t'[j].key), j, |t'|)
      ensures t'[At(Home(h, |t'|, t'[j].key), d, |t'|)].Used?
    {
      if j == i {
        assert t[At(Home(h, |t|, key), d, |t|)].Used?;
      } else {
        assert t[At(Home(h, |t|, t[j].key), d, |t|)].Used?;
      }
    }
  }

  lemma {:induction false} PutHolds<V>(t: seq<Slot<V>>, m: map<string, (V, nat)>, key: string, value: V, index: nat,
      i: nat)
    requires Holds(t, m) && OneSlotEach(t) && i < |t| && (t[i].Free? || t[i].key == key)
    requires t[i].Used? <==> key in m
    ensures Holds(t[i := Used(key, value, index)], m[key := (value, index)])
  {
    var t', m' := t[i := Used(key, value, index)], m[key := (value, index)];
    forall k | k in m'
      ensures exists j :: 0 <= j < |t'| && t'[j].Used? && t'[j].key == k
    {
      if k == key {
        assert t'[i].key == k;
      } else {
        var j :| 0 <= j < |t| && t[j].Used? && t[j].key == k;
        assert t'[j] == t[j];
      }
    }
  }

  method NextCapacity(required: nat) returns (capacity: nat)
    ensures required <= capacity && IsPowerOfTwo(capacity) && 16 <= capacity
    ensures if required <= 16 then capacity == 16 else capacity < 2 * required
  {
    hide IsPowerOfTwo;
    capacity := INITIAL_CAPACITY;
    Sixteen();
    while capacity < required
      invariant INITIAL_CAPACITY <= capacity && IsPowerOfTwo(capacity)
      invariant capacity == INITIAL_CAPACITY || (INITIAL_CAPACITY < required && capacity < 2 * required)
    {
      TwicePower(capacity);
      capacity := capacity * 2;
    }
  }

  /** Linear probing; it ends because a slot is free. */
  method FindSlot<V>(h: Hash, entries: array<Slot<V>>, key: string) returns (i: nat)
    requires CountUsed(entries[..]) < entries.Length
    ensures StopsAt(h, entries[..], key, i)
  {
    var capacity := entries.Length;
    ghost var t := entries[..];
    i := Home(h, capacity, key);
    ghost var home, d := i, 0;
    ghost var free := SomeFree(t);
    while entries[i].Used? && entries[i].key != key
      invariant d < capacity && i == At(home, d, capacity)
      invariant forall e: nat :: e < d ==> t[At(home, e, capacity)].Used? && t[At(home, e, capacity)].key != key
      invariant d <= Distance(home, free, capacity)
      decreases capacity - d
    {
      assert i != free;
      i := if i + 1 == capacity then 0 else i + 1;
      d := d + 1;
    }
    assert d == Distance(home, i, capacity);
  }

  /** Moves one binding into a table that does not have it. */
  method Move<V>(h: Hash, next: array<Slot<V>>, s: Slot<V>, ghost m: map<string, (V, nat)>)
    requires s.Used? && s.key !in m && Stores(h, next[..], m) && CountUsed(next[..]) < next.Length
    modifies next
    ensures Stores(h, next[..], m[s.key := (s.value, s.index)]) && CountUsed(next[..]) == CountUsed(old(next[..])) + 1
  {
    hide Stores, StopsAt;
    var j := FindSlot(h, next, s.key);
    ghost var before := next[..];
    StopsInside(h, before, s.key, j);
    ProbeFinds(h, before, m, s.key, j);
    PutStores(h, before, m, s.key, s.value, s.index, j);
    CountUpdate(before, j, s);
    next[j] := s;
    assert next[..] == before[j := s];
  }

  /** The bindings of the first i slots have been moved. */
  ghost predicate MovedFrom<V>(t: seq<Slot<V>>, i: nat, moved: map<string, (V, nat)>, m: map<string, (V, nat)>)
    requires i <= |t|
  {
    && (forall k :: k in moved ==> k in m && moved[k] == m[k] && exists j :: 0 <= j < i && t[j].Used? && t[j].key == k)
    && (forall j :: 0 <= j < i && t[j].Used? ==> t[j].key in moved)
  }

  lemma {:induction false} MovedMore<V>(t: seq<Slot<V>>, i: nat, moved: map<string, (V, nat)>, m: map<string, (V, nat)>)
    requires i < |t| && MovedFrom(t, i, moved, m) && Holds(t, m) && OneSlotEach(t) && t[i].Used?
    ensures t[i].key !in moved && MovedFrom(t, i + 1, moved[t[i].key := (t[i].value, t[i].index)], m)
  {
    var moved' := moved[t[i].key := (t[i].value, t[i].index)];
    forall k | k in moved'
      ensures exists j :: 0 <= j < i + 1 && t[j].Used? && t[j].key == k
    {
      if k == t[i].key {
        assert t[i].Used? && t[i].key == k;
      } else {
        var j :| 0 <= j < i && t[j].Used? && t[j].key == k;
        assert 0 <= j < i + 1;
      }
    }
  }

  lemma MovedAll<V>(t: seq<Slot<V>>, moved: map<string, (V, nat)>, m: map<string, (V, nat)>)
    requires MovedFrom(t, |t|, moved, m) && Holds(t, m)
    ensures moved == m
  {
  }

  lemma EmptyStores<V>(h: Hash, t: seq<Slot<V>>)
    requires forall i :: 0 <= i < |t| ==> t[i].Free?
    ensures Stores(h, t, map[])
  {
  }

  lemma CountNothing<V>(t: seq<Slot<V>>)
    ensures CountUsed(t[..0]) == 0
  {
  }

  lemma StopsInside<V>(h: Hash, t: seq<Slot<V>>, key: string, i: nat)
    requires StopsAt(h, t, key, i)
    ensures i < |t| && (t[i].Free? || t[i].key == key)
  {
  }

  class Map<V(0)> {
    const hash: Hash
    var entries: array<Slot<V>>
    var count: nat
    ghost var contents: map<string, (V, nat)>

    ghost predicate Valid()
      reads this, entries
    {
      && Stores(hash, entries[..], contents)
      && count == CountUsed(entries[..]) == |contents|
      && (entries.Length == 0 || (IsPowerOfTwo(entries.Length) && INITIAL_CAPACITY <= entries.Length))
      && (entries.Length != 0 ==> count * 10 < entries.Length * 7)
    }

    constructor (h: Hash)
      ensures Valid() && fresh(entries) && contents == map[] && hash == h
    {
      hash := h;
      entries := new Slot<V>[0];
      count, contents := 0, map[];
    }

    /** The bindings are those of the mathematical map. */
    method Lookup(key: string) returns (r: Option<(V, nat)>)
      requires Valid()
      ensures r == if key in contents then Some(contents[key]) else None
    {
      if entries.Length == 0 {
        return None;
      }
      var i := FindSlot(hash, entries, key);
      ProbeFinds(hash, entries[..], contents, key, i);
      r := if entries[i].Used? then Some((entries[i].value, entries[i].index)) else None;
    }

    /** Whether the next insertion has to grow the table first. */
    function Required(): (n: nat)
      reads this, entries
    {
      var capacity := if entries.Length == 0 then INITIAL_CAPACITY else entries.Length;
      if (count + 1) * 10 >= capacity * 7 then 2 * capacity else capacity
    }

    /** Growth rehashes every binding; a failed allocation changes nothing. */
    method Reserve(required: nat, allocates: bool) returns (ok: bool)
      requires Valid()
      modifies this`entries
      ensures Valid() && (entries == old(entries) || fresh(entries))
      ensures ok <==> allocates || required <= old(entries.Length)
      ensures ok ==> required <= entries.Length
      ensures !ok || required <= old(entries.Length) ==> entries == old(entries)
      ensures ok && old(entries.Length) < required ==>
        && (if required <= 16 then entries.Length == 16 else entries.Length < 2 * required)
        && (required == 2 * old(entries.Length) ==> entries.Length == required)
    {
      hide Stores;
      if required <= entries.Length {
        return true;
      }
      var capacity := NextCapacity(required);
      if !allocates {
        return false;
      }
      if required == 2 * entries.Length {
        TwicePower(entries.Length);
        OnePower(required, capacity);
      }
      var next := Rehash(capacity);
      entries := next;
      ok := true;
    }

    method Rehash(capacity: nat) returns (next: array<Slot<V>>)
      requires Valid() && entries.Length < capacity
      ensures fresh(next) && next.Length == capacity
      ensures Stores(hash, next[..], contents) && CountUsed(next[..]) == count
    {
      hide Probed, CountUsed;
      next := new Slot<V>[capacity](_ => Slot.Free);
      ghost var t := entries[..];
      ghost var moved: map<string, (V, nat)> := map[];
      CountFree(next[..]);
      CountNothing(t);
      EmptyStores(hash, next[..]);
      for i := 0 to entries.Length
        invariant entries[..] == t && fresh(next)
        invariant Stores(hash, next[..], moved) && CountUsed(next[..]) == CountUsed(t[..i])
        invariant MovedFrom(t, i, moved, contents)
      {
        assert t[..i + 1] == t[..i] + [t[i]];
        CountAppend(t[..i], t[i]);
        CountPrefix(t, i);
        if entries[i].Used? {
          var s := entries[i];
          MovedMore(t, i, moved, contents);
          Move(hash, next, s, moved);
          moved := moved[s.key := (s.value, s.index)];
        }
      }
      assert t[..entries.Length] == t;
      MovedAll(t, moved, contents);
    }

    method Insert(key: string, value: V, index: nat, replace: bool, allocates: bool) returns (ok: bool)
      requires Valid()
      modifies this, entries
      ensures Valid() && (entries == old(entries) || fresh(entries))
      ensures ok <==> (allocates || old(Required()) <= old(entries.Length)) && (replace || key !in old(contents))
      ensures contents == if ok then old(contents)[key := (value, index)] else old(contents)
      ensures
        var had := old(entries.Length);
        entries.Length ==
        if !allocates then had
        else if had == 0 then 16
        else if 7 * had <= 10 * (old(count) + 1) then 2 * had
        else had
    {
      hide Stores, StopsAt, CountUsed, IsPowerOfTwo;
      var required := Required();
      assert entries.Length == 0 ==> count == 0;
      ok := Reserve(required, allocates);
      if !ok {
        return;
      }
      assert (count + 1) * 10 < entries.Length * 7;
      var i := FindSlot(hash, entries, key);
      ghost var t := entries[..];
      StopsInside(hash, t, key, i);
      ProbeFinds(hash, t, contents, key, i);
      if entries[i].Used? && !replace {
        return false;
      }
      PutStores(hash, t, contents, key, value, index, i);
      CountUpdate(t, i, Used(key, value, index));
      if entries[i].Free? {
        count := count + 1;
      }
      entries[i] := Used(key, value, index);
      assert entries[..] == t[i := Used(key, value, index)];
      contents := contents[key := (value, index)];
    }
  }
}
