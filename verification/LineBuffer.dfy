/** The line buffer of the emitted runtime (src/backend/stdlib/lines.c): an array of pointers to
    copies of its own. */
module LineBuffer {
  import opened RuntimeMemory

  predicate HasShape(s: Blocks, b: Ptr) {
    && b in s && s[b].Lines? && s[b].length <= s[b].capacity
    && (if s[b].data == NULL then s[b].capacity == 0
        else s[b].data in s && s[s[b].data].Slots? && |s[s[b].data].items| == s[b].capacity)
  }

  /** The slots in use. */
  function Items(s: Blocks, b: Ptr): (r: seq<Ptr>)
    requires HasShape(s, b)
    ensures |r| == s[b].length
  {
    if s[b].data == NULL then [] else s[s[b].data].items[..s[b].length]
  }

  /** Each of them points to a text, and no two to the same. */
  predicate Owns(s: Blocks, items: seq<Ptr>) {
    && (forall i :: 0 <= i < |items| ==> items[i] in s && s[items[i]].Text?)
    && (forall i, j :: 0 <= i < j < |items| ==> items[i] != items[j])
  }

  predicate IsBuffer(s: Blocks, b: Ptr) {
    HasShape(s, b) && Owns(s, Items(s, b))
  }

  function Texts(s: Blocks, items: seq<Ptr>): (r: seq<string>)
    requires Owns(s, items)
    ensures |r| == |items|
  {
    seq(|items|, i requires 0 <= i < |items| => s[items[i]].s)
  }

  /** The abstract value: the lines. */
  function Contents(s: Blocks, b: Ptr): seq<string>
    requires IsBuffer(s, b)
  {
    Texts(s, Items(s, b))
  }

  function Owned(s: Blocks, b: Ptr): set<Ptr>
    requires HasShape(s, b)
  {
    {b, s[b].data} + SetOf(Items(s, b))
  }

  /** Everything the buffer does not own. */
  function Others(s: Blocks, b: Ptr): Blocks
    requires HasShape(s, b)
  {
    s - Owned(s, b)
  }

  method Dup(m: Memory, src: Ptr) returns (dst: Ptr)
    requires m.Valid() && src in m.blocks && m.blocks[src].Text?
    modifies m
    ensures m.failures >= old(m.failures)
    ensures m.Valid()
    ensures dst == NULL ==> m.blocks == old(m.blocks) && m.failures > old(m.failures)
    ensures dst != NULL ==>
      dst !in old(m.blocks) && m.blocks == old(m.blocks)[dst := old(m.blocks)[src]] && m.failures == old(m.failures)
  {
    dst := m.Malloc(m.blocks[src]);
  }

  /** Frees the first `count` items of a slot array. */
  method FreeItems(m: Memory, data: Ptr, count: nat)
    requires m.Valid()
    requires (data != NULL ==> data in m.blocks && m.blocks[data].Slots? && count <= |m.blocks[data].items|)
    requires data != NULL ==> Owns(m.blocks, m.blocks[data].items[..count])
    modifies m`blocks
    ensures m.Valid()
    ensures m.blocks ==
      if data == NULL then old(m.blocks) else old(m.blocks) - SetOf(old(m.blocks)[data].items[..count])
  {
    if data == NULL {
      return;
    }
    ghost var s := m.blocks;
    var items := m.blocks[data].items;
    var i := 0;
    while i < count
      invariant i <= count && m.Valid() && data in m.blocks && m.blocks[data] == s[data]
      invariant m.blocks == s - SetOf(items[..i])
    {
      var value := m.blocks[data].items[i];
      assert value == items[..count][i];
      assert forall k :: 0 <= k < i ==> items[..count][k] != value;
      if value != NULL {
        m.Free(value);
      }
      FreedOneMore(s, items, i);
      i := i + 1;
    }
  }

  lemma {:induction false} FreedOneMore(s: Blocks, items: seq<Ptr>, i: nat)
    requires i < |items|
    ensures (s - SetOf(items[..i])) - {items[i]} == s - SetOf(items[..i + 1])
  {
    assert items[..i + 1] == items[..i] + [items[i]];
  }

  /** Room for `needed` slots. */
  method Ensure(m: Memory, b: Ptr, needed: nat) returns (ok: bool)
    requires m.Valid() && (b == NULL || IsBuffer(m.blocks, b))
    modifies m
    ensures m.failures >= old(m.failures)
    ensures m.Valid()
    ensures b == NULL ==> !ok && m.blocks == old(m.blocks)
    ensures b != NULL ==>
      && IsBuffer(m.blocks, b) && Items(m.blocks, b) == Items(old(m.blocks), b)
      && Contents(m.blocks, b) == Contents(old(m.blocks), b)
      && Others(m.blocks, b) == Others(old(m.blocks), b)
      && (if ok then m.blocks[b].capacity >= needed else m.blocks == old(m.blocks) && m.failures > old(m.failures))
    ensures ok ==>
      var had := old(m.blocks)[b].capacity;
      var twice := if had == 0 then 8 else 2 * had;
      m.blocks[b].capacity == if needed <= had then had else if needed <= twice then twice else needed
  {
    if b == NULL {
      return false;
    }
    var data, capacity := m.blocks[b].data, m.blocks[b].capacity;
    if capacity >= needed {
      return true;
    }
    ghost var s := m.blocks;
    var base := if capacity > 0 then capacity * 2 else 8;
    var newCapacity := if base >= needed then base else needed;
    var newData := m.Realloc(data, newCapacity);
    if newData == NULL {
      return false;
    }
    ghost var s1 := m.blocks;
    Survives(s, s1, data, newData, b);
    m.Store(b, Lines(newData, m.blocks[b].length, newCapacity));
    Moved(s, s1, m.blocks, b, newData);
    return true;
  }

  lemma {:induction false} Survives(s: Blocks, s1: Blocks, p: Ptr, q: Ptr, k: Ptr)
    requires s1 - {q} == s - {p} && k in s && k != p && (q == p || q !in s)
    ensures k in s1 && s1[k] == s[k]
  {
    assert k in s - {p} && (s - {p})[k] == s[k];
    assert k in s1 - {q} && (s1 - {q})[k] == s1[k];
  }

  lemma {:induction false} Moved(s: Blocks, s1: Blocks, s': Blocks, b: Ptr, q: Ptr)
    requires NULL !in s && IsBuffer(s, b) && q != NULL && (q == s[b].data || q !in s)
    requires q in s1 && s1[q].Slots? && |s1[q].items| >= s[b].length && s1 - {q} == s - {s[b].data}
    requires s[b].data != NULL ==> s[s[b].data].items <= s1[q].items
    requires s' == s1[b := Lines(q, s[b].length, |s1[q].items|)]
    ensures IsBuffer(s', b) && Items(s', b) == Items(s, b) && Contents(s', b) == Contents(s, b)
    ensures Others(s', b) == Others(s, b)
  {
    var p, items := s[b].data, Items(s, b);
    forall k | k in s && k != p
      ensures k in s1 && s1[k] == s[k]
    {
      Survives(s, s1, p, q, k);
    }
    assert b in s1 && b != q;
    assert Items(s', b) == items;
    assert Owns(s', items);
    assert Texts(s', items) == Texts(s, items);
    assert Others(s', b) == (s1 - {q}) - (({b} + SetOf(items)) - {q}) == (s - {p}) - (({b} + SetOf(items)) - {q});
    assert Others(s', b) == Others(s, b);
  }

  method WithCapacity(m: Memory, capacity: int) returns (ok: bool, b: Ptr)
    requires m.Valid()
    modifies m
    ensures m.failures >= old(m.failures)
    ensures m.Valid()
    ensures !ok ==> m.blocks == old(m.blocks) && m.failures > old(m.failures)
    ensures ok ==>
      && b != NULL && b !in old(m.blocks) && IsBuffer(m.blocks, b) && Contents(m.blocks, b) == []
      && Others(m.blocks, b) == old(m.blocks) && m.blocks[b].capacity == if capacity < 8 then 8 else capacity
  {
    var norm := if capacity >= 8 then capacity else 8;
    b := m.Malloc(Lines(NULL, 0, 0));
    if b == NULL {
      return false, NULL;
    }
    assert Others(m.blocks, b) == old(m.blocks);
    ok := Ensure(m, b, norm);
    if !ok {
      m.Free(b);
      assert m.blocks == old(m.blocks);
    }
  }

  method Length(m: Memory, b: Ptr) returns (n: nat)
    requires b == NULL || IsBuffer(m.blocks, b)
    ensures n == if b == NULL then 0 else |Contents(m.blocks, b)|
  {
    n := if b == NULL then 0 else m.blocks[b].length;
  }

  method Get(m: Memory, b: Ptr, index: int) returns (ok: bool, value: Ptr)
    requires b == NULL || IsBuffer(m.blocks, b)
    ensures ok <==> b != NULL && 0 <= index < |Contents(m.blocks, b)|
    ensures ok ==> value in m.blocks && m.blocks[value] == Text(Contents(m.blocks, b)[index])
  {
    if b == NULL || index < 0 || index >= m.blocks[b].length {
      return false, NULL;
    }
    value := m.blocks[m.blocks[b].data].items[index];
    assert value == Items(m.blocks, b)[index];
    ok := true;
  }

  /** `value` may be one of the buffer's own lines: it is copied before anything is freed. */
  method Set(m: Memory, b: Ptr, index: int, value: Ptr) returns (ok: bool)
    requires m.Valid() && (b == NULL || IsBuffer(m.blocks, b)) && value in m.blocks && m.blocks[value].Text?
    modifies m
    ensures m.failures >= old(m.failures)
    ensures m.Valid() && (ok ==> b != NULL && 0 <= index < |Contents(old(m.blocks), b)|)
    ensures !ok ==>
      && m.blocks == old(m.blocks)
      && (b == NULL || !(0 <= index < |Contents(m.blocks, b)|) || m.failures > old(m.failures))
    ensures ok ==>
      && IsBuffer(m.blocks, b) && Contents(m.blocks, b) == Contents(old(m.blocks), b)[index := old(m.blocks)[value].s]
      && Others(m.blocks, b) == Others(old(m.blocks), b)
  {
    if b == NULL || index < 0 || index >= m.blocks[b].length {
      return false;
    }
    ghost var s := m.blocks;
    var copy := Dup(m, value);
    if copy == NULL {
      return false;
    }
    var data := m.blocks[b].data;
    var items := m.blocks[data].items;
    var before := items[index];
    assert before == Items(s, b)[index];
    if before != NULL {
      m.Free(before);
    }
    m.Store(data, Slots(items[index := copy]));
    Replaced(s, m.blocks, b, index, copy, s[value]);
    return true;
  }

  lemma {:induction false} Replaced(s: Blocks, s': Blocks, b: Ptr, index: nat, copy: Ptr, t: Block)
    requires NULL !in s && IsBuffer(s, b) && index < s[b].length && copy !in s && copy != NULL && t.Text?
    requires s' == (s[copy := t] - {Items(s, b)[index]})[s[b].data := Slots(s[s[b].data].items[index := copy])]
    ensures IsBuffer(s', b) && Contents(s', b) == Contents(s, b)[index := t.s] && Others(s', b) == Others(s, b)
  {
    var items := Items(s, b);
    assert Items(s', b) == items[index := copy];
    assert forall i :: 0 <= i < |items| ==> items[i] in s;
    assert Owns(s', items[index := copy]);
    assert Texts(s', items[index := copy]) == Texts(s, items)[index := t.s];
    SetOfUpdate(items, index, copy);
    SameOthers(s, s', b);
  }

  /** Exchanging items for others leaves the rest of memory as it was. */
  lemma {:induction false} SameOthers(s: Blocks, s': Blocks, b: Ptr)
    requires HasShape(s, b) && HasShape(s', b) && s'[b].data == s[b].data
    requires s'.Keys - SetOf(Items(s', b)) == s.Keys - SetOf(Items(s, b))
    requires forall p :: p in s && p in s' && p != b && p != s[b].data ==> s'[p] == s[p]
    ensures Others(s', b) == Others(s, b)
  {
    hide SetOf, Items;
    var o, o' := Others(s, b), Others(s', b);
    assert o.Keys == (s.Keys - SetOf(Items(s, b))) - {b, s[b].data};
    assert o'.Keys == (s'.Keys - SetOf(Items(s', b))) - {b, s[b].data};
    forall p | p in o
      ensures o[p] == o'[p]
    {
      assert p in o'.Keys;
    }
  }

  predicate Distinct(a: seq<Ptr>) { forall i, j :: 0 <= i < j < |a| ==> a[i] != a[j] }

  lemma {:induction false} SetOfUpdate(a: seq<Ptr>, i: nat, c: Ptr)
    requires i < |a| && Distinct(a) && c !in a
    ensures SetOf(a[i := c]) == SetOf(a) - {a[i]} + {c} && Distinct(a[i := c])
  {
    var a' := a[i := c];
    assert a'[i] == c;
    forall p | p in a && p != a[i]
      ensures p in a'
    {
      var k :| 0 <= k < |a| && a[k] == p;
      assert a'[k] == p;
    }
    forall p | p in a'
      ensures p == c || (p in a && p != a[i])
    {
      var k :| 0 <= k < |a| && a'[k] == p;
    }
  }

  lemma {:induction false} SetOfInsert(a: seq<Ptr>, i: nat, c: Ptr)
    requires i <= |a| && Distinct(a) && c !in a
    ensures SetOf(a[..i] + [c] + a[i..]) == SetOf(a) + {c} && Distinct(a[..i] + [c] + a[i..])
  {
    assert a == a[..i] + a[i..];
  }

  lemma {:induction false} SetOfRemove(a: seq<Ptr>, i: nat)
    requires i < |a| && Distinct(a)
    ensures SetOf(a[..i] + a[i + 1..]) == SetOf(a) - {a[i]} && Distinct(a[..i] + a[i + 1..])
  {
    assert a == a[..i] + [a[i]] + a[i + 1..];
    assert forall k :: 0 <= k < i ==> a[..i][k] != a[i];
    var tail := a[i + 1..];
    assert forall k :: 0 <= k < |tail| ==> tail[k] != a[i];
  }

  method Insert(m: Memory, b: Ptr, index: int, value: Ptr) returns (ok: bool)
    requires m.Valid() && (b == NULL || IsBuffer(m.blocks, b)) && value in m.blocks && m.blocks[value].Text?
    modifies m
    ensures m.failures >= old(m.failures)
    ensures m.Valid() && (ok ==> b != NULL && 0 <= index <= |Contents(old(m.blocks), b)|)
    ensures !ok ==>
      && m.blocks == old(m.blocks)
      && (b == NULL || !(0 <= index <= |Contents(m.blocks, b)|) || m.failures > old(m.failures))
    ensures ok ==>
      && IsBuffer(m.blocks, b)
      && Contents(m.blocks, b) == Contents(old(m.blocks),
        b)[..index] + [old(m.blocks)[value].s] + Contents(old(m.blocks), b)[index..]
      && Others(m.blocks, b) == Others(old(m.blocks), b)
  {
    hide Owns, Texts, Owned;
    if b == NULL || index < 0 || index > m.blocks[b].length {
      return false;
    }
    ghost var s := m.blocks;
    var copy := Dup(m, value);
    if copy == NULL {
      return false;
    }
    ghost var s1 := m.blocks;
    CopyApart(s, b, copy, s[value]);
    var room := Ensure(m, b, m.blocks[b].length + 1);
    if !room {
      m.Free(copy);
      assert m.blocks == s;
      return false;
    }
    CopyStays(s1, m.blocks, b, copy);
    PutIn(m, b, index, copy);
    assert Others(m.blocks, b) == Others(s, b);
    return true;
  }

  /** Moves the tail up by one slot and stores the copy in front of it. */
  method PutIn(m: Memory, b: Ptr, index: nat, copy: Ptr)
    requires m.Valid() && IsBuffer(m.blocks, b) && index <= m.blocks[b].length < m.blocks[b].capacity
    requires copy in m.blocks && m.blocks[copy].Text? && copy !in Owned(m.blocks, b)
    modifies m`blocks
    ensures m.Valid() && IsBuffer(m.blocks, b)
    ensures Contents(m.blocks, b) ==
      Contents(old(m.blocks), b)[..index] + [old(m.blocks)[copy].s] + Contents(old(m.blocks), b)[index..]
    ensures Others(m.blocks, b) == Others(old(m.blocks), b) - {copy}
  {
    hide Owns, Texts, Owned;
    ghost var s := m.blocks;
    var data, length := m.blocks[b].data, m.blocks[b].length;
    var items := m.blocks[data].items;
    if index < length {
      items := items[..index + 1] + items[index..length] + items[length + 1..];
    }
    items := items[index := copy];
    m.Store(data, Slots(items));
    m.Store(b, Lines(data, length + 1, m.blocks[b].capacity));
    ghost var was := Items(s, b);
    assert items[..length + 1] == was[..index] + [copy] + was[index..];
    Inserted(s, m.blocks, b, index, copy, items);
  }

  /** A fresh copy is not part of the buffer. */
  lemma {:induction false} CopyApart(s: Blocks, b: Ptr, copy: Ptr, t: Block)
    requires NULL !in s && IsBuffer(s, b) && copy !in s && copy != NULL
    ensures IsBuffer(s[copy := t], b) && Items(s[copy := t], b) == Items(s, b)
    ensures Contents(s[copy := t], b) == Contents(s, b)
    ensures Others(s[copy := t], b) == Others(s, b)[copy := t] && copy !in Others(s, b)
  {
    var s1 := s[copy := t];
    assert forall i :: 0 <= i < |Items(s, b)| ==> Items(s, b)[i] in s;
    assert Owns(s1, Items(s, b));
    assert Texts(s1, Items(s, b)) == Texts(s, Items(s, b));
    assert copy !in Owned(s, b);
  }

  lemma {:induction false} CopyStays(s1: Blocks, s2: Blocks, b: Ptr, copy: Ptr)
    requires HasShape(s1, b) && HasShape(s2, b) && Others(s2, b) == Others(s1, b) && copy in Others(s1, b)
    ensures copy in s2 && s2[copy] == s1[copy] && copy !in Owned(s2, b)
  {
    assert copy in Others(s2, b) && Others(s2, b)[copy] == s2[copy] && Others(s1, b)[copy] == s1[copy];
  }

  lemma {:induction false} Inserted(s: Blocks, s': Blocks, b: Ptr, index: nat, copy: Ptr, all: seq<Ptr>)
    requires NULL !in s && IsBuffer(s, b) && s[b].data != NULL && copy in s && s[copy].Text? && copy !in Owned(s, b)
    requires index <= s[b].length < s[b].capacity == |all|
    requires all[..s[b].length + 1] == Items(s, b)[..index] + [copy] + Items(s, b)[index..]
    requires s' == s[s[b].data := Slots(all)][b := Lines(s[b].data, s[b].length + 1, s[b].capacity)]
    ensures IsBuffer(s', b) && Contents(s', b) == Contents(s, b)[..index] + [s[copy].s] + Contents(s, b)[index..]
    ensures Others(s', b) == Others(s, b) - {copy}
  {
    var items := Items(s, b);
    var items' := items[..index] + [copy] + items[index..];
    assert Items(s', b) == items';
    SetOfInsert(items, index, copy);
    assert forall i :: 0 <= i < |items| ==> items[i] in s && s[items[i]].Text?;
    assert forall i :: 0 <= i < |items'| ==> items'[i] in s && s[items'[i]].Text?;
    assert Owns(s', items');
    assert Texts(s', items') == Texts(s, items)[..index] + [s[copy].s] + Texts(s, items)[index..];
    assert Owned(s', b) == Owned(s, b) + {copy};
    assert Others(s', b) == Others(s, b) - {copy};
  }

  method Push(m: Memory, b: Ptr, value: Ptr) returns (ok: bool)
    requires m.Valid() && (b == NULL || IsBuffer(m.blocks, b)) && value in m.blocks && m.blocks[value].Text?
    modifies m
    ensures m.failures >= old(m.failures)
    ensures m.Valid() && (ok ==> b != NULL)
    ensures !ok ==> m.blocks == old(m.blocks) && (b == NULL || m.failures > old(m.failures))
    ensures ok ==>
      && IsBuffer(m.blocks, b) && Contents(m.blocks, b) == Contents(old(m.blocks), b) + [old(m.blocks)[value].s]
      && Others(m.blocks, b) == Others(old(m.blocks), b)
  {
    var length := Length(m, b);
    ok := Insert(m, b, length, value);
  }

  method Remove(m: Memory, b: Ptr, index: int) returns (ok: bool)
    requires m.Valid() && (b == NULL || IsBuffer(m.blocks, b))
    modifies m`blocks
    ensures m.Valid() && (ok <==> b != NULL && 0 <= index < |Contents(old(m.blocks), b)|)
    ensures !ok ==> m.blocks == old(m.blocks)
    ensures ok ==>
      && IsBuffer(m.blocks, b)
      && Contents(m.blocks, b) == Contents(old(m.blocks), b)[..index] + Contents(old(m.blocks), b)[index + 1..]
      && Others(m.blocks, b) == Others(old(m.blocks), b)
  {
    if b == NULL || index < 0 || index >= m.blocks[b].length {
      return false;
    }
    ghost var s := m.blocks;
    var data, length := m.blocks[b].data, m.blocks[b].length;
    var items := m.blocks[data].items;
    var before := items[index];
    assert before == Items(s, b)[index];
    if before != NULL {
      m.Free(before);
    }
    if index + 1 < length {
      items := items[..index] + items[index + 1..length] + items[length - 1..];
    }
    items := items[length - 1 := NULL];
    m.Store(data, Slots(items));
    m.Store(b, Lines(data, length - 1, m.blocks[b].capacity));
    ghost var was := Items(s, b);
    assert items[..length - 1] == was[..index] + was[index + 1..];
    Removed(s, m.blocks, b, index, items);
    return true;
  }

  lemma {:induction false} Removed(s: Blocks, s': Blocks, b: Ptr, index: nat, all: seq<Ptr>)
    requires NULL !in s && IsBuffer(s, b) && index < s[b].length && |all| == s[b].capacity
    requires all[..s[b].length - 1] == Items(s, b)[..index] + Items(s, b)[index + 1..]
    requires s' ==
      (s - {Items(s, b)[index]})[s[b].data := Slots(all)][b := Lines(s[b].data, s[b].length - 1, s[b].capacity)]
    ensures IsBuffer(s', b) && Contents(s', b) == Contents(s, b)[..index] + Contents(s, b)[index + 1..]
    ensures Others(s', b) == Others(s, b)
  {
    var items := Items(s, b);
    var items' := items[..index] + items[index + 1..];
    assert Items(s', b) == items';
    RemovedOwns(s, s', items, index);
    SetOfRemove(items, index);
    SameOthers(s, s', b);
  }

  lemma {:induction false} RemovedOwns(s: Blocks, s': Blocks, items: seq<Ptr>, index: nat)
    requires Owns(s, items) && index < |items|
    requires forall p :: p in s && s[p].Text? && p != items[index] ==> p in s' && s'[p] == s[p]
    ensures Owns(s', items[..index] + items[index + 1..])
    ensures Texts(s', items[..index] + items[index + 1..]) == Texts(s, items)[..index] + Texts(s, items)[index + 1..]
  {
    var items' := items[..index] + items[index + 1..];
    forall k | 0 <= k < |items'|
      ensures items'[k] in s && s[items'[k]].Text? && items'[k] != items[index]
    {
      assert items'[k] == items[if k < index then k else k + 1];
    }
  }

  method Clear(m: Memory, b: Ptr) returns (ok: bool)
    requires m.Valid() && (b == NULL || IsBuffer(m.blocks, b))
    modifies m`blocks
    ensures m.Valid() && ok == (b != NULL)
    ensures if !ok then m.blocks == old(m.blocks)
            else IsBuffer(m.blocks, b) && Contents(m.blocks, b) == [] && Others(m.blocks, b) == Others(old(m.blocks), b)
  {
    if b == NULL {
      return false;
    }
    ghost var s := m.blocks;
    FreeItems(m, m.blocks[b].data, m.blocks[b].length);
    m.Store(b, Lines(m.blocks[b].data, 0, m.blocks[b].capacity));
    assert SetOf([]) == {};
    SameOthers(s, m.blocks, b);
    return true;
  }

  /** Everything the buffer owns is freed, and nothing else. */
  method Release(m: Memory, b: Ptr) returns (ok: bool)
    requires m.Valid() && (b == NULL || IsBuffer(m.blocks, b))
    modifies m`blocks
    ensures m.Valid() && ok == (b != NULL)
    ensures m.blocks == if ok then Others(old(m.blocks), b) else old(m.blocks)
  {
    if b == NULL {
      return false;
    }
    ghost var s := m.blocks;
    var data := m.blocks[b].data;
    FreeItems(m, data, m.blocks[b].length);
    if data != NULL {
      m.Free(data);
    }
    m.Free(b);
    assert m.blocks == Others(s, b);
    return true;
  }

  // Whole lives of a buffer

  datatype Edit = PushLine(value: Ptr) | InsertLine(index: int, value: Ptr) | SetLine(index: int,
    value: Ptr) | RemoveLine(index: int) | ClearLines

  /** The edits a list of lines allows. */
  predicate Allowed(lines: seq<string>, e: Edit) {
    match e
    case InsertLine(i, _) => 0 <= i <= |lines|
    case SetLine(i, _) => 0 <= i < |lines|
    case RemoveLine(i) => 0 <= i < |lines|
    case _ => true
  }

  predicate HasText(s: Blocks, e: Edit) {
    e.RemoveLine? || e.ClearLines? || (e.value in s && s[e.value].Text?)
  }

  /** What an edit does to the lines; `s` holds the texts. */
  function Edited(s: Blocks, lines: seq<string>, e: Edit): seq<string>
    requires HasText(s, e)
  {
    if !Allowed(lines, e) then lines
    else match e
      case PushLine(v) => lines + [s[v].s]
      case InsertLine(i, v) => lines[..i] + [s[v].s] + lines[i..]
      case SetLine(i, v) => lines[i := s[v].s]
      case RemoveLine(i) => lines[..i] + lines[i + 1..]
      case ClearLines => []
  }

  method Apply(m: Memory, b: Ptr, e: Edit) returns (ok: bool)
    requires m.Valid() && b != NULL && IsBuffer(m.blocks, b) && HasText(m.blocks, e)
    modifies m
    ensures m.Valid() && IsBuffer(m.blocks, b) && Others(m.blocks, b) == Others(old(m.blocks), b)
    ensures Contents(m.blocks, b) ==
      if ok then Edited(old(m.blocks), Contents(old(m.blocks), b), e) else Contents(old(m.blocks), b)
    ensures ok ==> Allowed(Contents(old(m.blocks), b), e)
    ensures !ok ==> m.blocks == old(m.blocks) && (!Allowed(Contents(m.blocks, b), e) || m.failures > old(m.failures))
    ensures m.failures >= old(m.failures)
  {
    hide Owns, Texts, Owned, HasShape, Items, Others;
    match e
    case PushLine(v) => ok := Push(m, b, v);
    case InsertLine(i, v) => ok := Insert(m, b, i, v);
    case SetLine(i, v) => ok := Set(m, b, i, v);
    case RemoveLine(i) => ok := Remove(m, b, i);
    case ClearLines => ok := Clear(m, b);
  }

  /** The edits that succeeded, in order. */
  function Replayed(s: Blocks, edits: seq<Edit>, oks: seq<bool>): seq<string>
    requires |oks| <= |edits| && forall k :: 0 <= k < |edits| ==> HasText(s, edits[k])
    decreases |oks|
  {
    if oks == [] then []
    else
      var n := |oks| - 1;
      var lines := Replayed(s, edits, oks[..n]);
      if oks[n] then Edited(s, lines, edits[n]) else lines
  }

  /** The edits one after the other, on a buffer that holds nothing yet. What the buffer then
      holds is what the edits that succeeded make of it; an edit fails only if it is not
      allowed or an allocation failed. */
  method ApplyAll(m: Memory, b: Ptr, edits: seq<Edit>) returns (oks: seq<bool>)
    requires m.Valid() && b != NULL && IsBuffer(m.blocks, b) && Contents(m.blocks, b) == []
    requires forall k :: 0 <= k < |edits| ==> HasText(Others(m.blocks, b), edits[k])
    modifies m
    ensures m.Valid() && IsBuffer(m.blocks, b) && Others(m.blocks, b) == Others(old(m.blocks), b)
    ensures |oks| == |edits| && Contents(m.blocks, b) == Replayed(Others(old(m.blocks), b), edits, oks)
    ensures Follows(Others(old(m.blocks), b), edits, oks, m.failures == old(m.failures))
    ensures m.failures >= old(m.failures)
  {
    hide Owns, Texts, Owned, Edited, Allowed;
    ghost var s := Others(m.blocks, b);
    oks := [];
    var i := 0;
    while i < |edits|
      invariant i == |oks| <= |edits| && m.Valid() && IsBuffer(m.blocks, b) && Others(m.blocks, b) == s
      invariant Contents(m.blocks, b) == Replayed(s, edits, oks) && m.failures >= old(m.failures)
      invariant Follows(s, edits, oks, m.failures == old(m.failures))
    {
      TextStays(s, m.blocks, b, edits[i]);
      ghost var before := m.blocks;
      ghost var lines := Contents(m.blocks, b);
      var ok := Apply(m, b, edits[i]);
      EditedSame(s, before, lines, edits[i]);
      OneMore(s, edits, oks, ok, m.failures == old(m.failures));
      oks := oks + [ok];
      i := i + 1;
    }
  }

  /** Only allowed edits succeed; if no allocation failed, all of them do. */
  ghost predicate Follows(s: Blocks, edits: seq<Edit>, oks: seq<bool>, plenty: bool)
    requires |oks| <= |edits| && forall k :: 0 <= k < |edits| ==> HasText(s, edits[k])
  {
    forall k :: 0 <= k < |oks| ==>
      && (oks[k] ==> Allowed(Replayed(s, edits, oks[..k]), edits[k]))
      && (plenty && Allowed(Replayed(s, edits, oks[..k]), edits[k]) ==> oks[k])
  }

  lemma OneMore(s: Blocks, edits: seq<Edit>, oks: seq<bool>, ok: bool, plenty: bool)
    requires |oks| < |edits| && forall k :: 0 <= k < |edits| ==> HasText(s, edits[k])
    requires Follows(s, edits, oks, plenty)
    requires ok ==> Allowed(Replayed(s, edits, oks), edits[|oks|])
    requires plenty && Allowed(Replayed(s, edits, oks), edits[|oks|]) ==> ok
    ensures Replayed(s, edits, oks + [ok]) ==
      if ok then Edited(s, Replayed(s, edits, oks), edits[|oks|]) else Replayed(s, edits, oks)
    ensures Follows(s, edits, oks + [ok], plenty)
  {
    var oks' := oks + [ok];
    assert oks'[..|oks|] == oks;
    assert forall k :: 0 <= k < |oks| ==> oks'[..k] == oks[..k];
  }

  /** The lines read back one by one. */
  method ReadAll(m: Memory, b: Ptr) returns (texts: seq<string>)
    requires b != NULL && IsBuffer(m.blocks, b)
    ensures texts == Contents(m.blocks, b)
  {
    hide Owns, Texts, Items, HasShape;
    texts := [];
    var length := Length(m, b);
    var i := 0;
    while i < length
      invariant i <= length == |Contents(m.blocks, b)| && texts == Contents(m.blocks, b)[..i]
    {
      var ok, value := Get(m, b, i);
      texts := texts + [m.blocks[value].s];
      i := i + 1;
    }
  }

  /** Create, edit, read, release: whatever allocations fail, memory ends as it began, and the
      lines read are those of the edits that succeeded; without a failed allocation those are
      exactly the edits allowed. */
  method Live(m: Memory, capacity: int, edits: seq<Edit>) returns (created: bool, oks: seq<bool>, texts: seq<string>)
    requires m.Valid() && forall k :: 0 <= k < |edits| ==> HasText(m.blocks, edits[k])
    modifies m
    ensures m.Valid() && m.blocks == old(m.blocks)
    ensures created ==> |oks| == |edits| && texts == Replayed(old(m.blocks), edits, oks)
    ensures created ==> Follows(old(m.blocks), edits, oks, m.failures == old(m.failures))
    ensures m.failures == old(m.failures) ==> created
  {
    hide Owns, Texts, Owned, Edited, Allowed, Replayed;
    oks, texts := [], [];
    var b: Ptr;
    created, b := WithCapacity(m, capacity);
    if created {
      oks := ApplyAll(m, b, edits);
      texts := ReadAll(m, b);
      var released := Release(m, b);
    }
  }

  lemma TextStays(s: Blocks, s': Blocks, b: Ptr, e: Edit)
    requires HasShape(s', b) && Others(s', b) == s && HasText(s, e)
    ensures HasText(s', e) && (e.PushLine? || e.InsertLine? || e.SetLine? ==> s'[e.value] == s[e.value])
  {
  }

  lemma EditedSame(s: Blocks, s': Blocks, lines: seq<string>, e: Edit)
    requires HasText(s, e) && HasText(s', e)
    requires (e.PushLine? || e.InsertLine? || e.SetLine? ==> s'[e.value] == s[e.value])
    ensures Edited(s', lines, e) == Edited(s, lines, e)
  {
  }
}
