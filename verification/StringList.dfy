/** The list of owned strings in the emitted runtime (src/backend/stdlib/core.c:120-185). */
module StringList {
  import opened RuntimeMemory

  predicate NodesFrom(s: Blocks, p: Ptr, ns: seq<Ptr>)
    decreases |ns|
  {
    if ns == [] then p == NULL
    else p == ns[0] && p in s && s[p].StrNode? && NodesFrom(s, s[p].next, ns[1..])
  }

  /** Separate nodes. */
  predicate Apart(s: Blocks, ns: seq<Ptr>) {
    && (forall i :: 0 <= i < |ns| ==> ns[i] in s && s[ns[i]].StrNode?)
    && (forall i, j :: 0 <= i < j < |ns| ==> ns[i] != ns[j])
  }

  /** The strings, in the order of the nodes. */
  function ValuesOf(s: Blocks, ns: seq<Ptr>): (r: seq<Ptr>)
    requires Apart(s, ns)
    ensures |r| == |ns|
  {
    seq(|ns|, i requires 0 <= i < |ns| => s[ns[i]].value)
  }

  /** Each string is live and there once. */
  predicate Owns(s: Blocks, vs: seq<Ptr>) {
    && (forall i :: 0 <= i < |vs| ==> vs[i] in s && s[vs[i]].Text?)
    && (forall i, j :: 0 <= i < j < |vs| ==> vs[i] != vs[j])
  }

  lemma {:induction false} Frame(s: Blocks, s': Blocks, p: Ptr, ns: seq<Ptr>)
    requires NodesFrom(s, p, ns) && forall i :: 0 <= i < |ns| ==> ns[i] in s && ns[i] in s' && s'[ns[i]] == s[ns[i]]
    ensures NodesFrom(s', p, ns)
    decreases |ns|
  {
    if ns != [] {
      Frame(s, s', s[p].next, ns[1..]);
    }
  }

  /** The list without its k-th node, once the node before it points past it. */
  lemma {:induction false} Unlinked(s: Blocks, s': Blocks, p: Ptr, ns: seq<Ptr>, k: nat)
    requires NodesFrom(s, p, ns) && 0 < k < |ns|
    requires forall i :: 0 <= i < |ns| ==> ns[i] in s && s[ns[i]].StrNode?
    requires forall i, j :: 0 <= i < j < |ns| ==> ns[i] != ns[j]
    requires forall i :: 0 <= i < |ns| && i != k && i != k - 1 ==> ns[i] in s' && s'[ns[i]] == s[ns[i]]
    requires ns[k - 1] in s' && s'[ns[k - 1]] == s[ns[k - 1]].(next := s[ns[k]].next)
    ensures NodesFrom(s', p, ns[..k] + ns[k + 1..])
    decreases |ns|
  {
    var rest := ns[..k] + ns[k + 1..];
    var next := s[p].next;
    if k == 1 {
      assert NodesFrom(s, s[ns[1]].next, ns[1..][1..]);
      assert ns[1..][1..] == ns[2..] == rest[1..];
      Frame(s, s', s[ns[1]].next, ns[2..]);
    } else {
      Unlinked(s, s', next, ns[1..], k - 1);
      assert rest[1..] == ns[1..][..k - 1] + ns[1..][k..];
    }
  }

  class Strings {
    const memory: Memory
    var head: Ptr
    ghost var nodes: seq<Ptr>

    constructor (memory: Memory)
      requires memory.Valid()
      ensures this.memory == memory && Valid() && nodes == []
    {
      this.memory, head, nodes := memory, NULL, [];
    }

    ghost predicate Valid()
      reads this, memory
    {
      memory.Valid() && NodesFrom(memory.blocks, head, nodes) && Apart(memory.blocks, nodes)
    }

    /** The strings on the list, newest first. */
    ghost function Tracked(): (r: seq<Ptr>)
      requires Valid()
      reads this, memory
      ensures |r| == |nodes|
    {
      ValuesOf(memory.blocks, nodes)
    }

    /** The list owns its strings. */
    ghost predicate Sound()
      reads this, memory
    {
      Valid() && Owns(memory.blocks, Tracked())
    }

    /** A string joins the list unless no node can be allocated; then nothing changes. A live
        string that is not on the list yet keeps the list sound. */
    method Track(value: Ptr)
      requires Valid()
      modifies this, memory
      ensures Valid()
      ensures memory.failures > old(memory.failures) ==>
        memory.blocks == old(memory.blocks) && nodes == old(nodes) && head == old(head)
      ensures memory.failures == old(memory.failures) ==>
        && head !in old(memory.blocks) && nodes == [head] + old(nodes) && Tracked() == [value] + old(Tracked())
        && memory.blocks == old(memory.blocks)[head := StrNode(value, old(head))]
      ensures
        old(Sound()) && value in old(memory.blocks) && old(memory.blocks)[value].Text? && value !in old(Tracked()) ==>
          Sound()
    {
      ghost var s, was := memory.blocks, Tracked();
      var node := memory.Malloc(StrNode(value, head));
      if node == NULL {
        return;
      }
      Frame(s, memory.blocks, head, nodes);
      Longer(s, memory.blocks, nodes, node, value);
      head := node;
      nodes := [node] + nodes;
      assert nodes[1..] == old(nodes);
    }

    /** Frees a string on the list, which has to be live, with the newest node that holds it,
        and does nothing for any other pointer. */
    method Free(value: Ptr) returns (ghost k: nat)
      requires Valid() && (value in Tracked() ==> value in memory.blocks && memory.blocks[value].Text?)
      modifies this, memory
      ensures Valid() && memory.failures == old(memory.failures)
      ensures forall p :: p in memory.blocks && !memory.blocks[p].StrNode? ==>
        p in old(memory.blocks) && memory.blocks[p] == old(memory.blocks)[p]
      ensures value !in old(Tracked()) ==>
        memory.blocks == old(memory.blocks) && nodes == old(nodes) && head == old(head)
      ensures value in old(Tracked()) ==>
        && k < |old(nodes)| && old(Tracked())[k] == value && value !in old(Tracked())[..k]
        && nodes == old(nodes)[..k] + old(nodes)[k + 1..] && Tracked() == old(Tracked())[..k] + old(Tracked())[k + 1..]
        && memory.blocks.Keys == old(memory.blocks).Keys - {value, old(nodes)[k]}
      ensures old(Sound()) ==> Sound() && value !in Tracked()
    {
      var prev, curr := NULL, head;
      ghost var s, was, i := memory.blocks, Tracked(), 0;
      assert nodes[0..] == nodes;
      while curr != NULL && memory.blocks[curr].value != value
        invariant i <= |nodes| && NodesFrom(s, curr,
            nodes[i..]) && (if i == 0 then prev == NULL && curr == head else prev == nodes[i - 1])
        invariant forall k :: 0 <= k < i ==> was[k] != value
        decreases |nodes| - i
      {
        assert curr == nodes[i] && was[i] != value;
        prev, curr := curr, memory.blocks[curr].next;
        assert nodes[i..][1..] == nodes[i + 1..];
        i := i + 1;
      }
      k := i;
      if curr == NULL {
        assert forall k :: 0 <= k < |was| ==> was[k] != value;
        return;
      }
      assert curr == nodes[i] && was[i] == value && nodes[i..][1..] == nodes[i + 1..];
      Unlink(prev, curr, i);
      if Owns(s, was) {
        OwnsRest(s, memory.blocks, was, i);
      }
    }

    method Unlink(prev: Ptr, curr: Ptr, ghost k: nat)
      requires Valid() && k < |nodes| && curr == nodes[k]
      requires NodesFrom(memory.blocks, memory.blocks[curr].next, nodes[k + 1..])
      requires if k == 0 then prev == NULL else prev == nodes[k - 1]
      requires memory.blocks[curr].value in memory.blocks && memory.blocks[memory.blocks[curr].value].Text?
      modifies this, memory
      ensures Valid() && memory.failures == old(memory.failures) && nodes == old(nodes)[..k] + old(nodes)[k + 1..]
      ensures Tracked() == old(Tracked())[..k] + old(Tracked())[k + 1..]
      ensures memory.blocks.Keys == old(memory.blocks).Keys - {old(memory.blocks)[curr].value, curr}
      ensures forall p :: p in memory.blocks && !memory.blocks[p].StrNode? ==>
        p in old(memory.blocks) && memory.blocks[p] == old(memory.blocks)[p]
      ensures forall p :: p in old(memory.blocks) && old(memory.blocks)[p].Text? && p in memory.blocks ==>
        memory.blocks[p] == old(memory.blocks)[p]
    {
      ghost var s := memory.blocks;
      var node := memory.blocks[curr];
      if prev != NULL {
        memory.Store(prev, StrNode(memory.blocks[prev].value, node.next));
      } else {
        head := node.next;
      }
      memory.Free(node.value);
      memory.Free(curr);
      ghost var ns := nodes[..k] + nodes[k + 1..];
      if k > 0 {
        Unlinked(s, memory.blocks, head, nodes, k);
      } else {
        assert ns == nodes[1..];
        Frame(s, memory.blocks, head, nodes[1..]);
      }
      Shorter(s, memory.blocks, nodes, k);
      nodes := ns;
    }
  }

  /** The nodes left are separate and hold what they held. */
  lemma {:induction false} Shorter(s: Blocks, s': Blocks, ns: seq<Ptr>, k: nat)
    requires Apart(s, ns) && k < |ns| && s[ns[k]].value in s && !s[s[ns[k]].value].StrNode?
    requires s'.Keys == s.Keys - {s[ns[k]].value, ns[k]}
    requires forall p :: p in s' ==> s'[p] == s[p] || (s[p].StrNode? && s'[p].StrNode? && s'[p].value == s[p].value)
    ensures Apart(s', ns[..k] + ns[k + 1..])
    ensures ValuesOf(s', ns[..k] + ns[k + 1..]) == ValuesOf(s, ns)[..k] + ValuesOf(s, ns)[k + 1..]
  {
    var ns' := ns[..k] + ns[k + 1..];
    forall i | 0 <= i < |ns'|
      ensures ns'[i] ==
        ns[if i < k then i else i + 1] && ns'[i] in s' && s'[ns'[i]].StrNode? && s'[ns'[i]].value == s[ns'[i]].value
    {
    }
  }

  /** Freeing one string of an owned list leaves an owned list without it. */
  lemma {:induction false} OwnsRest(s: Blocks, s': Blocks, vs: seq<Ptr>, k: nat)
    requires Owns(s, vs) && k < |vs|
    requires forall p :: p in s && s[p].Text? && p != vs[k] ==> p in s' && s'[p] == s[p]
    ensures Owns(s', vs[..k] + vs[k + 1..]) && vs[k] !in vs[..k] + vs[k + 1..]
  {
    var vs' := vs[..k] + vs[k + 1..];
    forall i | 0 <= i < |vs'|
      ensures vs'[i] == vs[if i < k then i else i + 1] && vs'[i] != vs[k]
    {
    }
  }

  lemma {:induction false} Longer(s: Blocks, s': Blocks, ns: seq<Ptr>, node: Ptr, value: Ptr)
    requires Apart(s, ns) && node !in s
    requires node in s' && s'[node].StrNode? && s'[node].value == value && forall p :: p in s ==>
      p in s' && s'[p] == s[p]
    ensures Apart(s', [node] + ns) && ValuesOf(s', [node] + ns) == [value] + ValuesOf(s, ns)
    ensures Owns(s, ValuesOf(s, ns)) && value in s && s[value].Text? && value !in ValuesOf(s, ns) ==>
      Owns(s', [value] + ValuesOf(s, ns))
  {
    var vs := ValuesOf(s, ns);
    assert forall i :: 0 <= i < |ns| ==> vs[i] in vs && s[ns[i]].value == vs[i];
  }
}
