/** Zones of the emitted runtime (src/backend/stdlib/core.c:186-265): a list of nodes, each with
    a payload, that one release frees. */
module ZoneRuntime {
  import opened Ir
  import opened Values
  import opened Zones
  import opened RuntimeMemory

  /** The nodes from p on. */
  predicate NodesFrom(s: Blocks, p: Ptr, ns: seq<Ptr>)
    decreases |ns|
  {
    if ns == [] then p == NULL
    else p == ns[0] && p in s && s[p].ZoneNode? && NodesFrom(s, s[p].next, ns[1..])
  }

  /** The nodes are nodes, with payloads, and no node and no payload occurs twice. */
  predicate Apart(s: Blocks, ns: seq<Ptr>) {
    && (forall i :: 0 <= i < |ns| ==>
          ns[i] in s && s[ns[i]].ZoneNode? && s[ns[i]].payload in s && s[s[ns[i]].payload].Payload?)
    && (forall i, j :: 0 <= i < j < |ns| ==> ns[i] != ns[j] && s[ns[i]].payload != s[ns[j]].payload)
  }

  predicate IsZone(s: Blocks, z: Ptr, ns: seq<Ptr>) {
    z in s && s[z].ZoneHead? && NodesFrom(s, s[z].head, ns) && Apart(s, ns)
  }

  function PayloadOf(s: Blocks, n: Ptr): Ptr { if n in s && s[n].ZoneNode? then s[n].payload else NULL }

  function SizeOf(s: Blocks, p: Ptr): nat { if p in s && s[p].Payload? then s[p].size else 0 }

  function Payloads(s: Blocks, ns: seq<Ptr>): seq<Ptr> { seq(|ns|, i requires 0 <= i < |ns| => PayloadOf(s, ns[i])) }

  /** Memory without some of a zone's nodes and their payloads. */
  function Without(s: Blocks, ns: seq<Ptr>): Blocks {
    s - SetOf(ns) - SetOf(Payloads(s, ns))
  }

  /** Everything a zone does not own. */
  function Others(s: Blocks, z: Ptr, ns: seq<Ptr>): Blocks {
    Without(s, ns) - {z}
  }

  method ZoneEnter(m: Memory) returns (z: Ptr)
    requires m.Valid()
    modifies m
    ensures m.Valid()
    ensures z == NULL ==> m.blocks == old(m.blocks) && m.failures > old(m.failures)
    ensures z != NULL ==>
      && z !in old(m.blocks) && m.blocks == old(m.blocks)[z := ZoneHead(NULL)] && m.failures == old(m.failures)
      && IsZone(m.blocks, z, []) && Others(m.blocks, z, []) == old(m.blocks)
  {
    z := m.Malloc(ZoneHead(NULL));
    if z != NULL {
      assert SetOf([]) == {} && Payloads(m.blocks, []) == [];
    }
  }

  /** A fresh node with a fresh payload at the head of the zone's list. */
  predicate Links(s: Blocks, z: Ptr, node: Ptr, payload: Ptr, size: nat, s': Blocks) {
    && node !in s && payload !in s && node != payload && z in s && s[z].ZoneHead?
    && s' == s[node := ZoneNode(s[z].head, payload)][payload := Payload(size)][z := ZoneHead(node)]
  }

  /** A payload in the zone, or nothing and memory as it was. */
  method ZoneAlloc(m: Memory, z: Ptr, size: nat, ghost ns: seq<Ptr>) returns (p: Ptr, ghost ns': seq<Ptr>)
    requires m.Valid() && (z == NULL || IsZone(m.blocks, z, ns))
    modifies m
    ensures m.Valid()
    ensures p == NULL ==> m.blocks == old(m.blocks) && ns' == ns
    ensures z == NULL ==> p == NULL && m.failures == old(m.failures)
    ensures z != NULL && p == NULL ==> m.failures > old(m.failures)
    ensures p != NULL ==>
      && |ns'| > 0 && ns' == [ns'[0]] + ns && IsZone(m.blocks, z, ns') && p == PayloadOf(m.blocks, ns'[0])
      && Links(old(m.blocks), z, ns'[0], p, size, m.blocks) && m.failures == old(m.failures)
      && Others(m.blocks, z, ns') == Others(old(m.blocks), z, ns)
  {
    ns' := ns;
    if z == NULL {
      return NULL, ns;
    }
    ghost var s := m.blocks;
    var node := m.Malloc(ZoneNode(NULL, NULL));
    var payload := m.Malloc(Payload(size));
    if node == NULL || payload == NULL {
      if node != NULL {
        m.Free(node);
      }
      if payload != NULL {
        m.Free(payload);
      }
      assert m.blocks == s;
      return NULL, ns;
    }
    var head := m.blocks[z].head;
    m.Store(node, ZoneNode(head, payload));
    m.Store(z, ZoneHead(node));
    Linked(s, m.blocks, z, ns, node, payload, size);
    return payload, [node] + ns;
  }

  lemma {:induction false} NodesFrame(s: Blocks, s': Blocks, p: Ptr, ns: seq<Ptr>)
    requires NodesFrom(s, p, ns) && forall n :: n in s && s[n].ZoneNode? ==> n in s' && s'[n] == s[n]
    ensures NodesFrom(s', p, ns)
    decreases |ns|
  {
    if ns != [] {
      NodesFrame(s, s', s[p].next, ns[1..]);
    }
  }

  lemma {:induction false} Linked(s: Blocks, s': Blocks, z: Ptr, ns: seq<Ptr>, node: Ptr, payload: Ptr, size: nat)
    requires NULL !in s && IsZone(s, z, ns) && node !in s && payload !in s && node != payload && node != NULL
    requires payload != NULL
    requires s' == s[node := ZoneNode(s[z].head, payload)][payload := Payload(size)][z := ZoneHead(node)]
    ensures IsZone(s', z, [node] + ns) && ([node] + ns)[1..] == ns && Others(s', z, [node] + ns) == Others(s, z, ns)
  {
    hide Without;
    var ns' := [node] + ns;
    assert ns'[1..] == ns;
    NodesFrame(s, s', s[z].head, ns);
    assert Apart(s', ns');
    LinkedOthers(s, s', z, ns, node, payload);
  }

  lemma {:induction false} LinkedOthers(s: Blocks, s': Blocks, z: Ptr, ns: seq<Ptr>, node: Ptr, payload: Ptr)
    requires z in s && Apart(s, ns) && node !in s && payload !in s && node != payload
    requires s'.Keys == s.Keys + {node, payload} && node in s' && s'[node].ZoneNode? && s'[node].payload == payload
    requires forall k :: k in s && k != z ==> s'[k] == s[k]
    requires s[z].ZoneHead? && s'[z].ZoneHead?
    ensures Others(s', z, [node] + ns) == Others(s, z, ns)
  {
    hide NodesFrom;
    var ns' := [node] + ns;
    assert Payloads(s', ns') == [payload] + Payloads(s, ns);
    assert SetOf(ns') == {node} + SetOf(ns);
    assert SetOf(Payloads(s', ns')) == {payload} + SetOf(Payloads(s, ns));
    assert Others(s', z, ns').Keys == Others(s, z, ns).Keys;
  }

  /** Each node and each payload is freed once, and the zone after them. */
  method ZoneRelease(m: Memory, z: Ptr, ghost ns: seq<Ptr>)
    requires m.Valid() && (z == NULL || IsZone(m.blocks, z, ns))
    modifies m`blocks
    ensures m.Valid() && m.blocks == if z == NULL then old(m.blocks) else Others(old(m.blocks), z, ns)
  {
    if z == NULL {
      return;
    }
    ghost var s, i := m.blocks, 0;
    var curr := m.blocks[z].head;
    assert ns[0..] == ns && ns[..0] == [];
    WithoutNone(s);
    while curr != NULL
      invariant m.Valid() && i <= |ns| && m.blocks == Without(s, ns[..i]) && NodesFrom(s, curr, ns[i..])
      decreases |ns| - i
    {
      NodeIsLive(s, ns, i);
      var node := m.blocks[curr];
      WithoutOneMore(s, ns, i);
      m.Free(node.payload);
      m.Free(curr);
      curr := node.next;
      assert ns[i..][1..] == ns[i + 1..];
      i := i + 1;
    }
    assert ns[..i] == ns;
    ZoneIsLive(s, z, ns);
    m.Free(z);
  }

  lemma {:induction false} WithoutNone(s: Blocks)
    ensures Without(s, []) == s
  {
    assert SetOf([]) == {} && Payloads(s, []) == [];
  }

  lemma {:induction false} NodeIsLive(s: Blocks, ns: seq<Ptr>, i: nat)
    requires Apart(s, ns) && i < |ns|
    ensures var n := ns[i]; var rest := Without(s, ns[..i]);
      n in rest && rest[n] == s[n] && s[n].payload in rest && rest[s[n].payload] == s[s[n].payload] && n != s[n].payload
  {
    var done := ns[..i];
    var ps := Payloads(s, done);
    assert forall k :: 0 <= k < i ==> ps[k] == s[ns[k]].payload && done[k] == ns[k];
  }

  lemma {:induction false} ZoneIsLive(s: Blocks, z: Ptr, ns: seq<Ptr>)
    requires Apart(s, ns) && z in s && s[z].ZoneHead?
    ensures z in Without(s, ns)
  {
    var ps := Payloads(s, ns);
    assert forall k :: 0 <= k < |ns| ==> ps[k] == s[ns[k]].payload;
  }

  lemma {:induction false} WithoutOneMore(s: Blocks, ns: seq<Ptr>, i: nat)
    requires Apart(s, ns) && i < |ns|
    ensures Without(s, ns[..i]) - {s[ns[i]].payload} - {ns[i]} == Without(s, ns[..i + 1])
  {
    var done := ns[..i];
    assert ns[..i + 1] == done + [ns[i]];
    assert Payloads(s, ns[..i + 1]) == Payloads(s, done) + [s[ns[i]].payload];
    assert SetOf(done + [ns[i]]) == SetOf(done) + {ns[i]};
    assert SetOf(Payloads(s, done) + [s[ns[i]].payload]) == SetOf(Payloads(s, done)) + {s[ns[i]].payload};
  }

  // Whole runs

  /** Open zones, innermost first, on top of the memory they were entered from; a zone whose
      allocation failed is NULL. */
  predicate Stacked(s: Blocks, base: Blocks, zones: seq<Ptr>, lists: seq<seq<Ptr>>)
    requires |lists| == |zones|
    decreases |zones|
  {
    if zones == [] then s == base
    else if zones[0] == NULL then Stacked(s, base, zones[1..], lists[1..])
    else IsZone(s, zones[0], lists[0]) && Stacked(Others(s, zones[0], lists[0]), base, zones[1..], lists[1..])
  }

  /** A prefix of a nested trace is nested. */
  lemma {:induction false} PrefixNests(tr: Trace, i: nat)
    requires i <= |tr| && OpenAfter(tr).Some?
    ensures OpenAfter(tr[..i]).Some?
    decreases |tr|
  {
    hide Advance;
    if i < |tr| {
      PrefixNests(tr[..|tr| - 1], i);
      assert tr[..|tr| - 1][..i] == tr[..i];
    } else {
      assert tr[..i] == tr;
    }
  }

  lemma {:induction false} NextOpen(tr: Trace, i: nat)
    requires i < |tr| && OpenAfter(tr).Some?
    ensures OpenAfter(tr[..i]).Some? && OpenAfter(tr[..i + 1]) == Advance(OpenAfter(tr[..i]).value, tr[i])
    ensures Advance(OpenAfter(tr[..i]).value, tr[i]).Some?
  {
    hide OpenAfter, Advance;
    PrefixNests(tr, i);
    PrefixNests(tr, i + 1);
    OpenAppend(tr[..i], tr[i]);
    assert tr[..i] + [tr[i]] == tr[..i + 1];
  }

  /** Memory, the failed allocations so far, and the open zones with their nodes. */
  datatype Snapshot = Snapshot(blocks: Blocks, failures: nat, zones: seq<Ptr>, lists: seq<seq<Ptr>>)

  /** A new zone on top, which is NULL exactly if its allocation failed. */
  predicate Entered(s: Snapshot, s': Snapshot) {
    && |s'.zones| > 0 && s'.zones[1..] == s.zones && s'.lists == [[]] + s.lists
    && if s'.zones[0] == NULL then s'.blocks == s.blocks && s'.failures > s.failures
       else
         && s'.zones[0] !in s.blocks
         && s'.blocks == s.blocks[s'.zones[0] := ZoneHead(NULL)]
         && s'.failures == s.failures
  }

  /** One more payload in the innermost zone, or nothing if the zone is NULL or an allocation
      failed. */
  predicate Allocated(s: Snapshot, s': Snapshot) {
    && s.zones != [] && s'.zones == s.zones && |s.lists| == |s.zones|
    && if s.zones[0] == NULL then s' == s
       else if s'.failures != s.failures then s'.failures > s.failures && s' == s.(failures := s'.failures)
       else
         && |s'.lists| == |s.lists| && |s'.lists[0]| > 0 && s'.lists == [[s'.lists[0][0]] + s.lists[0]] + s.lists[1..]
         && var node, payload := s'.lists[0][0], PayloadOf(s'.blocks, s'.lists[0][0]);
            Links(s.blocks, s.zones[0], node, payload, SizeOf(s'.blocks, payload), s'.blocks)
  }

  /** The innermost zone is gone with its nodes and payloads. */
  predicate Released(s: Snapshot, s': Snapshot) {
    && s.zones != [] && |s.lists| == |s.zones|
    && s' == Snapshot(if s.zones[0] == NULL then s.blocks else Others(s.blocks, s.zones[0], s.lists[0]),
                      s.failures, s.zones[1..], s.lists[1..])
  }

  /** What one event does to memory; only zone events concern the zones. */
  predicate Effect(s: Snapshot, e: Event, s': Snapshot) {
    if e.action.AZoneEnter? then Entered(s, s')
    else if e.action.AZoneAlloc? then Allocated(s, s')
    else if e.action.ACall? && e.action.target == ZONE_RELEASE then Released(s, s')
    else s' == s
  }

  /** How often each open zone was allocated in, innermost first. */
  function Allocations(tr: Trace): seq<nat> {
    if tr == [] then []
    else
      var counts, e := Allocations(tr[..|tr| - 1]), tr[|tr| - 1];
      if e.action.AZoneEnter? then [0] + counts
      else if counts == [] then []
      else if e.action.AZoneAlloc? then [counts[0] + 1] + counts[1..]
      else if e.action.ACall? && e.action.target == ZONE_RELEASE then counts[1..]
      else counts
  }

  /** Every open zone holds exactly the payloads allocated in it. */
  predicate Holds(s: Snapshot, tr: Trace) {
    && |s.zones| == |s.lists| == |Allocations(tr)|
    && forall k :: 0 <= k < |s.zones| ==> s.zones[k] != NULL && |s.lists[k]| == Allocations(tr)[k]
  }

  lemma {:induction false} HoldsNext(s: Snapshot, tr: Trace, e: Event, s': Snapshot)
    requires Holds(s, tr) && Effect(s, e, s') && s'.failures == s.failures
    ensures Holds(s', tr + [e])
  {
    hide Links, Others;
    assert (tr + [e])[..|tr|] == tr;
    var counts := Allocations(tr);
    if e.action.AZoneEnter? {
      assert Allocations(tr + [e]) == [0] + counts;
      assert forall k :: 0 < k < |s'.zones| ==> s'.zones[k] == s.zones[k - 1];
    }
  }

  /** Performs one event. */
  method Perform(m: Memory, e: Event, ghost base: Blocks, ghost open: seq<Value>, zones: seq<Ptr>,
      ghost lists: seq<seq<Ptr>>)
    returns (zones': seq<Ptr>, ghost lists': seq<seq<Ptr>>)
    requires m.Valid() && |open| == |zones| == |lists| && Stacked(m.blocks, base, zones, lists)
    requires Advance(open, e).Some?
    modifies m
    ensures m.Valid() && |Advance(open, e).value| == |zones'| == |lists'| && Stacked(m.blocks, base, zones', lists')
    ensures Effect(Snapshot(old(m.blocks), old(m.failures), zones, lists), e,
        Snapshot(m.blocks, m.failures, zones', lists'))
  {
    hide IsZone, Others;
    zones', lists' := zones, lists;
    if e.action.AZoneEnter? {
      var z := ZoneEnter(m);
      zones', lists' := [z] + zones, [[]] + lists;
      assert zones'[1..] == zones && lists'[1..] == lists;
    } else if e.action.AZoneAlloc? {
      var size: nat := *;
      var p, ns := ZoneAlloc(m, zones[0], size, lists[0]);
      if p != NULL {
        lists' := [ns] + lists[1..];
        assert lists'[1..] == lists[1..];
        assert lists' == [[lists'[0][0]] + lists[0]] + lists[1..];
      }
    } else if e.action.ACall? && e.action.target == ZONE_RELEASE {
      ZoneRelease(m, zones[0], lists[0]);
      zones', lists' := zones[1..], lists[1..];
    }
  }

  /** The zone events of a trace that nests so far: each has its effect on memory, and without
      a failed allocation the open zones hold exactly the payloads allocated in them. Once every
      zone is closed, memory is as it was, whatever allocations failed. */
  method Replay(m: Memory, tr: Trace) returns (zones: seq<Ptr>, ghost states: seq<Snapshot>)
    requires m.Valid() && OpenAfter(tr).Some?
    modifies m
    ensures m.Valid() && |states| == |tr| + 1
    ensures states[0] == Snapshot(old(m.blocks), old(m.failures), [], [])
    ensures states[|tr|].blocks == m.blocks && states[|tr|].failures == m.failures && states[|tr|].zones == zones
    ensures forall i, j :: 0 <= i < |tr| && j == i + 1 ==> Effect(states[i], tr[i], states[j])
    ensures |zones| == |OpenAfter(tr).value| == |states[|tr|].lists|
    ensures Stacked(m.blocks, old(m.blocks), zones, states[|tr|].lists)
    ensures m.failures == old(m.failures) ==> Holds(states[|tr|], tr)
    ensures OpenAfter(tr) == Some([]) ==> m.blocks == old(m.blocks)
  {
    hide IsZone, Others, OpenAfter, Advance, Effect, Holds;
    ghost var base := m.blocks;
    zones := [];
    ghost var lists: seq<seq<Ptr>> := [];
    states := [Snapshot(m.blocks, m.failures, [], [])];
    OpenNothing(tr);
    for i := 0 to |tr|
      invariant m.Valid() && OpenAfter(tr[..i]).Some? && |OpenAfter(tr[..i]).value| == |zones| == |lists|
      invariant Stacked(m.blocks, base, zones, lists)
      invariant |states| == i + 1 && states[0] == Snapshot(old(m.blocks), old(m.failures), [], [])
      invariant states[i] == Snapshot(m.blocks, m.failures, zones, lists)
      invariant forall j, k :: 0 <= j < i && k == j + 1 ==> Effect(states[j], tr[j], states[k])
      invariant m.failures >= old(m.failures) && (m.failures == old(m.failures) ==> Holds(states[i], tr[..i]))
    {
      NextOpen(tr, i);
      zones, lists := Perform(m, tr[i], base, OpenAfter(tr[..i]).value, zones, lists);
      ghost var s' := Snapshot(m.blocks, m.failures, zones, lists);
      FailuresGrow(states[i], tr[i], s');
      if m.failures == old(m.failures) {
        HoldsNext(states[i], tr[..i], tr[i], s');
        assert tr[..i] + [tr[i]] == tr[..i + 1];
      }
      states := states + [s'];
    }
    assert tr[..|tr|] == tr;
  }

  lemma FailuresGrow(s: Snapshot, e: Event, s': Snapshot)
    requires Effect(s, e, s')
    ensures s'.failures >= s.failures
  {
    hide Links, Others;
  }

  lemma OpenNothing(tr: Trace)
    ensures OpenAfter(tr[..0]) == Some([])
    ensures forall s: Snapshot :: s.zones == [] && s.lists == [] ==> Holds(s, tr[..0])
  {
  }
}
