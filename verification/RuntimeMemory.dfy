/** The heap the emitted runtime works on: blocks at addresses, a malloc that may fail at any
    point and a free that takes only what is live. */
module RuntimeMemory {
  type Ptr = int

  const NULL: Ptr := 0

  datatype Block =
    | Text(s: string)
    | Slots(items: seq<Ptr>)
    | Lines(data: Ptr, length: nat, capacity: nat)
    | ZoneHead(head: Ptr)
    | ZoneNode(next: Ptr, payload: Ptr)
    | Payload(size: nat)
    | StrNode(value: Ptr, next: Ptr)

  type Blocks = map<Ptr, Block>

  function SetOf(ps: seq<Ptr>): set<Ptr> { set p | p in ps }

  class Memory {
    var blocks: Blocks
    /** How many allocations failed. */
    var failures: nat

    predicate Valid()
      reads this
    {
      NULL !in blocks
    }

    constructor ()
      ensures Valid() && blocks == map[] && failures == 0
    {
      blocks, failures := map[], 0;
    }

    /** Any address not in use, or none. */
    method Malloc(b: Block) returns (p: Ptr)
      requires Valid()
      modifies this
      ensures Valid()
      ensures p == NULL ==> blocks == old(blocks) && failures == old(failures) + 1
      ensures p != NULL ==> p !in old(blocks) && blocks == old(blocks)[p := b] && failures == old(failures)
    {
      p := *;
      if p == NULL || p in blocks {
        failures := failures + 1;
        return NULL;
      }
      blocks := blocks[p := b];
    }

    method Free(p: Ptr)
      requires Valid() && p in blocks
      modifies this`blocks
      ensures Valid() && blocks == old(blocks) - {p}
    {
      blocks := blocks - {p};
    }

    method Store(p: Ptr, b: Block)
      requires Valid() && p in blocks
      modifies this`blocks
      ensures Valid() && blocks == old(blocks)[p := b]
    {
      blocks := blocks[p := b];
    }

    /** Moves an array of slots, keeping what it holds; the slots gained hold anything. */
    method Realloc(p: Ptr, count: nat) returns (q: Ptr)
      requires Valid() && (p != NULL ==> p in blocks && blocks[p].Slots? && |blocks[p].items| <= count)
      modifies this
      ensures Valid()
      ensures q == NULL ==> blocks == old(blocks) && failures == old(failures) + 1
      ensures q != NULL ==>
        && (q == p || q !in old(blocks)) && q in blocks && blocks[q].Slots? && |blocks[q].items| == count
        && blocks - {q} == old(blocks) - {p} && failures == old(failures)
        && (p != NULL ==> old(blocks)[p].items <= blocks[q].items)
    {
      q := *;
      if q == NULL || (q in blocks && q != p) {
        failures := failures + 1;
        return NULL;
      }
      var held := if p == NULL then [] else blocks[p].items;
      var junk: seq<Ptr> := *;
      if |junk| != count - |held| {
        junk := seq(count - |held|, i => NULL);
      }
      blocks := (blocks - {p})[q := Slots(held + junk)];
    }
  }
}
