/** `mempool`: a bump allocator with a linked free list threaded through the freed nodes. */
module MemPool {
  import opened Types

  /** The free list in memory: each free node's first word holds the next one. */
  ghost predicate IsList(link: map<Ptr, Ptr>, head: Ptr, list: seq<Ptr>)
    decreases |list|
  {
    if list == [] then head == NULL
    else head == list[0] && head != NULL && head in link && IsList(link, link[head], list[1..])
  }

  lemma {:induction false} ListFrame(link: map<Ptr, Ptr>, link': map<Ptr, Ptr>, head: Ptr, list: seq<Ptr>)
    requires IsList(link, head, list) && forall p :: p in list ==> p in link && p in link' && link'[p] == link[p]
    ensures IsList(link', head, list)
    decreases |list|
  {
    if list != [] { ListFrame(link, link', link[head], list[1..]); }
  }

  lemma {:induction false} ListLinked(link: map<Ptr, Ptr>, head: Ptr, list: seq<Ptr>)
    requires IsList(link, head, list)
    ensures forall p :: p in list ==> p in link
    decreases |list|
  {
    if list != [] { ListLinked(link, link[head], list[1..]); }
  }

  /** The `i`-th of the nodes that lie one after the other from `p`. */
  function NodeAt(p: Ptr, i: nat, size: nat): Ptr { p + i * size }

  function Nodes(p: Ptr, n: nat, size: nat): set<Ptr> { set i | 0 <= i < n :: NodeAt(p, i, size) }

  /** How many nodes fit into `room` bytes. */
  function FitIn(room: nat, size: nat): nat
    requires size > 0
  {
    if room < size then 0 else 1 + FitIn(room - size, size)
  }

  lemma {:induction false} FitInIs(room: nat, size: nat)
    requires size > 0
    ensures FitIn(room, size) * size <= room < (FitIn(room, size) + 1) * size
  {
    if room >= size { FitInIs(room - size, size); }
  }

  /** `n` nodes from `cur` on end before `end`. */
  predicate Enough(cur: Ptr, n: nat, size: nat, end: Ptr) { cur + n * size <= end }

  /** `cur` is `n` nodes past `cur0`. */
  predicate Moved(cur0: Ptr, n: nat, size: nat, cur: Ptr) { cur == cur0 + n * size }

  lemma {:induction false} MoveOn(cur0: Ptr, a: nat, b: nat, size: nat, cur: Ptr, end: Ptr)
    requires Moved(cur0, a, size, cur)
    ensures Moved(cur0, a + b, size, cur + b * size) && (Enough(cur, b, size, end) <==> Enough(cur0, a + b, size, end))
  {
    assert (a + b) * size == a * size + b * size;
  }

  lemma {:induction false} NotMoved(cur: Ptr, size: nat)
    ensures Moved(cur, 0, size, cur)
  {
  }

  lemma {:induction false} EnoughFewer(cur: Ptr, a: nat, b: nat, size: nat, end: Ptr)
    requires a <= b && Enough(cur, b, size, end)
    ensures Enough(cur, a, size, end)
  {
    assert b * size == a * size + (b - a) * size;
    assert (b - a) * size >= 0;
  }

  /** `b` lies beyond the node at `a`, or the other way round. */
  predicate Apart(a: Ptr, b: Ptr, size: nat) { a + size <= b || b + size <= a }

  class Mempool {
    const size: nat
    const base: Ptr
    var cur: Ptr
    var end: Ptr
    var freeNode: Ptr
    /** `*((char **)p)` of the nodes on the free list */
    var link: map<Ptr, Ptr>
    ghost var free: seq<Ptr>
    ghost var used: set<Ptr>

    ghost predicate Valid()
      reads this
    {
      && size > 0 && 0 < base <= cur <= end && IsList(link, freeNode, free)
      && (forall p :: p in free || p in used ==> base <= p && p + size <= cur)
      && (forall p :: p in free ==> p !in used)
      && (forall i, j :: 0 <= i < j < |free| ==> free[i] != free[j])
      && (forall p, q :: (p in free || p in used) && (q in free || q in used) && p != q ==> Apart(p, q, size))
    }

    /** How many nodes the pool can still give, one at a time: those on the free list, and those that fit before its end. */
    ghost function Left(): nat
      reads this
    {
      |free| + if size > 0 && cur <= end then FitIn(end - cur, size) else 0
    }

    /** `init` */
    constructor (start: Ptr, bytes: nat, nodeSize: nat)
      requires start > 0 && nodeSize > 0
      ensures Valid() && free == [] && used == {} && base == cur == start && end == start + bytes && size == nodeSize
    {
      base, size, cur, end, freeNode, link := start, nodeSize, start, start + bytes, NULL, map[];
      free, used := [], {};
    }

    /** `alloc_node`: None is the exit with "run out of memory" */
    method AllocNode() returns (r: Option<Ptr>)
      requires Valid()
      modifies this
      ensures Valid() && end == old(end)
      ensures r == None <==> old(free) == [] && old(cur) + size > end
      ensures (r == None <==> old(Left()) == 0) && Left() == old(Left()) - if r.Some? then 1 else 0
      ensures r == None ==> used == old(used) && free == old(free) && cur == old(cur)
      ensures r.Some? ==> r.value != NULL && r.value !in old(used) && used == old(used) + {r.value}
      ensures r.Some? ==> forall p :: p in old(used) ==> Apart(p, r.value, size)
      ensures r.Some? && old(free) != [] ==> r.value == old(free)[0] && free == old(free)[1..] && cur == old(cur)
      ensures r.Some? && old(free) == [] ==> r.value == old(cur) && free == [] && cur == old(cur) + size
    {
      if freeNode != NULL {
        ghost var was := free;
        assert was[0] == freeNode && was[0] in was && forall q :: q in was[1..] ==> q in was;
        var p := freeNode;
        freeNode := link[p];
        free := free[1..];
        used := used + {p};
        return Some(p);
      } else if cur + size <= end {
        var p := cur;
        cur := cur + size;
        used := used + {p};
        return Some(p);
      } else {
        return None;
      }
    }

    /** `alloc`: `n` consecutive nodes from the end of the pool */
    method Alloc(n: nat) returns (r: Option<Ptr>)
      requires Valid() && n > 0
      modifies this
      ensures Valid() && end == old(end) && free == old(free)
      ensures r == None <==> old(cur) + n * size > end
      ensures (r.Some? <==> Enough(old(cur), n, size, end)) && (r.Some? ==> Moved(old(cur), n, size, cur))
      ensures r == None ==> used == old(used) && cur == old(cur)
      ensures r.Some? ==> r.value == old(cur) && r.value != NULL && cur == old(cur) + n * size
      ensures forall i :: 0 <= i < n ==> NodeAt(old(cur), i, size) == old(cur) + i * size
      ensures r.Some? ==> used == old(used) + Nodes(r.value, n, size) && Nodes(r.value, n, size) !! old(used)
    {
      Spaced(cur, n, size);
      NodeAtIs(cur, n, size);
      hide NodeAt;
      if NodeAt(cur, n, size) <= end {
        var p := cur;
        cur := NodeAt(cur, n, size);
        used := used + Nodes(p, n, size);
        return Some(p);
      } else {
        return None;
      }
    }

    /** `free_node` */
    method FreeNode(p: Ptr)
      requires Valid() && p in used
      modifies this
      ensures Valid() && free == [p] + old(free) && used == old(used) - {p} && cur == old(cur) && end == old(end)
      ensures Left() == old(Left()) + 1
    {
      ListLinked(link, freeNode, free);
      ListFrame(link, link[p := freeNode], freeNode, free);
      link := link[p := freeNode];
      freeNode := p;
      free := [p] + free;
      used := used - {p};
      assert free[1..] == old(free);
    }
  }

  lemma {:induction false} Spaced(p: Ptr, n: nat, size: nat)
    requires size > 0
    ensures forall i :: 0 <= i < n ==> p <= NodeAt(p, i, size) && NodeAt(p, i, size) + size <= NodeAt(p, n, size)
    ensures forall i, j :: 0 <= i < n && 0 <= j < n && i != j ==> Apart(NodeAt(p, i, size), NodeAt(p, j, size), size)
    ensures p <= NodeAt(p, n, size)
  {
    forall i | 0 <= i < n ensures NodeAt(p, i, size) + size <= NodeAt(p, n, size) { Before(p, i, n, size); }
    forall i, j | 0 <= i < n && 0 <= j < n && i != j ensures Apart(NodeAt(p, i, size), NodeAt(p, j, size), size) {
      if i < j { Before(p, i, j, size); } else { Before(p, j, i, size); }
    }
  }

  /** One after the other. */
  lemma {:induction false} NodeAtIs(p: Ptr, n: nat, size: nat)
    ensures forall i :: 0 <= i <= n ==> NodeAt(p, i, size) == p + i * size
    ensures NodeAt(p, 0, size) == p && forall i :: 0 <= i < n ==> NodeAt(p, i + 1, size) == NodeAt(p, i, size) + size
  {
    forall i | 0 <= i < n ensures NodeAt(p, i + 1, size) == NodeAt(p, i, size) + size { assert (i + 1) * size == i * size + size; }
  }

  lemma {:induction false} Before(p: Ptr, i: nat, j: nat, size: nat)
    requires i < j
    ensures NodeAt(p, i, size) + size <= NodeAt(p, j, size)
  {
    assert (i + 1) * size <= j * size;
  }
}
