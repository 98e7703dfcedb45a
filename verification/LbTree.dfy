/** The LB+-tree: `lookup`, `insert` and `del` over DRAM inner nodes and NVM leaves. */
module LbTree {
  import opened Types
  import opened LeafNode
  import opened Nvm
  import opened LeafOps
  import opened MemPool
  import opened Levels
  import opened TreeSteps
  import opened InnerNode
  import opened Pending
  import opened LeafLevel
  import opened Recovery
  import opened TreeView
  import opened MemoryRun
  import opened TreeState
  import opened InsertSteps
  import opened DeleteSteps
  import opened LeafRemoval
  import TreeCheck
  import CheckMeaning

  /** `OutOfMemory` is the exit with "run out of memory". */
  datatype Outcome = Done | OutOfMemory

  /** Put-if-absent. */
  function Added(C: set<IdxEntry>, e: IdxEntry): set<IdxEntry> {
    if HasKey(C, e.k) then C else C + {e}
  }

  /** The entries with the key removed. */
  function Without(C: set<IdxEntry>, key: Key): set<IdxEntry> {
    set e | e in C && e.k != key
  }

  /** The entry of a leaf with one valid slot is the whole leaf. */
  lemma {:induction false} OnlyEntry(x: Leaf, key: Key)
    requires LeafOk(x) && HasKey(Entries(x), key)
    ensures CountBits(x.m.bitmap) <= 1 <==> Without(Entries(x), key) == {}
  {
    var e :| e in Entries(x) && e.k == key;
    var i :| 0 <= i < LEAF_KEY_NUM && x.m.bitmap[i] && x.ent[i] == e;
    CountEntries(x, i);
    if CountBits(x.m.bitmap) > 1 {
      var j :| 0 <= j < LEAF_KEY_NUM && j != i && x.m.bitmap[j];
      assert x.ent[j].k != key;
      assert x.ent[j] in Without(Entries(x), key);
    }
  }

  class LBTree {
    var rootLevel: nat
    var treeRoot: Ptr
    var inner: map<Ptr, Inner>
    var nvm: State
    ghost var trace: seq<State>
    const mempool: Mempool
    const nvmpool: Mempool

    /** `treeMeta`: no root yet, and a persistent null `first_leaf`. The tree becomes valid with its first bulkload. */
    constructor (mempool: Mempool, nvmpool: Mempool)
      ensures this.mempool == mempool && this.nvmpool == nvmpool
      ensures rootLevel == 0 && treeRoot == NULL && inner == map[] && nvm == State(map[], [NULL], 0, 0)
    {
      this.mempool, this.nvmpool := mempool, nvmpool;
      rootLevel, treeRoot, inner := 0, NULL, map[];
      nvm := State(map[], [NULL], 0, 0);
      trace := [];
    }

    ghost function Graph(): Levels.Graph
      reads this
    {
      GraphOf(inner)
    }

    ghost function Chain(): seq<IdxEntry>
      reads this
    {
      LeafList(inner, treeRoot, rootLevel)
    }

    ghost function Leaves(): seq<Leaf>
      reads this
    {
      View(nvm.cells, Chain())
    }

    /** The abstract map: the entries of all leaves. */
    ghost function Contents(): set<IdxEntry>
      reads this
    {
      Union(Leaves())
    }

    ghost predicate Pools()
      reads this, mempool, nvmpool
    {
      && mempool != nvmpool && mempool.Valid() && nvmpool.Valid() && mempool.used == inner.Keys
      && (mempool.end <= nvmpool.base || nvmpool.end <= mempool.base)
    }

    ghost predicate Valid()
      reads this, mempool, nvmpool
    {
      && Pools() && Struct(rootLevel, treeRoot, inner, nvm, nvmpool.used)
      && LocksAre(inner, {}) && Unlocked(Leaves())
    }

    /** The nodes a search for the key goes through, from the leaf up. */
    ghost function Way(key: Key): (w: seq<Ptr>)
      reads this
      ensures |w| == rootLevel + 1 && w[rootLevel] == treeRoot
    {
      TreeState.Way(inner, treeRoot, rootLevel, key)
    }

    /** The leaf the key belongs to. */
    ghost function LeafFor(key: Key): Leaf
      reads this
    {
      NowAt(nvm.cells, Way(key)[0])
    }

    /** The key is new and its leaf is full. */
    ghost predicate Overflows(key: Key)
      reads this
    {
      !HasKey(Contents(), key) && IsFull(LeafFor(key))
    }

    /** The inner nodes that the split of the key's leaf takes: one for each node of the way that is full up to the first that is not, and one more if there is none. */
    ghost function Needed(key: Key): (n: nat)
      reads this
      ensures n <= rootLevel + 1
    {
      var k := FirstRoom(inner, Way(key), rootLevel, 1);
      FirstRoomRange(inner, Way(key), rootLevel, 1);
      Splits(rootLevel, k)
    }

    /** The key is there, alone in a leaf that is not the root. */
    ghost predicate LastKey(key: Key)
      reads this
    {
      rootLevel > 0 && HasKey(EntriesOf(LeafFor(key)), key) && Without(EntriesOf(LeafFor(key)), key) == {}
    }

    /** The volatile contents are what every crash image shows. */
    ghost predicate Durable()
      reads this
    {
      Recovery.Durable(nvm, Chain(), Leaves())
    }

    /** Steps 1 and 2 of every operation: from the root to the leaf whose range holds `key`. */
    method FindLeaf(key: Key) returns (parray: seq<Ptr>, ppos: seq<nat>, isfull: seq<bool>, ghost ctxs: seq<Ctx>)
      requires Struct(rootLevel, treeRoot, inner, nvm, nvmpool.used)
      ensures CtxPath(Graph(), Top(treeRoot), rootLevel, 0, key, parray, ppos, ctxs)
      ensures FullAbove(inner, rootLevel, 0, parray, isfull)
    {
      hide Tree, LeavesOk, Position, Kids, Struct, LeafList, View;
      var h := rootLevel;
      ghost var g := GraphOf(inner);
      StructTree(rootLevel, treeRoot, inner, nvm, nvmpool.used);
      var p := treeRoot;
      parray, ppos, isfull := seq(h + 1, _ => p), seq(h + 1, _ => 0), seq(h + 1, _ => false);
      ctxs := seq(h + 1, _ => Ctx([], IdxEntry(0, p), []));
      var i: nat := h;
      assert Ctx([], IdxEntry(0, p), []).All() == Top(treeRoot);
      while i > 0
        invariant i <= h && FullAbove(inner, h, i, parray, isfull) && p == parray[i]
        invariant CtxPath(g, Top(treeRoot), h, i, key, parray, ppos, ctxs)
        decreases i
      {
        NodeOnPath(g, nvmpool.used, Top(treeRoot), h, i, key, parray, ppos, ctxs);
        isfull := isfull[i := inner[p].num == NON_LEAF_KEY_NUM];
        var c := Search(inner[p], key);
        ExtendPath(g, nvmpool.used, Top(treeRoot), h, i, key, parray, ppos, ctxs, c);
        ppos := ppos[i := c];
        ctxs := ctxs[i - 1 := Down(g, ctxs[i], c)];
        p := inner[p].ent[c].ch;
        parray := parray[i - 1 := p];
        i := i - 1;
      }
    }

    /** Part 1 of every operation: the leaf for `key`, and the slot that holds it if there is one. */
    method Locate(key: Key) returns (parray: seq<Ptr>, ppos: seq<nat>, isfull: seq<bool>, pos: int, ghost ctxs: seq<Ctx>)
      requires Struct(rootLevel, treeRoot, inner, nvm, nvmpool.used)
      ensures CtxPath(Graph(), Top(treeRoot), rootLevel, 0, key, parray, ppos, ctxs) && FullAbove(inner, rootLevel, 0, parray, isfull)
      ensures Reached(nvm, Chain(), ctxs[0], parray[0], key) && -1 <= pos < LEAF_KEY_NUM
      ensures pos == -1 <==> !HasKey(Contents(), key)
      ensures pos >= 0 ==> HoldsAt(Leaves()[|ctxs[0].A|], pos, key)
    {
      parray, ppos, isfull, ctxs := FindLeaf(key);
      AtLeaf(rootLevel, treeRoot, inner, nvm, nvmpool.used, key, parray, ppos, ctxs);
      hide Struct, CtxPath, FullAbove, View, Union, LeafOk, Covers, LeafList;
      pos := SearchLeaf(nvm.cells[parray[0]].Now(), key);
    }

    /** `lookup`: the leaf and the slot of the key, or slot -1 exactly if no leaf holds it. */
    method Lookup(key: Key) returns (lp: Ptr, pos: int)
      requires Valid()
      ensures lp in nvm.cells && |nvm.cells[lp].h| > 0 && -1 <= pos < LEAF_KEY_NUM
      ensures pos == -1 <==> !HasKey(Contents(), key)
      ensures pos >= 0 ==> HoldsAt(nvm.cells[lp].Now(), pos, key) && nvm.cells[lp].Now().ent[pos] in Contents()
      ensures lp == Way(key)[0]
    {
      var parray, ppos, isfull;
      ghost var ctxs;
      parray, ppos, isfull, pos, ctxs := Locate(key);
      WayIs(inner, nvmpool.used, rootLevel, treeRoot, key, parray, ppos, ctxs);
      lp := parray[0];
      UnionHas(Leaves(), |ctxs[0].A|);
    }

    /** Leaf `lp` now is `k`, having gone through `tr`. */
    method StoreLeaf(lp: Ptr, k: Cell, ghost tr: seq<Cell>, ghost x: Ctx, ghost safe: bool)
      requires Struct(rootLevel, treeRoot, inner, nvm, nvmpool.used) && x.All() == Chain() && x.e.ch == lp
      requires k.Shape() && k.wb == k.low && |x.A| < |Leaves()|
      requires var Y' := Leaves()[|x.A| := k.Now()]; Fits(Chain(), Y') && Linked(Chain(), Y') && (rootLevel > 0 ==> EntriesOf(k.Now()) != {})
      requires safe ==> Durable() && Quiet(k) && AllShow(tr, Leaves()[|x.A|], k.Now())
      requires lp in nvm.cells && Steps(nvm.cells[lp], tr, k)
      modifies `nvm, `trace
      ensures Struct(rootLevel, treeRoot, inner, nvm, nvmpool.used) && Leaves() == old(Leaves())[|x.A| := k.Now()]
      ensures nvm == Put(old(nvm), lp, k) && Ran(old(trace), trace, old(nvm), nvm)
      ensures safe ==> Durable() && Tail(old(trace), trace, old(Contents()), Contents())
    {
      ChainOrdered(rootLevel, treeRoot, inner, nvm, nvmpool.used);
      hide Fits, Linked, Tree, LeafList, Quiet, AllShow, Recovery.Durable, Steps, Run, Lift;
      LeafStep(nvm, x, rootLevel, k, tr, safe);
      ghost var more := Lift(nvm, lp, tr);
      LiftRun(nvm, lp, tr, k);
      nvm := Put(nvm, lp, k);
      trace := trace + more;
      assert trace[|old(trace)|..] == more;
    }

    /** `lp->lock = b` */
    method LockLeaf(lp: Ptr, b: bool, ghost x: Ctx, ghost safe: bool)
      requires Struct(rootLevel, treeRoot, inner, nvm, nvmpool.used) && x.All() == Chain() && x.e.ch == lp
      requires safe ==> Durable()
      modifies `nvm, `trace
      ensures Struct(rootLevel, treeRoot, inner, nvm, nvmpool.used)
      ensures |x.A| < |old(Leaves())| && Leaves() == old(Leaves())[|x.A| := Relocked(old(Leaves())[|x.A|], b)]
      ensures Contents() == old(Contents()) && Ran(old(trace), trace, old(nvm), nvm)
      ensures safe ==> Durable() && Tail(old(trace), trace, Contents(), Contents())
    {
      hide Run, Steps, Event, Ran;
      ghost var Y := Leaves();
      LeafHere(rootLevel, treeRoot, inner, nvm, nvmpool.used, x, safe);
      var k := SetLock(nvm.cells[lp], b, safe);
      RelockFits(Chain(), Y, |x.A|, b);
      RelockShows(k, Y[|x.A|], b, safe);
      OneStep(nvm.cells[lp], k);
      hide Struct, Fits, Linked, LeafOk, Quiet, AllShow, Tail, View, Union, LeafList, Recovery.Durable, Relocked, EntriesOf;
      StoreLeaf(lp, k, [k], x, safe);
    }

    // -------------------------------------------------------------- insert

    /** Step 1 of Part 2: the leaf `lp` has room. The header store that adds the entry also unlocks the leaf. */
    method PutEntry(lp: Ptr, e: IdxEntry, ghost x: Ctx, ghost safe: bool)
      requires Struct(rootLevel, treeRoot, inner, nvm, nvmpool.used) && LockedLeaf(nvm, Chain(), x, lp, e, false)
      requires safe ==> Durable()
      modifies `nvm, `trace
      ensures Struct(rootLevel, treeRoot, inner, nvm, nvmpool.used) && Unlocked(Leaves())
      ensures Contents() == old(Contents()) + {e} && Ran(old(trace), trace, old(nvm), nvm)
      ensures safe ==> Durable() && Tail(old(trace), trace, old(Contents()), Contents())
    {
      ghost var Y := Leaves();
      LeafHere(rootLevel, treeRoot, inner, nvm, nvmpool.used, x, safe);
      KeyThere(x, Y, e.k);
      hide Struct, Fits, Linked, Quiet, CellSafe, AllShow, Tail, View, Union, LeafList, Recovery.Durable, Placed, HasKey, Covers, Ran, Steps;
      var meta := nvm.cells[lp].Now().m.(lock := false);
      ghost var tr;
      var k;
      k, tr := InsertSlot(nvm.cells[lp], meta, e, safe);
      InsertThere(x, Y, k.Now(), e);
      if safe { AllSafeShow(tr, Y[|x.A|], k.Now()); }
      hide LeafOk, AllSafe, Entries;
      StoreLeaf(lp, k, tr, x, safe);
      UnlockedNow(Y, |x.A|, k.Now());
    }

    /** Step 2 of Part 2: the full leaf `lp` splits. Under a parent it is unlocked by its last header store; a root leaf stays locked. */
    method SplitAtLeaf(lp: Ptr, newp: Ptr, e: IdxEntry, ghost x: Ctx, ghost leaves: set<Ptr>, ghost safe: bool) returns (splitKey: Key)
      requires Struct(rootLevel, treeRoot, inner, nvm, leaves) && LockedLeaf(nvm, Chain(), x, lp, e, true) && newp !in leaves && newp != NULL
      requires safe ==> Durable()
      modifies `nvm, `trace
      ensures x.e.k < splitKey && Below(splitKey, x.B) && Ran(old(trace), trace, old(nvm), nvm)
      ensures var L := After(x, IdxEntry(splitKey, newp));
        && SplitLevel(nvm, L, rootLevel, |x.A|, old(Contents()) + {e})
        && (safe ==> Recovery.Durable(nvm, L, View(nvm.cells, L)) && Tail(old(trace), trace, old(Contents()), old(Contents()) + {e}))
    {
      hide Struct, Fits, Linked, Quiet, Tail, View, Union, LeafList, Recovery.Durable, HasKey, Covers, LeavesOk,
        LeafOk, IsFull, Entries, After, NoDup, Ascending, SplitLevel, UnlockedBut, Ran, Run;
      ghost var Y, C, more, s := Leaves(), Contents(), [], nvm;
      LeafHere(rootLevel, treeRoot, inner, nvm, leaves, x, safe);
      LeafFacts(rootLevel, treeRoot, inner, nvm, leaves, x, newp);
      nvm, splitKey, more := SplitState(nvm, rootLevel, lp, newp, e, x, safe);
      if safe { TailIs(trace, more, C, C + {e}); }
      RanIs(trace, more, s, nvm);
      trace := trace + more;
    }

    /** The last step of Part 1: lock the ancestors from level 1 up to the first that is not full. */
    method LockPath(parray: seq<Ptr>, isfull: seq<bool>) returns (top: nat)
      requires FullAbove(inner, rootLevel, 0, parray, isfull) && LocksAre(inner, {}) && NodesOk(inner)
      modifies `inner
      ensures OnlyLocks(old(inner), inner) && PathLocked(inner, rootLevel, parray, top)
    {
      top := 0;
      for i := 1 to rootLevel + 1
        invariant top == i - 1 && OnlyLocks(old(inner), inner) && LocksAre(inner, PathSet(parray, 1, top))
        invariant forall j :: 1 <= j < i ==> isfull[j]
      {
        var p := parray[i];
        inner := inner[p := inner[p].(lock := true)];
        assert PathSet(parray, 1, i) == PathSet(parray, 1, top) + {p};
        top := i;
        if !isfull[i] { break; }
      }
      FullMarked(old(inner), inner, rootLevel, parray, isfull, top);
    }

    /** `mempool_alloc_node(NONLEAF_SIZE)`: the node's memory holds anything. */
    method AllocInner() returns (r: Option<Ptr>, raw: RawInner)
      requires Pools()
      modifies mempool
      ensures mempool.Valid() && mempool.used == old(mempool.used) + if r.Some? then {r.value} else {}
      ensures mempool.end == old(mempool.end)
      ensures (r == None <==> old(mempool.Left()) == 0) && mempool.Left() == old(mempool.Left()) - if r.Some? then 1 else 0
      ensures r.Some? ==> r.value !in inner && r.value !in nvmpool.used && r.value != NULL
    {
      hide Mempool.Left;
      r := mempool.AllocNode();
      raw := *;
    }

    /** `nvmpool_alloc_node(LEAF_SIZE)` */
    method AllocLeaf() returns (r: Option<Ptr>)
      requires Pools()
      modifies nvmpool
      ensures Pools() && nvmpool.used == old(nvmpool.used) + if r.Some? then {r.value} else {}
      ensures (r == None <==> old(nvmpool.Left()) == 0) && nvmpool.Left() == old(nvmpool.Left()) - if r.Some? then 1 else 0
      ensures r.Some? ==> r.value !in inner && r.value !in old(nvmpool.used) && r.value != NULL
    {
      hide Mempool.Left;
      r := nvmpool.AllocNode();
    }

    /** One round of Part 3: at level `lev`, put the pair in and be done, or split the node and go on with its right half. */
    method UpStep(lev: nat, parray: seq<Ptr>, ppos: seq<nat>, n: IdxEntry, ghost L: seq<IdxEntry>, ghost top: nat)
      returns (r: Outcome, done: bool, up: IdxEntry)
      requires Pools() && Climbing(rootLevel, treeRoot, inner, nvmpool.used, L, lev, parray, ppos, n) && lev <= rootLevel
      requires lev <= top && LocksAre(inner, PathSet(parray, lev, top)) && FullUpTo(inner, rootLevel, parray, lev, top)
      requires parray[rootLevel] == treeRoot
      modifies `inner, mempool
      ensures r == Done ==> Pools()
      ensures r == Done && done ==> Whole(rootLevel, treeRoot, inner, nvmpool.used, L) && LocksAre(inner, {})
      ensures r == Done && !done ==> Climbing(rootLevel, treeRoot, inner, nvmpool.used, L, lev + 1, parray, ppos, up)
      ensures r == Done && !done && lev < rootLevel ==>
        lev < top && LocksAre(inner, PathSet(parray, lev + 1, top)) && FullUpTo(inner, rootLevel, parray, lev + 1, top)
      ensures r == Done && !done && lev == rootLevel ==> LocksAre(inner, {treeRoot}) && treeRoot in inner
      ensures r == OutOfMemory <==> old(FullAt(inner, parray, lev)) && old(mempool.Left()) == 0
      ensures r == Done ==> (done <==> !old(FullAt(inner, parray, lev))) && mempool.Left() == old(mempool.Left()) - if done then 0 else 1
      ensures old(inner.Keys) <= inner.Keys
      ensures r == Done && !done ==> FirstRoom(inner, parray, rootLevel, lev + 1) == old(FirstRoom(inner, parray, rootLevel, lev + 1))
    {
      hide Mempool.Left, FirstRoom, LocksAre, FullUpTo, Whole, Mempool.Valid, FullAt, Climbing;
      FullHere(rootLevel, treeRoot, inner, nvmpool.used, L, lev, parray, ppos, n);
      if inner[parray[lev]].num < NON_LEAF_KEY_NUM {
        inner := AddUp(rootLevel, treeRoot, inner, nvmpool.used, L, lev, parray, ppos, n, top);
        return Done, true, n;
      }
      var newp, raw := AllocInner();
      if newp == None { return OutOfMemory, false, n; }
      ghost var inner0 := inner;
      inner, up := SplitUp(rootLevel, treeRoot, inner, nvmpool.used, L, lev, parray, ppos, n, top, newp.value, raw);
      FirstRoomAbove(inner0, inner, parray, rootLevel, lev + 1);
      return Done, false, up;
    }

    /** Part 3: carry the new pair up, from level 1 to the first node with room; `up` is what is left for a new root. */
    method InsertUp(parray: seq<Ptr>, ppos: seq<nat>, n0: IdxEntry, ghost L: seq<IdxEntry>, ghost top: nat)
      returns (r: Outcome, up: Option<IdxEntry>)
      requires Pools() && Climbing(rootLevel, treeRoot, inner, nvmpool.used, L, 1, parray, ppos, n0)
      requires LocksAre(inner, PathSet(parray, 1, top)) && FullUpTo(inner, rootLevel, parray, 1, top) && (rootLevel > 0 ==> top > 0)
      requires parray[rootLevel] == treeRoot
      modifies `inner, mempool
      ensures r == Done ==> Pools()
      ensures r == Done && up == None ==> rootLevel > 0 && Whole(rootLevel, treeRoot, inner, nvmpool.used, L) && LocksAre(inner, {})
      ensures r == Done && up.Some? ==> Climbing(rootLevel, treeRoot, inner, nvmpool.used, L, rootLevel + 1, parray, ppos, up.value)
      ensures r == Done && up.Some? ==> LocksAre(inner, if rootLevel > 0 then {treeRoot} else {}) && (rootLevel > 0 ==> treeRoot in inner)
      ensures var k := old(FirstRoom(inner, parray, rootLevel, 1));
        && 1 <= k <= rootLevel + 1 && (r == OutOfMemory <==> old(mempool.Left()) < k - 1)
        && old(inner.Keys) <= inner.Keys && (r == Done ==> (up.Some? <==> k > rootLevel) && mempool.Left() == old(mempool.Left()) - (k - 1))
    {
      hide Climbing, LocksAre, FullUpTo, Whole, LBTree.Pools, Mempool.Left, FullAt, PathSet;
      FirstRoomRange(inner, parray, rootLevel, 1);
      NoPath(inner, rootLevel, parray, top);
      ghost var k := FirstRoom(inner, parray, rootLevel, 1);
      var n, lev := n0, 1;
      while lev <= rootLevel
        invariant 1 <= lev <= rootLevel + 1 && Pools()
        invariant Climbing(rootLevel, treeRoot, inner, nvmpool.used, L, lev, parray, ppos, n)
        invariant lev <= rootLevel ==>
          lev <= top && LocksAre(inner, PathSet(parray, lev, top)) && FullUpTo(inner, rootLevel, parray, lev, top)
        invariant lev > rootLevel ==> LocksAre(inner, if rootLevel > 0 then {treeRoot} else {}) && (rootLevel > 0 ==> treeRoot in inner)
        invariant old(inner.Keys) <= inner.Keys
        invariant FirstRoom(inner, parray, rootLevel, lev) == k && lev <= k && mempool.Left() == old(mempool.Left()) - (lev - 1)
        decreases rootLevel - lev
      {
        FirstRoomRange(inner, parray, rootLevel, lev + 1);
        var done;
        r, done, n := UpStep(lev, parray, ppos, n, L, top);
        if r == OutOfMemory || done { return r, None; }
        lev := lev + 1;
      }
      return Done, Some(n);
    }

    /** `p->lock() = 0` */
    method UnlockNode(p: Ptr, ghost S: set<Ptr>)
      requires p in inner && LocksAre(inner, S) && Struct(rootLevel, treeRoot, inner, nvm, nvmpool.used)
      modifies `inner
      ensures inner.Keys == old(inner).Keys && LocksAre(inner, S - {p})
      ensures Struct(rootLevel, treeRoot, inner, nvm, nvmpool.used) && Chain() == old(Chain())
    {
      ghost var inner0 := inner;
      UnlockedOne(inner, p, S);
      inner := inner[p := inner[p].(lock := false)];
      StructLocks(rootLevel, treeRoot, inner0, inner, nvm, nvmpool.used);
    }

    /** A new root, locked, above the split one. */
    method SwitchRoot(parray: seq<Ptr>, ppos: seq<nat>, n: IdxEntry, ghost L: seq<IdxEntry>, ghost S: set<Ptr>) returns (r: Outcome)
      requires Pools() && Climbing(rootLevel, treeRoot, inner, nvmpool.used, L, rootLevel + 1, parray, ppos, n)
      requires LocksAre(inner, S) && NULL !in nvmpool.used && LeavesOk(nvm, L, rootLevel + 1)
      modifies `inner, `rootLevel, `treeRoot, mempool
      ensures r == Done ==> Pools() && Struct(rootLevel, treeRoot, inner, nvm, nvmpool.used) && Chain() == L
      ensures r == Done ==> treeRoot in inner && old(inner).Keys <= inner.Keys && LocksAre(inner, S + {treeRoot})
      ensures r == Done ==> rootLevel == old(rootLevel) + 1 && treeRoot !in old(inner)
      ensures (r == OutOfMemory <==> old(mempool.Left()) == 0) && mempool.Left() == old(mempool.Left()) - if r == Done then 1 else 0
    {
      hide Mempool.Left, Climbing, LocksAre, LeavesOk, Whole, NodeOk, Struct, LeafList, Mempool.Valid;
      var newp, raw := AllocInner();
      if newp == None { return OutOfMemory; }
      var p := newp.value;
      var node := Inner(true, 1, raw.ent[0 := IdxEntry(raw.ent[0].k, treeRoot)][1 := n]);
      RootNode(raw, treeRoot, n);
      Grown(rootLevel, treeRoot, inner, nvmpool.used, L, parray, ppos, n, p, node, S);
      inner := inner[p := node];
      rootLevel := rootLevel + 1;
      treeRoot := p;
      StructOf(rootLevel, treeRoot, inner, nvm, nvmpool.used, L);
      return Done;
    }

    lemma {:induction false} RootNode(raw: RawInner, root: Ptr, n: IdxEntry)
      ensures var node := Inner(true, 1, raw.ent[0 := IdxEntry(raw.ent[0].k, root)][1 := n]);
        NodeOk(node) && node.num == 1 && node.lock && node.ent[0].ch == root && node.ent[1] == n
    {
    }

    /** The end of Part 3: the new root, then the old root, still locked, is unlocked, then the new one. */
    method GrowRoot(parray: seq<Ptr>, ppos: seq<nat>, n: IdxEntry, ghost L: seq<IdxEntry>, ghost safe: bool) returns (r: Outcome)
      requires Pools() && Climbing(rootLevel, treeRoot, inner, nvmpool.used, L, rootLevel + 1, parray, ppos, n)
      requires LocksAre(inner, if rootLevel > 0 then {treeRoot} else {}) && NULL !in nvmpool.used
      requires LeavesOk(nvm, L, rootLevel + 1) && L != [] && (rootLevel == 0 ==> L[0].ch == treeRoot)
      requires if rootLevel > 0 then Unlocked(View(nvm.cells, L)) else UnlockedBut(View(nvm.cells, L), 0)
      requires rootLevel > 0 ==> treeRoot in inner
      requires safe ==> Recovery.Durable(nvm, L, View(nvm.cells, L))
      modifies this, mempool
      ensures r == Done ==> Valid() && Contents() == old(Union(View(nvm.cells, L)))
      ensures safe ==> (r == Done ==> Durable()) && Tail(old(trace), trace, old(Union(View(nvm.cells, L))), old(Union(View(nvm.cells, L))))
      ensures Ran(old(trace), trace, old(nvm), nvm)
      ensures (r == OutOfMemory <==> old(mempool.Left()) == 0) && mempool.Left() == old(mempool.Left()) - if r == Done then 1 else 0
      ensures r == Done ==> rootLevel == old(rootLevel) + 1 && treeRoot !in old(inner)
    {
      RanNot(trace, nvm);
      ghost var C := Union(View(nvm.cells, L));
      var totalLevel, oldRoot := rootLevel, treeRoot;
      if safe { TailSame(trace, C, C); }
      hide Mempool.Left, Climbing, LocksAre, LeavesOk, Recovery.Durable, View, Union, Tail, Struct, Mempool.Valid, LeafList, Ran;
      ghost var S := if rootLevel > 0 then {treeRoot} else {};
      r := SwitchRoot(parray, ppos, n, L, S);
      if r == OutOfMemory { return; }
      S := S + {treeRoot};
      if totalLevel > 0 {
        UnlockNode(oldRoot, S);
        S := S - {oldRoot};
      } else {
        ghost var Y, x := Leaves(), Ctx([], L[0], L[1..]);
        assert x.All() == L;
        LockLeaf(oldRoot, false, x, safe);
        UnlockedNow(Y, 0, Relocked(Y[0], false));
      }
      UnlockNode(treeRoot, S);
      assert S - {treeRoot} == {};
    }

    /** There is a new root one level up, or the root is the same. */
    ghost predicate Grew(up: bool, inner0: map<Ptr, Inner>, h: nat, root: Ptr)
      reads this
    {
      if up then rootLevel == h + 1 && treeRoot !in inner0 else rootLevel == h && treeRoot == root
    }

    /** Part 3: the leaf level `L` is done and its new leaf waits for a parent. */
    method Rise(parray: seq<Ptr>, ppos: seq<nat>, n: IdxEntry, ghost L: seq<IdxEntry>, ghost top: nat, ghost j: nat,
                ghost C: set<IdxEntry>, ghost safe: bool) returns (r: Outcome)
      requires Pools() && Rising(rootLevel, treeRoot, inner, nvmpool.used, L, parray, ppos, n, top, j) && NULL !in nvmpool.used
      requires SplitLevel(nvm, L, rootLevel, j, C) && (safe ==> Recovery.Durable(nvm, L, View(nvm.cells, L)))
      modifies this, mempool
      ensures r == Done ==> Valid() && Contents() == C
      ensures safe ==> (r == Done ==> Durable()) && Tail(old(trace), trace, C, C)
      ensures Ran(old(trace), trace, old(nvm), nvm)
      ensures var k := old(FirstRoom(inner, parray, rootLevel, 1));
        && (r == OutOfMemory <==> old(mempool.Left()) < Splits(old(rootLevel), k))
        && (r == Done ==> mempool.Left() == old(mempool.Left()) - Splits(old(rootLevel), k) && Grew(k > old(rootLevel), old(inner), old(rootLevel), old(treeRoot)))
    {
      RanNot(trace, nvm);
      if safe { TailSame(trace, C, C); }
      hide FirstRoom, Mempool.Left, LocksAre, FullUpTo, Tree, Climbing, LeavesOk, Recovery.Durable, View, Union, Tail, Mempool.Valid, LeafList, Unlocked, UnlockedBut, Ran;
      var up;
      r, up := InsertUp(parray, ppos, n, L, top);
      if r == OutOfMemory { return; }
      if up == None {
        LeavesLower(nvm, L, rootLevel);
        StructOf(rootLevel, treeRoot, inner, nvm, nvmpool.used, L);
        hide Whole, Struct;
      } else {
        r := GrowRoot(parray, ppos, up.value, L, safe);
      }
    }

    lemma {:induction false} GrewSame(up: bool, inner0: map<Ptr, Inner>, inner1: map<Ptr, Inner>, h: nat, root: Ptr)
      requires Grew(up, inner1, h, root) && inner0.Keys == inner1.Keys
      ensures Grew(up, inner0, h, root)
    {
      assert treeRoot in inner0.Keys <==> treeRoot in inner1.Keys;
    }

    /** Parts 2 and 3 for a full leaf, which is locked. */
    method InsertFull(parray: seq<Ptr>, ppos: seq<nat>, isfull: seq<bool>, e: IdxEntry, ghost ctxs: seq<Ctx>, ghost safe: bool) returns (r: Outcome)
      requires Pools() && Struct(rootLevel, treeRoot, inner, nvm, nvmpool.used) && LocksAre(inner, {})
      requires CtxPath(Graph(), Top(treeRoot), rootLevel, 0, e.k, parray, ppos, ctxs) && FullAbove(inner, rootLevel, 0, parray, isfull)
      requires LockedLeaf(nvm, Chain(), ctxs[0], parray[0], e, true) && (safe ==> Durable())
      modifies this, mempool, nvmpool
      ensures r == Done ==> Valid() && Contents() == old(Contents()) + {e}
      ensures safe ==> (r == Done ==> Durable()) && Tail(old(trace), trace, old(Contents()), old(Contents()) + {e})
      ensures Ran(old(trace), trace, old(nvm), nvm)
      ensures var k := old(FirstRoom(inner, parray, rootLevel, 1));
        && (r == OutOfMemory <==> old(nvmpool.Left()) == 0 || old(mempool.Left()) < Splits(old(rootLevel), k))
        && (r == Done ==>
          && nvmpool.Left() == old(nvmpool.Left()) - 1 && mempool.Left() == old(mempool.Left()) - Splits(old(rootLevel), k)
          && Grew(k > old(rootLevel), old(inner), old(rootLevel), old(treeRoot)))
    {
      hide FirstRoom, Splits, LBTree.Grew, Mempool.Left, Ran, Struct, NodesOk, Tree, OnlyLocks, CtxPath, FullAbove, FullUpTo, LocksAre, LockedLeaf, SplitLevel, Recovery.Durable, View, Union,
        Tail, LeafList, Mempool.Valid, Rising, PathLocked, GraphOf;
      CtxSizes(Graph(), Top(treeRoot), rootLevel, 0, e.k, parray, ppos, ctxs);
      ghost var x, C, T, leaves, inner0, s := ctxs[0], Contents(), trace, nvmpool.used, inner, nvm;
      RanNot(trace, nvm);
      if safe { TailSame(trace, C, C + {e}); }
      StructTree(rootLevel, treeRoot, inner, nvm, leaves);
      var top := LockPath(parray, isfull);
      StructLocks(rootLevel, treeRoot, inner0, inner, nvm, leaves);
      FirstRoomLocks(inner0, inner, parray, rootLevel);
      LocksKeys(inner0, inner);
      ghost var inner1, h, root, k := inner, rootLevel, treeRoot, FirstRoom(inner, parray, rootLevel, 1);
      var newp := AllocLeaf();
      if newp == None { return OutOfMemory; }
      var splitKey := SplitAtLeaf(parray[0], newp.value, e, x, leaves, safe);
      ghost var T1, n, L, s1 := trace, IdxEntry(splitKey, newp.value), After(x, IdxEntry(splitKey, newp.value)), nvm;
      ClimbFrom(rootLevel, treeRoot, inner0, inner, leaves, e.k, parray, ppos, ctxs, n, top);
      r := Rise(parray, ppos, IdxEntry(splitKey, newp.value), L, top, |x.A|, C + {e}, safe);
      if r == Done { GrewSame(k > h, inner0, inner1, h, root); }
      RanTwice(T, T1, trace, s, s1, nvm);
      if safe {
        TailWiden(T1, trace, C, C + {e});
        TailTwice(T, T1, trace, C, C + {e});
      }
    }

    /** The end of Part 1, and Parts 2 and 3: the key is new. */
    method InsertNew(parray: seq<Ptr>, ppos: seq<nat>, isfull: seq<bool>, e: IdxEntry, ghost ctxs: seq<Ctx>, ghost safe: bool) returns (r: Outcome)
      requires Valid() && CtxPath(Graph(), Top(treeRoot), rootLevel, 0, e.k, parray, ppos, ctxs)
      requires Reached(nvm, Chain(), ctxs[0], parray[0], e.k) && !HasKey(Contents(), e.k) && FullAbove(inner, rootLevel, 0, parray, isfull)
      requires safe ==> Durable()
      modifies this, mempool, nvmpool
      ensures r == Done ==> Valid() && Contents() == old(Contents()) + {e}
      ensures safe ==> (r == Done ==> Durable()) && Tail(old(trace), trace, old(Contents()), old(Contents()) + {e})
      ensures Ran(old(trace), trace, old(nvm), nvm)
      ensures !old(IsFull(Leaves()[|ctxs[0].A|])) ==>
        r == Done && SameNodes(old(inner), old(rootLevel), old(treeRoot)) && nvmpool.Left() == old(nvmpool.Left()) && mempool.Left() == old(mempool.Left())
      ensures old(IsFull(Leaves()[|ctxs[0].A|])) ==>
        var k := old(FirstRoom(inner, parray, rootLevel, 1));
        && (r == OutOfMemory <==> old(nvmpool.Left()) == 0 || old(mempool.Left()) < Splits(old(rootLevel), k))
        && (r == Done ==>
          && nvmpool.Left() == old(nvmpool.Left()) - 1 && mempool.Left() == old(mempool.Left()) - Splits(old(rootLevel), k)
          && Grew(k > old(rootLevel), old(inner), old(rootLevel), old(treeRoot)))
    {
      hide FirstRoom, Splits, LBTree.Grew, Mempool.Left, Ran, Struct, CtxPath, FullAbove, LocksAre, HasKey, Covers, Recovery.Durable, View, Union, Tail, LeafList, Mempool.Valid, LockedLeaf;
      CtxSizes(Graph(), Top(treeRoot), rootLevel, 0, e.k, parray, ppos, ctxs);
      ghost var x, C, T, Y, j := ctxs[0], Contents(), trace, Leaves(), |ctxs[0].A|;
      var lp := parray[0];
      ghost var s := nvm;
      LockLeaf(lp, true, x, safe);
      ghost var T1, s1 := trace, nvm;
      LeafHere(rootLevel, treeRoot, inner, nvm, nvmpool.used, x, safe);
      assert IsFull(Leaves()[j]) == IsFull(Y[j]) by { SameBits(Y[j], true); }
      NowLocked(nvm, Chain(), x, lp, e, Y);
      if !IsFull(nvm.cells[lp].Now()) {
        hide IsFull;
        PutEntry(lp, e, x, safe);
        r := Done;
      } else {
        r := InsertFull(parray, ppos, isfull, e, ctxs, safe);
      }
      RanTwice(T, T1, trace, s, s1, nvm);
      if safe {
        TailWiden(T, T1, C, C + {e});
        TailTwice(T, T1, trace, C, C + {e});
      }
    }

    lemma {:induction false} OverflowIs(key: Key, parray: seq<Ptr>, ppos: seq<nat>, ctxs: seq<Ctx>)
      requires Struct(rootLevel, treeRoot, inner, nvm, nvmpool.used) && CtxPath(Graph(), Top(treeRoot), rootLevel, 0, key, parray, ppos, ctxs)
      ensures |ctxs| > 0 && |ctxs[0].A| < |Leaves()| && (Overflows(key) <==> !HasKey(Contents(), key) && IsFull(Leaves()[|ctxs[0].A|]))
      ensures var k := FirstRoom(inner, parray, rootLevel, 1); Needed(key) == Splits(rootLevel, k) && (Needed(key) > rootLevel <==> k > rootLevel)
    {
      WayIs(inner, nvmpool.used, rootLevel, treeRoot, key, parray, ppos, ctxs);
      AtLeaf(rootLevel, treeRoot, inner, nvm, nvmpool.used, key, parray, ppos, ctxs);
      CtxSizes(Graph(), Top(treeRoot), rootLevel, 0, key, parray, ppos, ctxs);
      FirstRoomRange(inner, parray, rootLevel, 1);
      hide Struct, CtxPath, Union, LeafList, Covers, Entries, LeafOk, HasKey, TreeState.Way, Graph, FirstRoom;
    }

    /**
     * `insert`: put-if-absent. The trace holds the memory after every store, write-back and fence of the call; whatever a crash at any
     * of them leaves, recovery finds the entries before or after the call.
     */
    method Insert(key: Key, ptr: Ptr) returns (r: Outcome)
      requires Valid()
      modifies this, mempool, nvmpool
      ensures r == Done ==> Valid() && Contents() == Added(old(Contents()), IdxEntry(key, ptr))
      ensures old(Durable()) ==>
        (r == Done ==> Durable()) && Tail(old(trace), trace, old(Contents()), Added(old(Contents()), IdxEntry(key, ptr)))
      ensures Ran(old(trace), trace, old(nvm), nvm)
      ensures old(HasKey(Contents(), key)) ==> r == Done && nvm == old(nvm) && trace == old(trace)
      ensures r == OutOfMemory <==> old(Overflows(key)) && (old(nvmpool.Left()) == 0 || old(mempool.Left()) < old(Needed(key)))
      ensures !old(Overflows(key)) ==>
        SameNodes(old(inner), old(rootLevel), old(treeRoot)) && nvmpool.Left() == old(nvmpool.Left()) && mempool.Left() == old(mempool.Left())
      ensures old(Overflows(key)) && r == Done ==>
        && nvmpool.Left() == old(nvmpool.Left()) - 1 && mempool.Left() == old(mempool.Left()) - old(Needed(key))
        && Grew(old(Needed(key)) > old(rootLevel), old(inner), old(rootLevel), old(treeRoot))
    {
      var parray, ppos, isfull, pos, ctxs := Locate(key);
      OverflowIs(key, parray, ppos, ctxs);
      hide LBTree.Way, LBTree.LeafFor, LBTree.Overflows, LBTree.Needed, LBTree.Grew, FirstRoom, Splits, Mempool.Left;
      if pos >= 0 {
        RanNot(trace, nvm);
        TailSame(trace, Contents(), Contents());
        return Done;
      }
      hide Struct, CtxPath, FullAbove, LocksAre, HasKey, Recovery.Durable, View, Union, Tail, LeafList, Mempool.Valid, Reached, Ran;
      r := InsertNew(parray, ppos, isfull, IdxEntry(key, ptr), ctxs, Durable());
    }

    // -------------------------------------------------------------- del

    /** The root's child that the search for the key does not go to, if there are just two. */
    ghost function OtherChild(key: Key): Ptr
      reads this
    {
      OtherOf(inner, treeRoot, key)
    }

    /** The inner nodes and the root are these. */
    ghost predicate SameNodes(inner': map<Ptr, Inner>, h: nat, root: Ptr)
      reads this
    {
      inner == inner' && rootLevel == h && treeRoot == root
    }

    /** Step 1 of Part 2: clear the slot; the same header store unlocks the leaf. */
    method RemoveEntry(lp: Ptr, pos: nat, ghost x: Ctx, ghost safe: bool)
      requires Struct(rootLevel, treeRoot, inner, nvm, nvmpool.used) && x.All() == Chain() && x.e.ch == lp
      requires |x.A| < |Leaves()| && Leaves()[|x.A|].Used(pos) && pos < |Leaves()[|x.A|].ent| && UnlockedBut(Leaves(), |x.A|)
      requires CountBits(Leaves()[|x.A|].m.bitmap) > 1 || rootLevel == 0
      requires safe ==> Durable()
      modifies `nvm, `trace
      ensures Struct(rootLevel, treeRoot, inner, nvm, nvmpool.used) && Unlocked(Leaves())
      ensures Contents() == old(Contents()) - {old(Leaves())[|x.A|].ent[pos]} && Ran(old(trace), trace, old(nvm), nvm)
      ensures safe ==> Durable() && Tail(old(trace), trace, old(Contents()), Contents())
    {
      ghost var Y := Leaves();
      LeafHere(rootLevel, treeRoot, inner, nvm, nvmpool.used, x, safe);
      hide Struct, Fits, Linked, Quiet, CellSafe, AllShow, Tail, View, Union, LeafList, Recovery.Durable, Ran, Steps;
      var k;
      ghost var tr;
      k, tr := RemoveSlot(nvm.cells[lp], pos, safe);
      RemoveThere(x, Y, k.Now(), Y[|x.A|].ent[pos]);
      StillSome(Y[|x.A|], k.Now(), pos);
      if safe { AllSafeShow(tr, Y[|x.A|], k.Now()); }
      hide LeafOk, AllSafe, Entries;
      StoreLeaf(lp, k, tr, x, safe);
      UnlockedNow(Y, |x.A|, k.Now());
    }

    /** The last loop of Part 1: lock the ancestors up to the first with at least two children. */
    method LockBranch(parray: seq<Ptr>) returns (m: nat)
      requires (forall i :: 1 <= i <= rootLevel ==> i < |parray| && parray[i] in inner) && LocksAre(inner, {}) && NodesOk(inner)
      requires exists i :: 1 <= i <= rootLevel && Wide(inner, parray, i)
      modifies `inner
      ensures OnlyLocks(old(inner), inner) && LocksAre(inner, PathSet(parray, 1, m))
      ensures 1 <= m <= rootLevel && Thin(inner, parray, m) && Wide(inner, parray, m)
    {
      ghost var w :| 1 <= w <= rootLevel && Wide(inner, parray, w);
      ghost var inner0 := inner;
      assert PathSet(parray, 1, 0) == {};
      m := 1;
      while true
        invariant 1 <= m <= w && OnlyLocks(inner0, inner) && LocksAre(inner, PathSet(parray, 1, m - 1))
        invariant Thin(inner0, parray, m)
        decreases w - m
      {
        var p := parray[m];
        inner := inner[p := inner[p].(lock := true)];
        PathSetMoreFrom(parray, m);
        if inner[p].num >= 1 { break; }
        assert NodeOk(inner0[p]);
        m := m + 1;
      }
      ThinLocked(inner0, inner, parray, m);
    }

    /** The part of Part 1 for a leaf whose last key goes: find and lock the left sibling, and lock the branch. */
    method LockAround(parray: seq<Ptr>, ppos: seq<nat>, ghost key: Key, ghost e: IdxEntry, ghost ctxs: seq<Ctx>, ghost safe: bool)
      returns (sib: Option<Ptr>, ghost m: nat)
      requires Struct(rootLevel, treeRoot, inner, nvm, nvmpool.used) && LocksAre(inner, {})
      requires PathCtx(Graph(), rootLevel, treeRoot, key, parray, ppos, ctxs) && (safe ==> Durable())
      requires |ctxs| > 0 && ctxs[0].All() == Chain() && |ctxs[0].A| < |Leaves()| && EntriesOf(Leaves()[|ctxs[0].A|]) == {e}
      requires UnlockedBut(Leaves(), |ctxs[0].A|) && (exists i :: 1 <= i <= rootLevel && Wide(inner, parray, i))
      modifies `inner, `nvm, `trace
      ensures OnlyLocks(old(inner), inner) && Contents() == old(Contents()) && Chain() == old(Chain())
      ensures BranchReady(inner, rootLevel, treeRoot, nvmpool.used, key, parray, ppos, ctxs, m) && m < |ppos|
      ensures UnlinkReady(nvm, rootLevel, ctxs[0], e, ppos[m] == 0) && Struct(rootLevel, treeRoot, inner, nvm, nvmpool.used)
      ensures if sib.Some? then LeftOf(ctxs[0], sib.value) else ctxs[0].A == []
      ensures Ran(old(trace), trace, old(nvm), nvm) && (safe ==> Durable() && Tail(old(trace), trace, Contents(), Contents()))
    {
      RanNot(trace, nvm);
      hide Ran, Tree, PathCtx, View, Union, Tail, Recovery.Durable, LeafList, Wide, Thin, Struct, NodesOk, LocksAre, UnlinkReady, BranchReady, OnlyLocks,
        UnlockedBut, Relocked, EntriesOf, Mempool.Valid;
      ghost var x, Y, C, g, leaves := ctxs[0], Leaves(), Contents(), Graph(), nvmpool.used;
      StructTree(rootLevel, treeRoot, inner, nvm, leaves);
      if safe { TailSame(trace, C, C); }
      sib := LeftSibling(inner, rootLevel, treeRoot, parray, ppos, leaves, key, ctxs);
      if sib.Some? {
        LeftCtxAll(x);
        LockLeaf(sib.value, true, LeftCtx(x), safe);
      }
      assert Leaves() == if sib.Some? then Y[|x.A| - 1 := Relocked(Y[|x.A| - 1], true)] else Y;
      ghost var inner0 := inner;
      PathApart(inner, rootLevel, treeRoot, leaves, key, parray, ppos, ctxs);
      m := LockBranch(parray);
      BranchIntro(inner0, inner, rootLevel, treeRoot, leaves, key, parray, ppos, ctxs, m);
      StructLocks(rootLevel, treeRoot, inner0, inner, nvm, leaves);
      UnlinkIntro(rootLevel, treeRoot, inner, nvm, leaves, x, e, ppos[m] == 0, Y);
    }

    /** Step 2 of Part 2: take the leaf out of the chain and free it. */
    method CutLeaf(lp: Ptr, sib: Option<Ptr>, ghost x: Ctx, ghost e: IdxEntry, ghost left: bool, ghost safe: bool)
      requires Pools() && UnlinkReady(nvm, rootLevel, x, e, left) && LeafToCut(nvm, nvmpool.used, x, lp, sib)
      requires safe ==> Recovery.Durable(nvm, x.All(), View(nvm.cells, x.All()))
      modifies `nvm, `trace, nvmpool
      ensures Pools() && nvmpool.used == old(nvmpool.used) - {lp} && nvmpool.Left() == old(nvmpool.Left()) + 1 && Ran(old(trace), trace, old(nvm), nvm)
      ensures var L, C := Removed(x, left), old(Union(View(nvm.cells, x.All())));
        && PrunedLevel(nvm, L, rootLevel, C - {e})
        && (safe ==> Recovery.Durable(nvm, L, View(nvm.cells, L)) && Tail(old(trace), trace, C, C - {e}))
    {
      hide UnlinkReady, View, Union, PrunedLevel, Removed, Recovery.Durable, Tail, TraceOk, Cell.Shape, Run, Ran, Mempool.Left;
      ghost var C, more, s := Union(View(nvm.cells, x.All())), [], nvm;
      nvm, more := CutState(nvm, lp, sib, nvmpool.freeNode, rootLevel, x, e, left, safe);
      if safe { TailIs(trace, more, C, C - {e}); }
      RanIs(trace, more, s, nvm);
      trace := trace + more;
      nvmpool.FreeNode(lp);
    }

    /** Part 3 of `del`: free the nodes of the locked branch, take the child out of the node above it, and collapse a root left with one child. */
    method RemovePath(parray: seq<Ptr>, ppos: seq<nat>, ghost m: nat, ghost leaves: set<Ptr>, ghost key: Key, ghost ctxs: seq<Ctx>)
      requires Pools() && BranchReady(inner, rootLevel, treeRoot, leaves, key, parray, ppos, ctxs, m)
      modifies `inner, `rootLevel, `treeRoot, mempool
      ensures Pools() && |ctxs| > 0 && m < |ppos| && |parray| > 0
      ensures Whole(rootLevel, treeRoot, inner, leaves - {parray[0]}, Removed(ctxs[0], ppos[m] == 0)) && LocksAre(inner, {})
      ensures Pruned(old(inner), old(rootLevel), old(treeRoot), parray, ppos[m], m, inner, rootLevel, treeRoot)
      ensures rootLevel == old(rootLevel) || rootLevel + 1 == old(rootLevel)
      ensures mempool.Left() + |inner| == old(mempool.Left() + |inner|)
    {
      hide BranchReady, Whole, LocksAre, Removed, Mempool.Valid, Mempool.Left, NodesOk, NodeOk, Tree, PathCtx, ChildGone, Pruned, Freed, PathSet;
      ghost var inner0 := inner;
      BranchFacts(inner, rootLevel, treeRoot, leaves, key, parray, ppos, ctxs, m);
      var lev := 1;
      NoneFreed(inner, parray);
      FreeNext(inner0, inner, parray, 1);
      while inner[parray[lev]].num == 0
        invariant 1 <= lev <= m && Pools() && Freed(inner0, inner, parray, lev)
        invariant parray[lev] in inner && inner[parray[lev]] == inner0[parray[lev]]
        invariant rootLevel == old(rootLevel) && treeRoot == old(treeRoot) && mempool.Left() + |inner| == old(mempool.Left() + |inner|)
        decreases m - lev
      {
        var p := parray[lev];
        FreeNext(inner0, inner, parray, lev);
        FreeInner(p);
        lev := lev + 1;
        FreeNext(inner0, inner, parray, lev);
      }
      var collapse;
      ghost var inner1 := inner;
      inner, collapse := RemoveUp(inner0, inner, rootLevel, treeRoot, leaves, key, parray, ppos, ctxs, lev);
      PrunedStays(inner0, inner1, inner, rootLevel, treeRoot, parray, ppos[m], m);
      if collapse {
        var p := treeRoot;
        Collapsed(rootLevel, treeRoot, inner, leaves - {parray[0]}, Removed(ctxs[0], ppos[m] == 0));
        rootLevel := rootLevel - 1;
        treeRoot := inner[p].ent[0].ch;
        FreeInner(p);
      }
    }

    /** `mempool_free_node(p)` */
    method FreeInner(p: Ptr)
      requires Pools() && p in inner
      modifies `inner, mempool
      ensures Pools() && inner == old(inner) - {p} && mempool.Left() + |inner| == old(mempool.Left() + |inner|)
    {
      hide Mempool.Left;
      inner := inner - {p};
      mempool.FreeNode(p);
      assert inner.Keys == old(inner.Keys) - {p} && |inner| == |inner.Keys| && old(|inner|) == |old(inner.Keys)|;
    }

    lemma {:induction false} TwoPools()
      requires Pools()
      ensures mempool != nvmpool
    {
    }

    /** Step 2 of Part 2, and Part 3: the leaf, its branch and perhaps the root go. */
    method CutBranch(parray: seq<Ptr>, ppos: seq<nat>, sib: Option<Ptr>, ghost m: nat, ghost key: Key, ghost e: IdxEntry, ghost ctxs: seq<Ctx>,
                     ghost safe: bool)
      requires Pools() && BranchReady(inner, rootLevel, treeRoot, nvmpool.used, key, parray, ppos, ctxs, m) && NULL !in nvmpool.used
      requires |ctxs| > 0 && |parray| > 0 && m < |ppos| && UnlinkReady(nvm, rootLevel, ctxs[0], e, ppos[m] == 0)
      requires LeafToCut(nvm, nvmpool.used, ctxs[0], parray[0], sib)
      requires safe ==> Recovery.Durable(nvm, ctxs[0].All(), View(nvm.cells, ctxs[0].All()))
      modifies `nvm, `trace, `inner, `rootLevel, `treeRoot, mempool, nvmpool
      ensures Valid() && Contents() == old(Union(View(nvm.cells, ctxs[0].All()))) - {e}
      ensures safe ==> Durable() && Tail(old(trace), trace, old(Union(View(nvm.cells, ctxs[0].All()))), Contents())
      ensures Ran(old(trace), trace, old(nvm), nvm)
      ensures Pruned(old(inner), old(rootLevel), old(treeRoot), parray, ppos[m], m, inner, rootLevel, treeRoot)
      ensures nvmpool.used == old(nvmpool.used) - {parray[0]} && nvmpool.Left() == old(nvmpool.Left()) + 1
      ensures mempool.Left() + |inner| == old(mempool.Left() + |inner|)
    {
      hide Ran, View, Union, Tail, Recovery.Durable, LeafList, UnlinkReady, BranchReady, PrunedLevel, Whole, Struct, LocksAre, Mempool.Valid, Pools, Unlocked,
        Removed, Ctx.All, LeafToCut, LeavesOk, Pruned, Mempool.Left, Collapses;
      TwoPools();
      ghost var x, L := ctxs[0], Removed(ctxs[0], ppos[m] == 0);
      ghost var C, leaves := Union(View(nvm.cells, x.All())), nvmpool.used;
      CutLeaf(parray[0], sib, x, e, ppos[m] == 0, safe);
      RemovePath(parray, ppos, m, leaves, key, ctxs);
      LevelHere(nvm, L, rootLevel, C - {e});
      StructOf(rootLevel, treeRoot, inner, nvm, nvmpool.used, L);
    }

    /** The leaf holds only the deleted key, and there is another key in the tree. */
    method DeleteLeaf(parray: seq<Ptr>, ppos: seq<nat>, ghost key: Key, ghost e: IdxEntry, ghost ctxs: seq<Ctx>, ghost safe: bool)
      requires Pools() && Struct(rootLevel, treeRoot, inner, nvm, nvmpool.used) && LocksAre(inner, {})
      requires PathCtx(Graph(), rootLevel, treeRoot, key, parray, ppos, ctxs) && (safe ==> Durable())
      requires |ctxs| > 0 && |parray| > 0 && ctxs[0].All() == Chain() && ctxs[0].e.ch == parray[0]
      requires |ctxs[0].A| < |Leaves()| && EntriesOf(Leaves()[|ctxs[0].A|]) == {e}
      requires UnlockedBut(Leaves(), |ctxs[0].A|) && (exists i :: 1 <= i <= rootLevel && Wide(inner, parray, i))
      modifies this, mempool, nvmpool
      ensures Valid() && Contents() == old(Contents()) - {e}
      ensures safe ==> Durable() && Tail(old(trace), trace, old(Contents()), Contents())
      ensures Ran(old(trace), trace, old(nvm), nvm)
      ensures var m := old(FirstWide(inner, parray, rootLevel, 1));
        && m < |ppos| && Pruned(old(inner), old(rootLevel), old(treeRoot), parray, ppos[m], m, inner, rootLevel, treeRoot)
        && mempool.Left() + |inner| == old(mempool.Left() + |inner|)
      ensures nvmpool.used == old(nvmpool.used) - {parray[0]} && nvmpool.Left() == old(nvmpool.Left()) + 1
    {
      hide Pruned, Mempool.Left, Collapses, FirstWide, Ran, PathCtx, View, Union, Tail, Recovery.Durable, LeafList, Wide, Struct, LocksAre, UnlinkReady, BranchReady, EntriesOf,
        Mempool.Valid, Unlocked, UnlockedBut, OnlyLocks, LeafToCut, Ctx.All, LeftOf;
      ghost var x, C, T, inner0, s := ctxs[0], Contents(), trace, inner, nvm;
      var sib;
      ghost var m;
      sib, m := LockAround(parray, ppos, key, e, ctxs, safe);
      ghost var T1, s1 := trace, nvm;
      LocksKeys(inner0, inner);
      CutFacts(rootLevel, treeRoot, inner, nvm, nvmpool.used, x, sib, safe);
      ghost var inner1, h, root := inner, rootLevel, treeRoot;
      BranchLocks(inner0, inner, h, root, nvmpool.used, key, parray, ppos, ctxs, m);
      CutBranch(parray, ppos, sib, m, key, e, ctxs, safe);
      PrunedSince(inner0, inner1, inner, h, root, parray, ppos[m], m, rootLevel, treeRoot);
      RanTwice(T, T1, trace, s, s1, nvm);
      if safe {
        TailWiden(T, T1, C, C - {e});
        TailTwice(T, T1, trace, C, C - {e});
      }
    }

    /** Parts 2 and 3 of `del`, and the rest of Part 1: the leaf is locked. */
    method DeleteLocked(parray: seq<Ptr>, ppos: seq<nat>, pos: nat, ghost key: Key, ghost e: IdxEntry, ghost ctxs: seq<Ctx>, ghost safe: bool)
      requires Pools() && Struct(rootLevel, treeRoot, inner, nvm, nvmpool.used) && LocksAre(inner, {})
      requires PathCtx(Graph(), rootLevel, treeRoot, key, parray, ppos, ctxs) && (safe ==> Durable())
      requires DeletePlanned(rootLevel, inner, parray, Chain(), Leaves(), ctxs, pos, e)
      modifies this, mempool, nvmpool
      ensures Valid() && Contents() == old(Contents()) - {e}
      ensures safe ==> Durable() && Tail(old(trace), trace, old(Contents()), Contents())
      ensures Ran(old(trace), trace, old(nvm), nvm)
      ensures old(CountBits(Leaves()[|ctxs[0].A|].m.bitmap) > 1 || rootLevel == 0) ==>
        && SameNodes(old(inner), old(rootLevel), old(treeRoot))
        && nvmpool.used == old(nvmpool.used) && nvmpool.Left() == old(nvmpool.Left()) && mempool.Left() == old(mempool.Left())
      ensures !old(CountBits(Leaves()[|ctxs[0].A|].m.bitmap) > 1 || rootLevel == 0) ==>
        && nvmpool.used == old(nvmpool.used) - {parray[0]} && nvmpool.Left() == old(nvmpool.Left()) + 1
        && var m := old(FirstWide(inner, parray, rootLevel, 1));
          && m < |ppos| && Pruned(old(inner), old(rootLevel), old(treeRoot), parray, ppos[m], m, inner, rootLevel, treeRoot)
          && mempool.Left() + |inner| == old(mempool.Left() + |inner|)
    {
      hide Pruned, Mempool.Left, Collapses, FirstWide, Ran, Struct, PathCtx, LocksAre, Recovery.Durable, View, Union, Tail, LeafList, Mempool.Valid, Wide, Covers, CountBits, EntriesOf, Entries, LeafOk;
      ghost var x := ctxs[0];
      var lp := parray[0];
      LeafHere(rootLevel, treeRoot, inner, nvm, nvmpool.used, x, safe);
      if CountBits(nvm.cells[lp].Now().m.bitmap) > 1 || rootLevel == 0 {
        RemoveEntry(lp, pos, x, safe);
      } else {
        DeleteLeaf(parray, ppos, key, e, ctxs, safe);
      }
    }

    /** The leaf is locked, and then the key goes. */
    method LockAndDelete(parray: seq<Ptr>, ppos: seq<nat>, pos: nat, ghost key: Key, ghost e: IdxEntry, ghost ctxs: seq<Ctx>, ghost safe: bool)
      requires Pools() && Struct(rootLevel, treeRoot, inner, nvm, nvmpool.used) && LocksAre(inner, {})
      requires PathCtx(Graph(), rootLevel, treeRoot, key, parray, ppos, ctxs) && (safe ==> Durable())
      requires |ctxs| > 0 && |ctxs[0].A| < |Leaves()| && ctxs[0].All() == Chain() && |parray| > 0 && ctxs[0].e.ch == parray[0]
      requires DeletePlanned(rootLevel, inner, parray, Chain(), Leaves()[|ctxs[0].A| := Relocked(Leaves()[|ctxs[0].A|], true)], ctxs, pos, e)
      modifies this, mempool, nvmpool
      ensures Valid() && Contents() == old(Contents()) - {e}
      ensures safe ==> Durable() && Tail(old(trace), trace, old(Contents()), Contents())
      ensures Ran(old(trace), trace, old(nvm), nvm)
      ensures old(CountBits(Leaves()[|ctxs[0].A|].m.bitmap) > 1 || rootLevel == 0) ==>
        && SameNodes(old(inner), old(rootLevel), old(treeRoot))
        && nvmpool.used == old(nvmpool.used) && nvmpool.Left() == old(nvmpool.Left()) && mempool.Left() == old(mempool.Left())
      ensures !old(CountBits(Leaves()[|ctxs[0].A|].m.bitmap) > 1 || rootLevel == 0) ==>
        && nvmpool.used == old(nvmpool.used) - {parray[0]} && nvmpool.Left() == old(nvmpool.Left()) + 1
        && var m := old(FirstWide(inner, parray, rootLevel, 1));
          && m < |ppos| && Pruned(old(inner), old(rootLevel), old(treeRoot), parray, ppos[m], m, inner, rootLevel, treeRoot)
          && mempool.Left() + |inner| == old(mempool.Left() + |inner|)
    {
      hide Pruned, FirstWide, Mempool.Left, Ran, Struct, CtxPath, PathCtx, LocksAre, Recovery.Durable, View, Union, Tail, LeafList, Mempool.Valid, Covers,
        DeletePlanned, Unlocked, UnlockedBut, Relocked, CountBits;
      ghost var x, C, T, s := ctxs[0], Contents(), trace, nvm;
      SameBits(Leaves()[|x.A|], true);
      LockLeaf(parray[0], true, x, safe);
      ghost var T1, s1 := trace, nvm;
      DeleteLocked(parray, ppos, pos, key, e, ctxs, safe);
      RanTwice(T, T1, trace, s, s1, nvm);
      if safe {
        TailWiden(T, T1, C, C - {e});
        TailTwice(T, T1, trace, C, C - {e});
      }
    }

    /** What the search has found out about the key's leaf. */
    lemma {:induction false} LastIs(parray: seq<Ptr>, ppos: seq<nat>, pos: nat, key: Key, ctxs: seq<Ctx>)
      requires Valid() && CtxPath(Graph(), Top(treeRoot), rootLevel, 0, key, parray, ppos, ctxs)
      requires Reached(nvm, Chain(), ctxs[0], parray[0], key) && HoldsAt(Leaves()[|ctxs[0].A|], pos, key)
      ensures parray == Way(key) == TreeState.Way(inner, treeRoot, rootLevel, key)
      ensures |parray| == |ppos| == rootLevel + 1 && forall l :: 1 <= l <= rootLevel ==> ppos[l] == TurnAt(inner, parray[l], key)
      ensures |ctxs[0].A| < |Leaves()| && (LastKey(key) <==> !(CountBits(Leaves()[|ctxs[0].A|].m.bitmap) > 1 || rootLevel == 0))
    {
      WayIs(inner, nvmpool.used, rootLevel, treeRoot, key, parray, ppos, ctxs);
      AtLeaf(rootLevel, treeRoot, inner, nvm, nvmpool.used, key, parray, ppos, ctxs);
      hide Struct, CtxPath, LocksAre, View, Union, LeafList, Covers, CountBits, Entries, LeafOk, Without, HasKey, TreeState.Way, Pools, Graph, HoldsAt;
      var x := Leaves()[|ctxs[0].A|];
      HeldKey(x, pos, key);
      OnlyEntry(x, key);
      assert LeafFor(key) == x;
    }

    /** `del` of a key that slot `pos` of the reached leaf holds. */
    method DeleteFound(parray: seq<Ptr>, ppos: seq<nat>, pos: nat, key: Key, ghost ctxs: seq<Ctx>, ghost safe: bool)
      requires Valid() && CtxPath(Graph(), Top(treeRoot), rootLevel, 0, key, parray, ppos, ctxs)
      requires Reached(nvm, Chain(), ctxs[0], parray[0], key) && HoldsAt(Leaves()[|ctxs[0].A|], pos, key)
      requires rootLevel == 0 || exists e :: e in Contents() && e.k != key
      requires safe ==> Durable()
      modifies this, mempool, nvmpool
      ensures Valid() && Contents() == old(Contents()) - {old(Leaves())[|ctxs[0].A|].ent[pos]}
      ensures safe ==> Durable() && Tail(old(trace), trace, old(Contents()), Contents())
      ensures Ran(old(trace), trace, old(nvm), nvm)
      ensures !old(LastKey(key)) ==>
        && SameNodes(old(inner), old(rootLevel), old(treeRoot))
        && nvmpool.used == old(nvmpool.used) && nvmpool.Left() == old(nvmpool.Left()) && mempool.Left() == old(mempool.Left())
      ensures old(LastKey(key)) ==>
        && PrunedFor(old(inner), old(rootLevel), old(treeRoot), key, inner, rootLevel, treeRoot)
        && nvmpool.used == old(nvmpool.used) - {old(Way(key))[0]} && nvmpool.Left() == old(nvmpool.Left()) + 1
        && mempool.Left() + |inner| == old(mempool.Left() + |inner|)
    {
      LastIs(parray, ppos, pos, key, ctxs);
      hide LBTree.Way, LBTree.LeafFor, LBTree.LastKey, Pruned, PrunedFor, FirstWide, Mempool.Left, Ran, Struct, CtxPath, LocksAre, Recovery.Durable, View, Union, Tail,
        LeafList, Mempool.Valid, Covers, DeletePlanned, Unlocked, Relocked, TreeState.Way, CountBits;
      CtxSizes(Graph(), Top(treeRoot), rootLevel, 0, key, parray, ppos, ctxs);
      ghost var inner0, h, root, e := inner, rootLevel, treeRoot, Leaves()[|ctxs[0].A|].ent[pos];
      DeletePlan(rootLevel, treeRoot, inner, nvm, nvmpool.used, key, parray, ppos, ctxs, pos);
      LockAndDelete(parray, ppos, pos, key, e, ctxs, safe);
      PrunedOnWay(inner0, h, root, key, parray, ppos, inner, rootLevel, treeRoot);
    }

    /**
     * `del`: remove the key if it is there, with the trace as for `insert`. Part 3 would climb past the root if the tree, of height at least
     * one, held no other key; see `LoopStays`.
     */
    method Delete(key: Key)
      requires Valid()
      requires rootLevel == 0 || !HasKey(Contents(), key) || exists e :: e in Contents() && e.k != key
      modifies this, mempool, nvmpool
      ensures Valid() && Contents() == Without(old(Contents()), key)
      ensures old(Durable()) ==> Durable() && Tail(old(trace), trace, old(Contents()), Contents())
      ensures Ran(old(trace), trace, old(nvm), nvm)
      ensures !old(LastKey(key)) ==>
        && SameNodes(old(inner), old(rootLevel), old(treeRoot))
        && nvmpool.used == old(nvmpool.used) && nvmpool.Left() == old(nvmpool.Left()) && mempool.Left() == old(mempool.Left())
      ensures old(LastKey(key)) ==>
        && PrunedFor(old(inner), old(rootLevel), old(treeRoot), key, inner, rootLevel, treeRoot)
        && nvmpool.used == old(nvmpool.used) - {old(Way(key))[0]} && nvmpool.Left() == old(nvmpool.Left()) + 1
        && mempool.Left() + |inner| == old(mempool.Left() + |inner|)
      ensures !old(HasKey(Contents(), key)) ==> nvm == old(nvm) && trace == old(trace)
      ensures rootLevel == old(rootLevel) - (if old(LastKey(key) && LastPair(inner, rootLevel, treeRoot, key)) then 1 else 0)
      ensures rootLevel < old(rootLevel) ==> treeRoot == old(OtherChild(key))
      ensures rootLevel == old(rootLevel) ==> treeRoot == old(treeRoot) && (rootLevel > 0 && old(RootNum(inner, treeRoot)) > 0 ==> RootNum(inner, treeRoot) > 0)
    {
      ghost var C, Y := Contents(), Leaves();
      TailSame(trace, C, C);
      RanNot(trace, nvm);
      var parray, ppos, isfull, pos, ctxs := Locate(key);
      UniqueContents(rootLevel, treeRoot, inner, nvm, nvmpool.used, key, pos, ctxs);
      WayApart(key, parray, ppos, ctxs);
      hide Struct, CtxPath, LocksAre, Recovery.Durable, View, Union, Tail, LeafList, Mempool.Valid, FullAbove, Reached, Ran, LBTree.Way, LBTree.LeafFor, LBTree.LastKey,
        PrunedFor, Mempool.Left, LastPair, RootNum, HasKey;
      ghost var inner0, h, root, last := inner, rootLevel, treeRoot, LastKey(key);
      if pos >= 0 {
        DeleteFound(parray, ppos, pos, key, ctxs, Durable());
        if last { HeightHere(inner0, h, root, key); }
      }
    }

    /** A key that is not there is alone in no leaf; and the root is on the way only once. */
    lemma {:induction false} WayApart(key: Key, parray: seq<Ptr>, ppos: seq<nat>, ctxs: seq<Ctx>)
      requires Struct(rootLevel, treeRoot, inner, nvm, nvmpool.used) && CtxPath(Graph(), Top(treeRoot), rootLevel, 0, key, parray, ppos, ctxs)
      ensures LastKey(key) ==> rootLevel > 0 && HasKey(Contents(), key)
      ensures forall i :: 0 <= i < rootLevel ==> Way(key)[i] != treeRoot
    {
      WayIs(inner, nvmpool.used, rootLevel, treeRoot, key, parray, ppos, ctxs);
      AtLeaf(rootLevel, treeRoot, inner, nvm, nvmpool.used, key, parray, ppos, ctxs);
      StructTree(rootLevel, treeRoot, inner, nvm, nvmpool.used);
      PathApart(inner, rootLevel, treeRoot, nvmpool.used, key, parray, ppos, ctxs);
      hide Struct, CtxPath, View, Union, LeafList, Covers, Entries, LeafOk, Without, HasKey, TreeState.Way, Graph;
    }

    lemma {:induction false} HeightHere(inner0: map<Ptr, Inner>, h: nat, root: Ptr, key: Key)
      requires h > 0 && PrunedFor(inner0, h, root, key, inner, rootLevel, treeRoot) && forall i :: 0 <= i < h ==> TreeState.Way(inner0, root, h, key)[i] != root
      ensures if LastPair(inner0, h, root, key) then rootLevel == h - 1 && treeRoot == OtherOf(inner0, root, key)
        else rootLevel == h && treeRoot == root && (RootNum(inner0, root) > 0 ==> RootNum(inner, treeRoot) > 0)
    {
      HeightAfter(inner0, h, root, key, inner, rootLevel, treeRoot);
    }

    // -------------------------------------------------------------- check

    /** `check`, on the addresses that aligned pools give: a tree between operations passes exactly if it holds a key. */
    method Check() returns (ok: bool)
      requires Struct(rootLevel, treeRoot, inner, nvm, nvmpool.used) && CheckMeaning.Aligned(inner, nvmpool.used)
      ensures ok <==> TreeCheck.Accepted(inner, CheckMeaning.LeafMap(nvm.cells), treeRoot, rootLevel, nvm.first[|nvm.first| - 1])
      ensures Valid() ==> (ok <==> Contents() != {})
    {
      hide Struct, TreeCheck.Known, TreeCheck.Accepted, CheckMeaning.Aligned, LocksAre, Unlocked, View, Union, LeafList, Pools;
      FirstThere(rootLevel, treeRoot, inner, nvm, nvmpool.used);
      ok := TreeCheck.Check(inner, CheckMeaning.LeafMap(nvm.cells), treeRoot, rootLevel, nvm.first[|nvm.first| - 1]);
      if Valid() { CheckMeaning.StructAccepted(rootLevel, treeRoot, inner, nvm, nvmpool.used); }
    }
  }

  /** The root can be visited, and the persistent `first_leaf` has a value. */
  lemma {:induction false} FirstThere(h: nat, root: Ptr, inner: map<Ptr, Inner>, s: State, leaves: set<Ptr>)
    requires Struct(h, root, inner, s, leaves)
    ensures |s.first| > 0 && TreeCheck.Known(inner, CheckMeaning.LeafMap(s.cells), root, h)
  {
    assert Top(root)[0].ch == root;
    assert Has(Level(GraphOf(inner), Top(root), h, h), root);
    CheckMeaning.StructKnown(h, root, inner, s, leaves, h, root);
  }
}
