/** Progress: a search that meets no lock answers or locks its nodes, and whoever holds a lock can run on to its return. */
module ConcurrentProgress {
  import opened Types
  import opened LeafNode
  import opened LeafOps
  import opened LeafSplit
  import opened Levels
  import opened TreeSteps
  import opened InnerNode
  import opened Pending
  import opened LeafLevel
  import opened TreeState
  import opened LbTree
  import opened Concurrent
  import opened ConcurrentInv
  import opened ConcurrentSteps
  import opened ConcurrentLeaf
  import opened ConcurrentTree
  import opened ConcurrentUp
  import opened ConcurrentGrow
  import opened ConcurrentRuns

  // ---------------------------------------------------------------- the search

  /** The lock bit of a node of either kind. */
  predicate LockedIn(m: Mem, p: Ptr) {
    (p in m.inner && m.inner[p].lock) || (p in m.leaf && m.leaf[p].m.lock)
  }

  /** Neither the root nor a node that covers the key on its level is locked, from level `h` down. */
  ghost predicate PathFree(s: Sys, key: Key) {
    !LockedIn(s.m, s.m.root) && FreeBelow(s, key, s.m.h)
  }

  ghost predicate FreeBelow(s: Sys, key: Key, i: nat) {
    i <= s.m.h && forall j, p :: 0 <= j <= i && CoversAt(Lv(s.v, s.m.h, j), p, key) ==> !LockedIn(s.m, p)
  }

  lemma {:induction false} FreeStep(s: Sys, key: Key, x: Ctx, i: nat)
    requires LogicalOk(s.v, s.m.h) && 0 < i <= s.m.h && x.All() == Lv(s.v, s.m.h, i) && Covers(x, key)
    ensures FreeBelow(s, key, i) <==> !LockedIn(s.m, x.e.ch) && FreeBelow(s, key, i - 1)
  {
    OnlyCover(s.v, s.m.h, i, x, key);
    hide LogicalOk, LockedIn, CoversAt, Lv, Ctx.All, Covers;
  }

  lemma {:induction false} FreeLeaf(s: Sys, key: Key, x: Ctx)
    requires LogicalOk(s.v, s.m.h) && x.All() == Lv(s.v, s.m.h, 0) && Covers(x, key)
    ensures FreeBelow(s, key, 0) <==> !LockedIn(s.m, x.e.ch)
  {
    OnlyCover(s.v, s.m.h, 0, x, key);
    hide LogicalOk, LockedIn, CoversAt, Lv, Ctx.All, Covers;
  }

  lemma {:induction false} OnlyCover(v: Logical, h: nat, i: nat, x: Ctx, key: Key)
    requires LogicalOk(v, h) && i <= h && x.All() == Lv(v, h, i) && Covers(x, key)
    ensures forall p :: CoversAt(Lv(v, h, i), p, key) <==> p == x.e.ch
  {
    CtxCovers(x, key);
    hide LogicalOk, CoversAt, Lv, Covers, Ctx.All;
    forall p | CoversAt(Lv(v, h, i), p, key) ensures p == x.e.ch { OneCovers(v, h, i, x, key, p); }
  }

  lemma {:induction false} OneCovers(v: Logical, h: nat, i: nat, x: Ctx, key: Key, p: Ptr)
    requires LogicalOk(v, h) && i <= h && x.All() == Lv(v, h, i) && Covers(x, key) && CoversAt(Lv(v, h, i), p, key)
    ensures p == x.e.ch
  {
    var y := CoversCtx(Lv(v, h, i), p, key);
    TreeLevel(v.g, v.lv.Keys, v.top, h, i);
    TreeOrdered(v.g, v.lv.Keys, Lv(v, h, i), i);
    CoversUnique(x, y, key);
  }

  /** A search ends exactly if no node on the way is locked. */
  lemma {:induction false} WalkFree(s: Sys, key: Key, x: Ctx, i: nat)
    requires LogicalOk(s.v, s.m.h) && MemOk(s) && i <= s.m.h && x.All() == Lv(s.v, s.m.h, i) && Covers(x, key)
    ensures SearchFrom(s.m, key, x.e.ch, i).Ended? <==> FreeBelow(s, key, i)
    decreases i
  {
    hide LogicalOk, MemOk, Covers, NodeOk, OpenInner, OpenLeaf, CoversAt, Position, Lv, Ctx.All, Kids, Down, FreeBelow;
    var p := x.e.ch;
    Opened(s, p);
    InTree(s, x, i);
    if i == 0 {
      FreeLeaf(s, key, x);
      Disjoint(s, p);
    } else {
      FreeStep(s, key, x, i);
      Disjoint(s, p);
      if !s.m.inner[p].lock {
        OpenKids(s, x, i);
        var c := PosIn(Children(s.m.inner[p]), key);
        WalkDown(s, key, x, i, c);
        WalkFree(s, key, Down(s.v.g, x, c), i - 1);
      }
    }
  }

  /** The search of a thread that was called ends exactly if no node of the key's path is locked. */
  lemma {:induction false} SearchEnds(s: Sys, key: Key)
    requires TreeInv(s)
    ensures SearchFrom(s.m, key, s.m.root, s.m.h).Ended? <==> PathFree(s, key)
  {
    hide LogicalOk, MemOk, ThreadOk, FreeBelow, SearchFrom;
    if s.v.top == Top(s.m.root) {
      var x := Ctx([], IdxEntry(0, s.m.root), []);
      assert x.All() == Top(s.m.root);
      WalkFree(s, key, x, s.m.h);
      RootFree(s, key, x);
    } else {
      RootLocked(s, key);
      WaitingRoot(s);
    }
  }

  lemma {:induction false} RootFree(s: Sys, key: Key, x: Ctx)
    requires LogicalOk(s.v, s.m.h) && x.All() == Lv(s.v, s.m.h, s.m.h) && Covers(x, key)
    ensures FreeBelow(s, key, s.m.h) ==> !LockedIn(s.m, x.e.ch)
  {
    hide LogicalOk, FreeBelow;
    if s.m.h > 0 { FreeStep(s, key, x, s.m.h); } else { FreeLeaf(s, key, x); }
  }

  lemma {:induction false} WaitingRoot(s: Sys)
    requires MemOk(s) && LogicalOk(s.v, s.m.h) && s.m.root in s.own && |s.v.top| == 2 && s.v.top[0] == IdxEntry(0, s.m.root)
    ensures LockedIn(s.m, s.m.root)
  {
    var x := Ctx([], s.v.top[0], [s.v.top[1]]);
    assert x.All() == s.v.top;
    InTree(s, x, s.m.h);
    hide LogicalOk;
    if s.m.h == 0 { assert LeafAt(s, s.m.root); } else { assert InnerAt(s, s.m.root); }
  }

  /** Deleting the key would empty its leaf under a parent: the structural delete, which these steps do not include. */
  ghost predicate Emptied(s: Sys, op: Op) {
    && op.Remove? && s.m.h > 0
    && exists p :: CoversAt(Lv(s.v, s.m.h, 0), p, op.key) && HasKey(EntriesOf(LeafIn(s.v.lv, p)), op.key) && Without(EntriesOf(LeafIn(s.v.lv, p)), op.key) == {}
  }

  /** The lookup's next step brings its answer, which is right for the contents, exactly if no node on the key's path is locked; memory stays as it is. */
  lemma {:induction false} LookupAnswers(s: Sys, t: Tid)
    requires TreeInv(s) && t in s.th && s.th[t].pc.Called? && s.th[t].op.Find?
    ensures Enabled(s, t, Search)
    ensures var s', key := Fire(s, t, Search), s.th[t].op.key;
      && t in s'.th && (PathFree(s, key) <==> s'.th[t].pc.Returning?) && (!PathFree(s, key) ==> s' == s)
      && s'.m == s.m && s'.v == s.v && s'.own == s.own
    ensures var s', key := Fire(s, t, Search), s.th[t].op.key;
      PathFree(s, key) ==>
        && Enabled(s', t, Return) && s'.hist == s.hist + [Event(t, s.th[t].op, s'.th[t].res)]
        && forall rec :: s'.th[t].res == Some(rec) <==> IdxEntry(key, rec) in Contents(s.v, s.m.h)
  {
    hide TreeInv, Found, Contents, SearchFrom, PathFree, RecOf;
    var key := s.th[t].op.key;
    SearchRight(s, key);
    SearchEnds(s, key);
    match SearchFrom(s.m, key, s.m.root, s.m.h)
    case Ended(node, pos) =>
      ArrivedAt(s, key, node, pos);
      ExactAnswer(Contents(s.v, s.m.h), Entries(s.m.leaf[node[0]]), key);
    case _ =>
  }

  lemma {:induction false} ExactAnswer(C: set<IdxEntry>, E: set<IdxEntry>, key: Key)
    requires E <= C && UniqueKeys(C) && (HasKey(C, key) <==> HasKey(E, key))
    ensures forall rec :: RecOf(E, key) == Some(rec) <==> IdxEntry(key, rec) in C
  {
    hide RecOf;
    forall rec ensures RecOf(E, key) == Some(rec) <==> IdxEntry(key, rec) in C {
      if IdxEntry(key, rec) in C { assert HasKey(C, key); }
    }
  }

  /** A search that meets no lock answers or locks what the operation changes; only a structural delete goes no further. */
  lemma {:induction false} SearchMovesOn(s: Sys, t: Tid)
    requires TreeInv(s) && t in s.th && s.th[t].pc.Called? && PathFree(s, s.th[t].op.key)
    ensures var pc, op, C := Searched(s, t).th[t].pc, s.th[t].op, Contents(s.v, s.m.h);
      match op
      case Find(_) => pc.Returning?
      case Put(key, _) => if HasKey(C, key) then pc.Returning? else pc.Storing?
      case Remove(key) => if Emptied(s, op) then Searched(s, t) == s else if HasKey(C, key) then pc.Erasing? else pc.Returning?
  {
    hide TreeInv, Found, Contents, SearchFrom, PathFree, Emptied, LockTop, PathSet, LockInner, Take, SetLeafLock, RecOf;
    var key := s.th[t].op.key;
    SearchRight(s, key);
    SearchEnds(s, key);
    match SearchFrom(s.m, key, s.m.root, s.m.h)
    case Ended(node, pos) =>
      ArrivedAt(s, key, node, pos);
      if s.th[t].op.Remove? {
        EmptiedAt(s, s.th[t].op, node[0]);
        if HasKey(Entries(s.m.leaf[node[0]]), key) { OnlyEntry(s.m.leaf[node[0]], key); }
      }
    case _ =>
  }

  lemma {:induction false} EmptiedAt(s: Sys, op: Op, p: Ptr)
    requires TreeInv(s) && op.Remove? && CoversAt(Lv(s.v, s.m.h, 0), p, op.key) && OpenLeaf(s, p) && s.m.leaf[p].Shape()
    ensures Emptied(s, op) <==> s.m.h > 0 && HasKey(Entries(s.m.leaf[p]), op.key) && Without(Entries(s.m.leaf[p]), op.key) == {}
  {
    hide TreeInv, CoversAt, Lv, Without, HasKey, Entries, LogicalOk, MemOk, ThreadOk;
    InvParts(s);
    var x := CoversCtx(Lv(s.v, s.m.h, 0), p, op.key);
    OnlyCover(s.v, s.m.h, 0, x, op.key);
    assert LeafIn(s.v.lv, p) == s.m.leaf[p];
  }

  // ---------------------------------------------------------------- outcomes of the node operations

  lemma {:induction false} Above(S: set<Ptr>) returns (b: Ptr)
    ensures b > 0 && forall p :: p in S ==> p < b
    decreases |S|
  {
    if q: Ptr :| q in S {
      b := Above(S - {q});
      assert forall p :: p in S ==> p == q || p in S - {q};
      if b <= q { b := q + 1; }
    } else {
      b := 1;
    }
  }

  /** There is always an address that is no node yet. */
  lemma {:induction false} NewAddress(m: Mem) returns (p: Ptr)
    ensures Fresh(m, p)
  {
    p := Above(m.inner.Keys + m.leaf.Keys);
    assert p !in m.inner.Keys + m.leaf.Keys;
  }

  lemma {:induction false} StoreOutcome(x: Leaf, e: IdxEntry) returns (y: Leaf)
    requires LeafOk(x) && !x.m.lock && !IsFull(x) && !HasKey(Entries(x), e.k)
    ensures NewLeaf(x, y, Entries(x) + {e})
  {
    var i := FirstClear(x.m.bitmap);
    AddEntryOk(x, i, e);
    y := AddEntry(x, i, e);
  }

  lemma {:induction false} EraseOutcome(x: Leaf, key: Key) returns (y: Leaf)
    requires LeafOk(x) && !x.m.lock && HasKey(Entries(x), key)
    ensures NewLeaf(x, y, Without(Entries(x), key))
  {
    var e :| e in Entries(x) && e.k == key;
    var i :| 0 <= i < LEAF_KEY_NUM && x.m.bitmap[i] && x.ent[i] == e;
    y := DropSlot(x, i);
    DropSlotOk(x, i);
  }

  function DropSlot(x: Leaf, i: nat): Leaf
    requires x.Shape() && i < LEAF_KEY_NUM
  {
    x.(m := x.m.(bitmap := x.m.bitmap[i := false]))
  }

  lemma {:induction false} DropSlotOk(x: Leaf, i: nat)
    requires LeafOk(x) && x.Used(i)
    ensures LeafOk(DropSlot(x, i)) && Entries(DropSlot(x, i)) == Without(Entries(x), x.ent[i].k)
  {
    var y := DropSlot(x, i);
    forall f | f in Entries(x) && f.k != x.ent[i].k ensures f in Entries(y) {
      var j :| 0 <= j < LEAF_KEY_NUM && x.m.bitmap[j] && x.ent[j] == f;
      assert y.m.bitmap[j];
    }
    forall f | f in Entries(y) ensures f in Entries(x) && f.k != x.ent[i].k {
      var j :| 0 <= j < LEAF_KEY_NUM && y.m.bitmap[j] && y.ent[j] == f;
      assert j != i && x.m.bitmap[j];
    }
  }

  /** The leaf with slot `i` alone. */
  function KeepSlot(x: Leaf, i: nat): Leaf
    requires x.Shape() && i < LEAF_KEY_NUM
  {
    x.(m := x.m.(bitmap := seq(LEAF_KEY_NUM, j => j == i)))
  }

  lemma {:induction false} KeepSlotOk(x: Leaf, i: nat)
    requires LeafOk(x) && x.Used(i)
    ensures LeafOk(KeepSlot(x, i)) && Entries(KeepSlot(x, i)) == {x.ent[i]}
  {
    var y := KeepSlot(x, i);
    assert y.m.bitmap[i] && y.ent[i] in Entries(y);
  }

  /** The valid slot with the largest key. */
  lemma {:induction false} Largest(x: Leaf, n: nat) returns (i: nat)
    requires LeafOk(x) && IsFull(x) && 0 < n <= LEAF_KEY_NUM
    ensures i < n && forall j :: 0 <= j < n ==> x.ent[j].k <= x.ent[i].k
  {
    if n == 1 {
      i := 0;
    } else {
      i := Largest(x, n - 1);
      if x.ent[i].k < x.ent[n - 1].k { i := n - 1; }
    }
  }

  /** The old leaf of a split, linked to the new one. */
  function Relinked(x: Leaf, p: Ptr, lock: bool): Leaf
    requires x.Shape()
  {
    Leaf(x.m.(lock := lock), x.ent, x.next[x.m.alt := p])
  }

  lemma {:induction false} RelinkedOk(x: Leaf, p: Ptr, lock: bool)
    requires LeafOk(x)
    ensures var y := Relinked(x, p, lock); LeafOk(y) && Entries(y) == Entries(x) && y.NextSibling() == p && y.m.lock == lock
  {
  }

  lemma {:induction false} SplitOutcome(x: Leaf, e: IdxEntry, p: Ptr, lock: bool) returns (y: Leaf, z: Leaf, k: Key)
    requires LeafOk(x) && !x.m.lock && IsFull(x) && !HasKey(Entries(x), e.k)
    ensures SplitDone(x, e, k, y, z) && y.NextSibling() == p && y.m.lock == lock
  {
    var i := Largest(x, LEAF_KEY_NUM);
    k := x.ent[i].k;
    var y0, z0 := DropSlot(x, i), KeepSlot(x, i);
    DropSlotOk(x, i);
    KeepSlotOk(x, i);
    AnyEntries(x, i);
    if e.k < k {
      AddEntryOk(y0, i, e);
      y0 := AddEntry(y0, i, e);
    } else {
      var j := if i == 0 then 1 else 0;
      AddEntryOk(z0, j, e);
      z0 := AddEntry(z0, j, e);
    }
    RelinkedOk(y0, p, lock);
    y, z := Relinked(y0, p, lock), z0;
  }

  lemma {:induction false} AnyEntries(x: Leaf, i: nat)
    requires LeafOk(x) && IsFull(x) && i < LEAF_KEY_NUM && forall j :: 0 <= j < LEAF_KEY_NUM ==> x.ent[j].k <= x.ent[i].k
    ensures x.ent[i] in Entries(x) && (forall f :: f in Entries(x) && f != x.ent[i] ==> f.k < x.ent[i].k)
    ensures Without(Entries(x), x.ent[i].k) + {x.ent[i]} == Entries(x) && Without(Entries(x), x.ent[i].k) != {}
  {
    var j := if i == 0 then 1 else 0;
    assert x.m.bitmap[i] && x.m.bitmap[j];
    assert x.ent[j] in Entries(x) && x.ent[i] in Entries(x) && x.ent[j].k != x.ent[i].k;
    assert x.ent[j] in Without(Entries(x), x.ent[i].k);
    forall f | f in Entries(x) && f != x.ent[i] ensures f.k < x.ent[i].k {
      var m :| 0 <= m < LEAF_KEY_NUM && x.m.bitmap[m] && x.ent[m] == f;
      assert x.ent[m].k != x.ent[i].k;
    }
  }

  /** An inner node with the given children. */
  function NodeOf(ks: seq<IdxEntry>, lock: bool): Inner {
    Inner(lock, |ks| - 1, seq(NON_LEAF_KEY_NUM + 1, i requires 0 <= i < NON_LEAF_KEY_NUM + 1 => if i < |ks| then ks[i] else IdxEntry(0, NULL)))
  }

  lemma {:induction false} NodeOfOk(ks: seq<IdxEntry>, lock: bool)
    requires 0 < |ks| <= NON_LEAF_KEY_NUM + 1
    ensures NodeOk(NodeOf(ks, lock)) && Children(NodeOf(ks, lock)) == ks
  {
  }

  // ---------------------------------------------------------------- the next step of a thread that holds locks

  /** The thread is past its search and has not finished. */
  predicate Working(pc: Pc) { !pc.Idle? && !pc.Called? && !pc.Returning? }

  /** A step of the program after the search, other than a store that is still under way. */
  predicate Onward(a: Action) {
    a.Store? || a.Erase? || a.SplitLeaf? || a.ReadLevel? || a.Decide? || a.Fill? || a.SplitInner? || a.Grow? || a.UnlockOld? || a.UnlockNew?
  }

  /** A bound on the steps to the return. */
  function Rank(pc: Pc, h: nat): nat {
    match pc
    case Storing(_, full, _) => if full then 5 + 3 * h else 1
    case Erasing(_, _) => 1
    case LeafDone(_, _) => 4 + 3 * h
    case Rising(_, _, lev, total) => if lev <= total then 6 + 3 * (total - lev) else 3
    case Splitting(_, _, lev, total, _) => if lev <= total then 5 + 3 * (total - lev) else 4
    case Filling(_, _, _, _) => 1
    case Grown(_, _, _) => 2
    case Unlocking(_) => 1
    case _ => 0
  }

  ghost predicate Nearer(s: Sys, t: Tid, a: Action) {
    && Enabled(s, t, a) && Onward(a) && t in s.th && t in Fire(s, t, a).th
    && Rank(Fire(s, t, a).th[t].pc, Fire(s, t, a).m.h) < Rank(s.th[t].pc, s.m.h)
    && !Fire(s, t, a).th[t].pc.Idle? && !Fire(s, t, a).th[t].pc.Called?
  }

  lemma {:induction false} HeldLeafOk(s: Sys, lp: Ptr, key: Key, orig: Leaf)
    requires LogicalOk(s.v, s.m.h) && LeafHeld(s.v, s.m.h, lp, key, orig)
    ensures LeafOk(orig) && !orig.m.lock && EntriesOf(orig) == Entries(orig)
  {
    KeyInLeaf(s.v, s.m.h, lp, key);
    hide Contents, CoversAt, Fits, Linked, Tree;
  }

  lemma {:induction false} StoringNext(s: Sys, t: Tid) returns (a: Action)
    requires TreeInv(s) && t in s.th && s.th[t].pc.Storing?
    ensures Nearer(s, t, a)
  {
    hide TreeInv, LogicalOk, MemOk, RoomOk, PathOk, LeafHeld, Holds, HasKey, IsFull, NewLeaf, SplitDone, Entries, EntriesOf, LeafOk, PathSet, Pend, Plain, Less;
    ThreadThere(s, t);
    InvParts(s);
    var pc, op := s.th[t].pc, s.th[t].op;
    HeldLeafOk(s, pc.w.node[0], op.key, pc.orig);
    OkShape(pc.orig);
    if pc.full {
      var p := NewAddress(s.m);
      var y, z, k := SplitOutcome(pc.orig, IdxEntry(op.key, op.rec), p, s.m.h == 0);
      a := SplitLeaf(y, z, IdxEntry(k, p));
      DoneShape(pc.orig, IdxEntry(op.key, op.rec), k, y, z);
    } else {
      var y := StoreOutcome(pc.orig, IdxEntry(op.key, op.rec));
      a := Store(y);
    }
  }

  lemma {:induction false} OkShape(x: Leaf)
    requires LeafOk(x)
    ensures x.Shape()
  {
  }

  lemma {:induction false} DoneShape(x: Leaf, e: IdxEntry, k: Key, y: Leaf, z: Leaf)
    requires SplitDone(x, e, k, y, z)
    ensures y.Shape()
  {
  }

  lemma {:induction false} ErasingNext(s: Sys, t: Tid) returns (a: Action)
    requires TreeInv(s) && t in s.th && s.th[t].pc.Erasing?
    ensures Nearer(s, t, a)
  {
    hide TreeInv, LogicalOk, MemOk, LeafHeld, Holds, HasKey, NewLeaf, Entries, EntriesOf, LeafOk, Plain, Less;
    ThreadThere(s, t);
    InvParts(s);
    var pc, op := s.th[t].pc, s.th[t].op;
    HeldLeafOk(s, pc.lp, op.key, pc.orig);
    OkShape(pc.orig);
    var y := EraseOutcome(pc.orig, op.key);
    a := Erase(y);
  }

  lemma {:induction false} RisingNext(s: Sys, t: Tid) returns (a: Action)
    requires TreeInv(s) && t in s.th && s.th[t].pc.Rising?
    ensures Nearer(s, t, a)
  {
    hide TreeInv, LogicalOk, MemOk, RoomOk, PathOk, Holds, PendOk, NodeOk, Children, KidsOf;
    ThreadThere(s, t);
    InvParts(s);
    var pc := s.th[t].pc;
    if pc.lev <= pc.total {
      a := Decide;
      DecideStep(s, t);
      NoCrash(Fire(s, t, a));
    } else {
      var r := NewAddress(s.m);
      NodeOfOk([IdxEntry(0, s.m.root), pc.n], true);
      a := Grow(r, NodeOf([IdxEntry(0, s.m.root), pc.n], true));
    }
  }

  lemma {:induction false} KidsWithPair(v: Logical, h: nat, w: Path, n: IdxEntry, lev: nat, was: Inner)
    requires PendOk(v, h, w, n, lev, was)
    ensures NodeOk(was) && lev < |w.pos| && w.pos[lev] <= was.num && |InsertAt(Children(was), w.pos[lev], n)| == was.num + 2
  {
  }

  lemma {:induction false} FillingNext(s: Sys, t: Tid) returns (a: Action)
    requires TreeInv(s) && t in s.th && s.th[t].pc.Filling?
    ensures Nearer(s, t, a)
  {
    hide TreeInv, LogicalOk, MemOk, Holds, PendOk, NodeOk, Children, InsertAt, NodeOf, TopOk;
    ThreadThere(s, t);
    var pc := s.th[t].pc;
    KidsWithPair(s.v, s.m.h, pc.w, pc.n, pc.lev, pc.was);
    KidCount(pc.was);
    var ks := InsertAt(Children(pc.was), pc.w.pos[pc.lev], pc.n);
    NodeOfOk(ks, false);
    a := Fill(NodeOf(ks, false));
    NodeOfLock(ks, false);
  }

  lemma {:induction false} NodeOfLock(ks: seq<IdxEntry>, lock: bool)
    ensures NodeOf(ks, lock).lock == lock
  {
  }

  lemma {:induction false} SplittingNext(s: Sys, t: Tid) returns (a: Action)
    requires TreeInv(s) && t in s.th && s.th[t].pc.Splitting?
    ensures Nearer(s, t, a)
  {
    hide TreeInv, LogicalOk, MemOk, Holds, PendOk, NodeOk, Children, InsertAt, NodeOf, TopOk, KidsOf, Pend;
    ThreadThere(s, t);
    var pc := s.th[t].pc;
    PendTop(s, pc.w, pc.n, pc.lev, pc.was);
    KidsWithPair(s.v, s.m.h, pc.w, pc.n, pc.lev, pc.was);
    KidCount(pc.was);
    var ks := InsertAt(Children(pc.was), pc.w.pos[pc.lev], pc.n);
    var kp, kq, last := ks[..LEFT_KEY_NUM + 1], ks[LEFT_KEY_NUM + 1..], pc.lev >= pc.total;
    NodeOfOk(kp, last);
    NodeOfOk(kq, false);
    NodeOfLock(kp, last);
    NodeOfLock(kq, false);
    var q := NewAddress(s.m);
    a := SplitInner(NodeOf(kp, last), NodeOf(kq, false), IdxEntry(ks[LEFT_KEY_NUM + 1].k, q));
  }

  /** A thread that is past its search always has a next step, and it brings the return nearer; in particular no thread waits while it holds a lock. */
  lemma {:induction false} NextStep(s: Sys, t: Tid) returns (a: Action)
    requires TreeInv(s) && t in s.th && Working(s.th[t].pc)
    ensures Nearer(s, t, a)
  {
    hide TreeInv, Nearer;
    NoCrash(s);
    var pc := s.th[t].pc;
    match pc
    case Storing(_, _, _) => a := StoringNext(s, t);
    case Erasing(_, _) => a := ErasingNext(s, t);
    case Rising(_, _, _, _) => a := RisingNext(s, t);
    case Filling(_, _, _, _) => a := FillingNext(s, t);
    case Splitting(_, _, _, _, _) => a := SplittingNext(s, t);
    case LeafDone(_, _) => a := ReadLevel; PlainNext(s, t, a);
    case Grown(_, _, _) => a := UnlockOld; PlainNext(s, t, a);
    case Unlocking(_) => a := UnlockNew; PlainNext(s, t, a);
  }

  lemma {:induction false} PlainNext(s: Sys, t: Tid, a: Action)
    requires Enabled(s, t, a) && (a.ReadLevel? || a.UnlockOld? || a.UnlockNew?)
    ensures Nearer(s, t, a)
  {
    hide UnlockNode, Less;
  }

  // ---------------------------------------------------------------- runs to the return

  /** What thread `t`'s steps from `s` to `s'` have done: its operation has taken effect once, if it had not before. */
  ghost predicate Answered(s: Sys, s': Sys, t: Tid)
    requires t in s.th
  {
    && Others(s, s', t) && s'.th[t].op == s.th[t].op && s'.th[t].done == s.th[t].done
    && if Past(s.th[t].pc) then Silent(s, s') && s'.th[t].res == s.th[t].res else Effective(s, s', t)
  }

  predicate StepsOf(sched: seq<(Tid, Action)>, t: Tid) {
    forall k :: 0 <= k < |sched| ==> sched[k].0 == t && Onward(sched[k].1)
  }

  /** One more step before a run. */
  lemma {:induction false} RunCons(s: Sys, t: Tid, a: Action, states: seq<Sys>, sched: seq<(Tid, Action)>)
    requires RunOk(states, sched) && Enabled(s, t, a) && states[0] == Fire(s, t, a)
    ensures RunOk([s] + states, [(t, a)] + sched)
  {
    hide Enabled, Fire;
    var S, D := [s] + states, [(t, a)] + sched;
    forall i | 0 <= i < |D| ensures StepAtRun(S, D, i) {
      if i > 0 { assert StepAtRun(states, sched, i - 1); }
    }
  }

  lemma {:induction false} AnsweredBefore(s: Sys, s1: Sys, s': Sys, t: Tid)
    requires Moved(s, s1, t) && Others(s, s1, t) && (Silent(s, s1) || Effective(s, s1, t)) && s1.th[t].op == s.th[t].op && s1.th[t].done == s.th[t].done
    requires !s.th[t].pc.Returning? && Answered(s1, s', t)
    ensures Answered(s, s', t)
  {
    hide Contents, ResOk, Applied, Past;
  }

  lemma {:induction false} NothingLeft(s: Sys, t: Tid)
    requires t in s.th && s.th[t].pc.Returning?
    ensures Answered(s, s, t) && RunOk([s], [])
  {
  }

  lemma {:induction false} RunSize(states: seq<Sys>, sched: seq<(Tid, Action)>)
    requires RunOk(states, sched)
    ensures |states| == |sched| + 1
  {
  }

  lemma {:induction false} OneMore(a: Action, t: Tid, sched: seq<(Tid, Action)>)
    requires Onward(a) && StepsOf(sched, t)
    ensures StepsOf([(t, a)] + sched, t) && !a.Call? && !a.Return?
  {
  }

  /** From any state, whatever the other threads are doing, a thread that is past its search can run on to its return by its own steps. */
  lemma {:induction false} Finish(s: Sys, t: Tid) returns (states: seq<Sys>, sched: seq<(Tid, Action)>)
    requires TreeInv(s) && t in s.th && !s.th[t].pc.Idle? && !s.th[t].pc.Called?
    ensures RunOk(states, sched) && states[0] == s && StepsOf(sched, t) && |sched| <= Rank(s.th[t].pc, s.m.h)
    ensures var s' := states[|sched|]; TreeInv(s') && t in s'.th && s'.th[t].pc.Returning? && Answered(s, s', t)
    decreases Rank(s.th[t].pc, s.m.h)
  {
    hide TreeInv, Fire, Enabled, Silent, Effective, Moved, Others, Answered, Rank, Onward, RunOk;
    if s.th[t].pc.Returning? {
      states, sched := [s], [];
      NothingLeft(s, t);
    } else {
      var a := NextStep(s, t);
      var s1 := Fire(s, t, a);
      AnyStep(s, t, a);
      NoCrash(s1);
      StepMoves(s, t, a);
      OneMore(a, t, []);
      states, sched := Finish(s1, t);
      RunSize(states, sched);
      AnsweredBefore(s, s1, states[|sched|], t);
      RunCons(s, t, a, states, sched);
      OneMore(a, t, sched);
      states, sched := [s] + states, [(t, a)] + sched;
    }
  }

  // ---------------------------------------------------------------- whole operations

  /** One more step after a run. */
  lemma {:induction false} RunSnoc(states: seq<Sys>, sched: seq<(Tid, Action)>, t: Tid, a: Action)
    requires RunOk(states, sched) && Enabled(states[|sched|], t, a)
    ensures RunOk(states + [Fire(states[|sched|], t, a)], sched + [(t, a)])
  {
    hide Enabled, Fire;
    var S, D := states + [Fire(states[|sched|], t, a)], sched + [(t, a)];
    forall i | 0 <= i < |D| ensures StepAtRun(S, D, i) {
      if i < |sched| { assert StepAtRun(states, sched, i); }
    }
  }

  /** A run after a run. */
  lemma {:induction false} RunJoin(A: seq<Sys>, x: seq<(Tid, Action)>, B: seq<Sys>, y: seq<(Tid, Action)>)
    requires RunOk(A, x) && RunOk(B, y) && A[|x|] == B[0]
    ensures RunOk(A + B[1..], x + y) && (A + B[1..])[|x + y|] == B[|y|] && (A + B[1..])[0] == A[0]
  {
    hide Enabled, Fire;
    var S, D := A + B[1..], x + y;
    forall i | 0 <= i < |D| ensures StepAtRun(S, D, i) {
      if i < |x| { assert StepAtRun(A, x, i); } else { assert StepAtRun(B, y, i - |x|); }
    }
  }

  /** The schedule of one operation: call, search, the steps of the operation, return. */
  predicate OneOp(sched: seq<(Tid, Action)>, t: Tid, op: Op) {
    && |sched| >= 3 && sched[0] == (t, Call(op)) && sched[1] == (t, Search) && sched[|sched| - 1] == (t, Return)
    && StepsOf(sched[2..|sched| - 1], t)
  }

  /** The operation has been called and has returned, took effect once in between, on the contents before, and answered right. */
  ghost predicate Ran(s: Sys, s': Sys, t: Tid, op: Op)
    requires t in s.th
  {
    && Others(s, s', t) && s'.th[t].pc.Idle? && s'.th[t].done == s.th[t].done + 1 && s'.hist == s.hist + [Event(t, op, s'.th[t].res)]
    && ResOk(Contents(s.v, s.m.h), op, s'.th[t].res) && Contents(s'.v, s'.m.h) == Applied(Contents(s.v, s.m.h), op)
  }

  lemma {:induction false} CallKeeps(s: Sys, t: Tid, op: Op)
    requires TreeInv(s) && t in s.th && s.th[t].pc.Idle? && PathFree(s, op.key) && !Emptied(s, op)
    ensures var s1 := Fire(s, t, Call(op));
      && TreeInv(s1) && Others(s, s1, t) && s1.th[t].pc.Called? && s1.th[t].op == op && s1.th[t].done == s.th[t].done && s1.m == s.m && s1.v == s.v && s1.hist == s.hist
      && PathFree(s1, op.key) && !Emptied(s1, op)
  {
    hide TreeInv;
    CallStep(s, t, op);
  }

  /**
   * Whatever the other threads are doing: if no node on the key's path is locked, an operation can be called, run and return by its own
   * steps alone, and it does to the contents, and answers, what it should.
   */
  lemma {:induction false} OpRuns(s: Sys, t: Tid, op: Op) returns (states: seq<Sys>, sched: seq<(Tid, Action)>)
    requires TreeInv(s) && t in s.th && s.th[t].pc.Idle? && PathFree(s, op.key) && !Emptied(s, op)
    ensures RunOk(states, sched) && states[0] == s && OneOp(sched, t, op)
    ensures TreeInv(states[|sched|]) && Ran(s, states[|sched|], t, op)
  {
    hide TreeInv, Fire, Emptied, PathFree, Contents, ResOk, Applied, RunOk, Searched;
    var s1 := Fire(s, t, Call(op));
    CallKeeps(s, t, op);
    var s2 := Fire(s1, t, Search);
    SearchedThen(s1, t);
    states, sched := Finish(s2, t);
    RunSize(states, sched);
    var s3 := states[|sched|];
    AnsweredBefore(s1, s2, s3, t);
    ReturnStep(s3, t);
    Returned(s, s1, s3, t, op);
    RunSnoc(states, sched, t, Return);
    RunCons(s1, t, Search, states + [Fire(s3, t, Return)], sched + [(t, Return)]);
    RunCons(s, t, Call(op), [s1] + (states + [Fire(s3, t, Return)]), [(t, Search)] + (sched + [(t, Return)]));
    states := [s] + ([s1] + (states + [Fire(s3, t, Return)]));
    var D := [(t, Call(op))] + ([(t, Search)] + (sched + [(t, Return)]));
    assert D[2..|D| - 1] == sched;
    sched := D;
  }

  lemma {:induction false} SearchedThen(s: Sys, t: Tid)
    requires TreeInv(s) && t in s.th && s.th[t].pc.Called? && PathFree(s, s.th[t].op.key) && !Emptied(s, s.th[t].op)
    ensures Enabled(s, t, Search)
    ensures var s' := Fire(s, t, Search);
      && TreeInv(s') && Moved(s, s', t) && Others(s, s', t) && (Silent(s, s') || Effective(s, s', t)) && s'.th[t].op == s.th[t].op && s'.th[t].done == s.th[t].done
      && !s'.th[t].pc.Idle? && !s'.th[t].pc.Called?
  {
    hide TreeInv, PathFree, Emptied, Contents, Searched, Silent, Effective, HasKey;
    SearchStep(s, t);
    SearchMovesOn(s, t);
    NoCrash(Searched(s, t));
    SearchMoves(s, t);
  }

  lemma {:induction false} Returned(s: Sys, s1: Sys, s3: Sys, t: Tid, op: Op)
    requires t in s.th && t in s1.th && s1.th[t].pc.Called? && s1.th[t].op == op && s1.th[t].done == s.th[t].done && s1.m == s.m && s1.v == s.v && s1.hist == s.hist
    requires Others(s, s1, t) && Answered(s1, s3, t) && s3.th[t].pc.Returning?
    ensures Enabled(s3, t, Return) && Ran(s, Fire(s3, t, Return), t, op)
  {
    hide Contents, ResOk, Applied;
  }

  /** A tree at rest in memory, with threads that have not begun. */
  ghost function RestState(m: Mem, th: map<Tid, Thread>): Sys { Sys(m, th, Logical(GraphOf(m.inner), Top(m.root), m.leaf), map[], []) }

  /** On a tree at rest an operation can always run from its call to its return, and it leaves a tree at rest with the right contents. */
  lemma {:induction false} RestRuns(m: Mem, th: map<Tid, Thread>, t: Tid, op: Op) returns (states: seq<Sys>, sched: seq<(Tid, Action)>)
    requires WholeMem(m) && t in th && (forall u :: u in th ==> th[u].pc.Idle? && th[u].done == 0) && !Emptied(RestState(m, th), op)
    ensures RunOk(states, sched) && states[0] == RestState(m, th) && OneOp(sched, t, op)
    ensures var s' := states[|sched|];
      && WholeMem(s'.m) && MemContents(s'.m) == Applied(MemContents(m), op)
      && s'.th.Keys == th.Keys && ResOk(MemContents(m), op, s'.th[t].res) && forall u :: u in s'.th ==> s'.th[u].pc.Idle?
  {
    hide WholeMem, Emptied, RunOk, OneOp, TreeInv, Contents, MemContents, ResOk, Applied, PathFree;
    var s := RestState(m, th);
    StartOf(m, th);
    RestFree(m, th, op.key);
    states, sched := OpRuns(s, t, op);
    RunSize(states, sched);
    WholeAtRest(states[|sched|]);
  }

  lemma {:induction false} RestFree(m: Mem, th: map<Tid, Thread>, key: Key)
    requires WholeMem(m)
    ensures PathFree(RestState(m, th), key)
  {
    hide Tree, Fits, Linked, CoversAt, Lv;
  }

  // ---------------------------------------------------------------- no deadlock

  function Workers(th: map<Tid, Thread>): set<Tid> { set t | t in th && Working(th[t].pc) }

  predicate Onwards(sched: seq<(Tid, Action)>) {
    forall k :: 0 <= k < |sched| ==> Onward(sched[k].1)
  }

  /** The threads that were called wait for nothing that cannot be had: those that are working can all finish, one after the other. */
  lemma {:induction false} Drain(s: Sys) returns (states: seq<Sys>, sched: seq<(Tid, Action)>)
    requires TreeInv(s)
    ensures RunOk(states, sched) && states[0] == s && Onwards(sched)
    ensures var s' := states[|sched|];
      && TreeInv(s') && s'.th.Keys == s.th.Keys && Workers(s'.th) == {} && forall u :: u in s.th && !Working(s.th[u].pc) ==> s'.th[u] == s.th[u]
    decreases |Workers(s.th)|
  {
    hide TreeInv, Answered, Enabled, Fire;
    if t :| t in Workers(s.th) {
      var A, x := Finish(s, t);
      var s1 := A[|x|];
      OthersOf(s, s1, t);
      FewerWorkers(s, s1, t);
      var B, y := Drain(s1);
      RunJoin(A, x, B, y);
      states, sched := A + B[1..], x + y;
    } else {
      states, sched := [s], [];
    }
  }

  lemma {:induction false} OthersOf(s: Sys, s': Sys, t: Tid)
    requires t in s.th && Answered(s, s', t)
    ensures Others(s, s', t) && s'.th[t].op == s.th[t].op && s'.th[t].done == s.th[t].done
  {
  }

  lemma {:induction false} FewerWorkers(s: Sys, s': Sys, t: Tid)
    requires Others(s, s', t) && t in Workers(s.th) && s'.th[t].pc.Returning?
    ensures |Workers(s'.th)| < |Workers(s.th)|
  {
    assert Workers(s'.th) == Workers(s.th) - {t};
  }

  lemma {:induction false} Unowned(s: Sys, p: Ptr)
    requires TreeInv(s) && Workers(s.th) == {}
    ensures p !in s.own
  {
    hide LogicalOk, PcOk;
    var t := if p in s.own then s.own[p] else 0;
    assert p in s.own ==> t in s.th;
    assert t in s.th ==> ThreadOk(s, t) && t !in Workers(s.th);
    assert t in s.th ==> (Owns(s.own, t, p) <==> p in HeldBy(s.th[t].pc));
  }

  /** Without a working thread no node is locked. */
  lemma {:induction false} NoLocks(s: Sys, key: Key)
    requires TreeInv(s) && Workers(s.th) == {}
    ensures PathFree(s, key)
  {
    hide LogicalOk, ThreadOk, CoversAt, Lv;
    forall p ensures !LockedIn(s.m, p) {
      Unowned(s, p);
      if p in s.m.inner { assert InnerAt(s, p); }
      if p in s.m.leaf { assert LeafAt(s, p); }
    }
  }

  /** No deadlock: in every state of every run, every lookup and insert that was called can be scheduled to its return. */
  lemma {:induction false} NoDeadlock(s: Sys, t: Tid) returns (states: seq<Sys>, sched: seq<(Tid, Action)>)
    requires TreeInv(s) && t in s.th && s.th[t].pc.Called? && !s.th[t].op.Remove?
    ensures RunOk(states, sched) && states[0] == s
    ensures var s' := states[|sched|]; TreeInv(s') && t in s'.th && s'.th[t].pc.Returning? && s'.th[t].op == s.th[t].op && s'.th[t].done == s.th[t].done
  {
    hide TreeInv, PathFree, Answered, Enabled, Fire, Moved, Silent, Effective;
    var A, x := Drain(s);
    var s1 := A[|x|];
    NoLocks(s1, s.th[t].op.key);
    assert s1.th[t] == s.th[t];
    NotRemove(s1, s.th[t].op);
    SearchedThen(s1, t);
    var s2 := Fire(s1, t, Search);
    RunSnoc(A, x, t, Search);
    var B, y := Finish(s2, t);
    OthersOf(s2, B[|y|], t);
    RunJoin(A + [s2], x + [(t, Search)], B, y);
    states, sched := (A + [s2]) + B[1..], (x + [(t, Search)]) + y;
  }

  lemma {:induction false} NotRemove(s: Sys, op: Op)
    requires !op.Remove?
    ensures !Emptied(s, op)
  {
  }
}
