/**
 * Part 1 of `del` among other threads. When the leaf's last key goes and the left sibling is locked, `del` starts again without
 * clearing the leaf's lock bit, and nobody ever clears it.
 */
module DeleteRetry {
  import opened Types
  import opened LeafNode
  import opened Levels
  import opened TreeSteps
  import opened InnerNode
  import opened Pending
  import opened LeafLevel
  import opened TreeState
  import opened DeleteSteps
  import opened Concurrent
  import opened ConcurrentInv
  import opened ConcurrentLeaf
  import opened ConcurrentSteps
  import opened ConcurrentGrow
  import opened ConcurrentRuns
  import opened SmallTrees

  // ---------------------------------------------------------------- the left sibling

  /** The lowest level from `i` on at which the path does not go through the first child, or `|pos|`. */
  function Turn(pos: seq<nat>, i: nat): (t: nat)
    ensures i <= |pos| ==> i <= t <= |pos| && (forall j :: i <= j < t ==> pos[j] == 0) && (t < |pos| ==> pos[t] >= 1)
    decreases |pos| - i
  {
    if i >= |pos| then |pos| else if pos[i] >= 1 then i else Turn(pos, i + 1)
  }

  /** Down along last children from node `p` of level `i`; None if a pointer leads to no node. */
  function LastDown(m: Mem, p: Ptr, i: nat): Option<Ptr>
    decreases i
  {
    if i == 0 then if p in m.leaf then Some(p) else None
    else if p !in m.inner || !NodeOk(m.inner[p]) then None
    else LastDown(m, Children(m.inner[p])[m.inner[p].num].ch, i - 1)
  }

  /** The descent meets no locked inner node. */
  predicate ClearDown(m: Mem, p: Ptr, i: nat)
    decreases i
  {
    i > 0 && p in m.inner ==> !m.inner[p].lock && (NodeOk(m.inner[p]) ==> ClearDown(m, Children(m.inner[p])[m.inner[p].num].ch, i - 1))
  }

  /** Where the descent starts: the child to the left of the path at level `t`. */
  function TurnedTo(m: Mem, node: seq<Ptr>, pos: seq<nat>, t: nat): Option<Ptr> {
    if t < |pos| && t < |node| && node[t] in m.inner && NodeOk(m.inner[node[t]]) && 1 <= pos[t] <= m.inner[node[t]].num then
      Some(Children(m.inner[node[t]])[pos[t] - 1].ch)
    else None
  }

  /** The left-sibling search of `del`, once a level to turn at is found. */
  function Sibling(m: Mem, node: seq<Ptr>, pos: seq<nat>): Option<Ptr> {
    var t := Turn(pos, 1);
    match TurnedTo(m, node, pos, t)
    case None => None
    case Some(p) => if t > 0 then LastDown(m, p, t - 1) else None
  }

  predicate ClearSearch(m: Mem, node: seq<Ptr>, pos: seq<nat>) {
    var t := Turn(pos, 1);
    t > 0 && TurnedTo(m, node, pos, t).Some? ==> ClearDown(m, TurnedTo(m, node, pos, t).value, t - 1)
  }

  // ---------------------------------------------------------------- Part 1 as one step

  /** How Part 1 ends. */
  datatype Part1 =
    | Blocked                                        // a locked node on the way: it starts again
    | Astray                                         // a pointer to no node
    | Absent                                         // the key is not there
    | Retry                                          // the left sibling is locked: it starts again
    | Alone(lp: Ptr)                                 // the leaf keeps other keys
    | Branch(lp: Ptr, sib: Option<Ptr>, up: set<Ptr>) // the leaf goes, with the nodes of its branch

  /** The nodes whose lock bits the rest of `del` will clear, or which it will free. */
  function Held(o: Part1): set<Ptr> {
    match o
    case Alone(lp) => {lp}
    case Branch(lp, sib, up) => {lp} + up + if sib.Some? then {sib.value} else {}
    case _ => {}
  }

  /** The level up to which the ancestors are locked: the first from level `i` on with at least two children, or the root's. */
  function BranchTop(m: Mem, node: seq<Ptr>, i: nat): nat
    decreases m.h - i
  {
    if i >= m.h || i >= |node| then m.h else if node[i] in m.inner && m.inner[node[i]].num >= 1 then i else BranchTop(m, node, i + 1)
  }

  /** The atomic step under `tree_lock`: its outcome, and memory with the lock bits it has set. */
  ghost function DelPart1(m: Mem, key: Key): (Part1, Mem) {
    match SearchFrom(m, key, m.root, m.h)
    case Blocked => (Part1.Blocked, m)
    case Lost => (Astray, m)
    case Ended(node, pos) =>
      if node == [] || node[0] !in m.leaf || !m.leaf[node[0]].Shape() then (Astray, m)
      else if !HasKey(Entries(m.leaf[node[0]]), key) then (Absent, m)
      else LockFor(m, node, pos)
  }

  ghost function LockFor(m: Mem, node: seq<Ptr>, pos: seq<nat>): (Part1, Mem)
    requires node != [] && node[0] in m.leaf
  {
    var lp := node[0];
    var m1 := m.(leaf := SetLeafLock(m.leaf, lp, true));
    if CountBits(m.leaf[lp].m.bitmap) != 1 then (Alone(lp), m1)
    else
      var up := if m.h == 0 then {} else PathSet(node, 1, BranchTop(m, node, 1));
      if m.h == 0 || Turn(pos, 1) >= |pos| then (Branch(lp, None, up), m1.(inner := LockInner(m.inner, up)))
      else
        match Sibling(m, node, pos)
        case None => (Astray, m1)
        case Some(sib) =>
          if sib !in m1.leaf then (Astray, m1)
          else if m1.leaf[sib].m.lock then (Retry, m1)
          else (Branch(lp, Some(sib), up), m1.(leaf := SetLeafLock(m1.leaf, sib, true), inner := LockInner(m.inner, up)))
  }

  /** The nodes with a lock bit set. */
  function LockedIn(m: Mem): set<Ptr> { (set p | p in m.inner && m.inner[p].lock) + set p | p in m.leaf && m.leaf[p].m.lock }

  /** A lock bit that the step has set and that nothing is going to clear. */
  ghost predicate LeavesBit(m: Mem, key: Key) {
    var (o, m') := DelPart1(m, key);
    o != Astray && exists p :: p in LockedIn(m') && p !in LockedIn(m) && p !in Held(o)
  }

  /** The search for the key ends at a leaf that holds nothing else. */
  ghost predicate LastKey(m: Mem, key: Key, node: seq<Ptr>, pos: seq<nat>) {
    && SearchFrom(m, key, m.root, m.h) == Ended(node, pos) && node != [] && node[0] in m.leaf && m.leaf[node[0]].Shape()
    && HasKey(Entries(m.leaf[node[0]]), key) && CountBits(m.leaf[node[0]].m.bitmap) == 1
  }

  /** The last key of a leaf is to go, and the sibling that the search for it finds is locked. */
  ghost predicate Busy(m: Mem, key: Key) {
    match SearchFrom(m, key, m.root, m.h)
    case Ended(node, pos) =>
      && LastKey(m, key, node, pos) && m.h > 0 && Turn(pos, 1) < |pos|
      && match Sibling(m, node, pos) {
           case Some(sib) => sib in m.leaf && (sib == node[0] || m.leaf[sib].m.lock)
           case None => false
         }
    case _ => false
  }

  /** Exactly then the step leaves a bit set that it does not hold. */
  lemma {:induction false} LeavesBitIff(m: Mem, key: Key)
    requires m.inner.Keys !! m.leaf.Keys
    ensures LeavesBit(m, key) <==> Busy(m, key)
  {
    hide SearchFrom, HasKey, Entries, CountBits, Sibling, Turn, NodeOk, BranchTop, PathSet;
    var r := SearchFrom(m, key, m.root, m.h);
    if r.Ended? && r.node != [] && r.node[0] in m.leaf && m.leaf[r.node[0]].Shape() && HasKey(Entries(m.leaf[r.node[0]]), key) {
      SearchOpen(m, key, m.root, m.h);
      LockForBits(m, r.node, r.pos);
    }
  }

  lemma {:induction false} SearchOpen(m: Mem, key: Key, p: Ptr, i: nat)
    ensures var r := SearchFrom(m, key, p, i); r.Ended? ==> |r.node| == |r.pos| == i + 1 && r.node[0] in m.leaf && !m.leaf[r.node[0]].m.lock
    decreases i
  {
    if i > 0 && p in m.inner && NodeOk(m.inner[p]) {
      var c := PosIn(Children(m.inner[p]), key);
      SearchOpen(m, key, Children(m.inner[p])[c].ch, i - 1);
    }
  }

  lemma {:induction false} LockForBits(m: Mem, node: seq<Ptr>, pos: seq<nat>)
    requires node != [] && node[0] in m.leaf && !m.leaf[node[0]].m.lock
    ensures var (o, m') := LockFor(m, node, pos);
      (o != Astray && exists p :: p in LockedIn(m') && p !in LockedIn(m) && p !in Held(o)) <==> o == Retry && node[0] !in LockedIn(m)
  {
    hide CountBits, Sibling, Turn, BranchTop, PathSet;
    var (o, m') := LockFor(m, node, pos);
    assert node[0] in LockedIn(m');
  }

  // ---------------------------------------------------------------- the sibling is the leaf before

  lemma {:induction false} PlaceCtx(s: Sys, key: Key, node: seq<Ptr>, pos: seq<nat>, i: nat) returns (x: Ctx)
    requires Found(s, key, node, pos, s.m.h) && i <= s.m.h
    ensures x.All() == Lv(s.v, s.m.h, i) && x.e.ch == node[i]
  {
    hide Has, CoversAt, OpenInner, OpenLeaf, LinkOk;
    assert PlaceOk(s.v, s.m.h, Path(node, pos, s.m.h), i);
    x := HasCtx(Lv(s.v, s.m.h, i), node[i]);
  }

  lemma {:induction false} HasCtx(L: seq<IdxEntry>, p: Ptr) returns (x: Ctx)
    requires Has(L, p)
    ensures x.All() == L && x.e.ch == p
  {
    var i :| 0 <= i < |L| && L[i].ch == p;
    x := Ctx(L[..i], L[i], L[i + 1..]);
  }

  lemma {:induction false} PathDown(s: Sys, key: Key, node: seq<Ptr>, pos: seq<nat>, x: Ctx, i: nat)
    requires LogicalOk(s.v, s.m.h) && Found(s, key, node, pos, s.m.h) && 0 < i <= s.m.h && x.All() == Lv(s.v, s.m.h, i) && x.e.ch == node[i]
    ensures Closed(s.v.g, x.All()) && OpenInner(s, node[i]) && node[i] in s.v.g && pos[i] < |s.v.g[node[i]]| && pos[i] < |Kids(s.v.g, x.e)|
    ensures var y := Down(s.v.g, x, pos[i]); y.All() == Lv(s.v, s.m.h, i - 1) && y.e.ch == node[i - 1]
  {
    hide CoversAt, OpenInner, OpenLeaf, PlaceOk, Tree, Kids, Closed, Down, Level, Ctx.All;
    assert LinkOk(s.v, Path(node, pos, s.m.h), i) && OpenInner(s, node[i]);
    LevelClosed(s.v.g, s.v.lv.Keys, s.v.top, s.m.h, i);
    KidsAt(s.v.g, x.e);
    DownKid(s.v.g, x, pos[i]);
    DownAll(s.v.g, x, pos[i]);
    LevelDown(s.v.g, s.v.top, s.m.h, i - 1);
  }

  lemma {:induction false} OneCtx(s: Sys, x: Ctx, y: Ctx, i: nat)
    requires LogicalOk(s.v, s.m.h) && i <= s.m.h && x.All() == Lv(s.v, s.m.h, i) == y.All() && x.e.ch == y.e.ch
    ensures x == y && (x.A != [] ==> x.A[|x.A| - 1].ch != x.e.ch)
  {
    TreeLevel(s.v.g, s.v.lv.Keys, s.v.top, s.m.h, i);
    TreeOrdered(s.v.g, s.v.lv.Keys, Lv(s.v, s.m.h, i), i);
    CtxUnique(x, y);
    var L := x.All();
    if x.A != [] { assert L[|x.A| - 1] == x.A[|x.A| - 1] && L[|x.A|] == x.e; }
  }

  /** Down along last children, beside a path through first children. */
  lemma {:induction false} DownLeft(s: Sys, key: Key, node: seq<Ptr>, pos: seq<nat>, x: Ctx, p: Ptr, i: nat, x0: Ctx)
    requires LogicalOk(s.v, s.m.h) && MemOk(s) && Found(s, key, node, pos, s.m.h) && i <= s.m.h && x.All() == Lv(s.v, s.m.h, i) && x.e.ch == node[i]
    requires LeftOf(x, p) && (forall j :: 1 <= j <= i ==> pos[j] == 0) && ClearDown(s.m, p, i) && x0.All() == Lv(s.v, s.m.h, 0) && x0.e.ch == node[0]
    ensures LastDown(s.m, p, i).Some? && LeftOf(x0, LastDown(s.m, p, i).value)
    decreases i
  {
    hide LogicalOk, MemOk, Found, LeftOf, Kids, Closed, Down, Ctx.All, OpenInner;
    if i == 0 {
      OneCtx(s, x, x0, 0);
      LeftThere(s, x, p);
    } else {
      PathDown(s, key, node, pos, x, i);
      StayLeft(s.v.g, x, p);
      LeftInner(s, x, p, i);
      DownLeft(s, key, node, pos, Down(s.v.g, x, 0), s.v.g[p][|s.v.g[p]| - 1].ch, i - 1, x0);
    }
  }

  lemma {:induction false} LeftThere(s: Sys, x: Ctx, p: Ptr)
    requires LogicalOk(s.v, s.m.h) && MemOk(s) && x.All() == Lv(s.v, s.m.h, 0) && LeftOf(x, p)
    ensures p in s.m.leaf
  {
    TreeLevel(s.v.g, s.v.lv.Keys, s.v.top, s.m.h, 0);
    assert x.All()[|x.A| - 1] == x.A[|x.A| - 1];
  }

  lemma {:induction false} LeftInner(s: Sys, x: Ctx, p: Ptr, i: nat)
    requires LogicalOk(s.v, s.m.h) && MemOk(s) && 0 < i <= s.m.h && x.All() == Lv(s.v, s.m.h, i) && LeftOf(x, p) && p in s.v.g && s.v.g[p] != [] && ClearDown(s.m, p, i)
    ensures p in s.m.inner && NodeOk(s.m.inner[p]) && Children(s.m.inner[p]) == s.v.g[p] && s.m.inner[p].num == |s.v.g[p]| - 1
    ensures ClearDown(s.m, s.v.g[p][|s.v.g[p]| - 1].ch, i - 1)
  {
    hide LogicalOk;
    assert p in s.m.inner;
    Opened(s, p);
  }

  /** With no level to turn at, the leaf is the first. */
  lemma {:induction false} DownFirst(s: Sys, key: Key, node: seq<Ptr>, pos: seq<nat>, x: Ctx, i: nat, x0: Ctx)
    requires LogicalOk(s.v, s.m.h) && Found(s, key, node, pos, s.m.h) && i <= s.m.h && x.All() == Lv(s.v, s.m.h, i) && x.e.ch == node[i] && x.A == []
    requires (forall j :: 1 <= j <= i ==> pos[j] == 0) && x0.All() == Lv(s.v, s.m.h, 0) && x0.e.ch == node[0]
    ensures x0.A == []
    decreases i
  {
    hide LogicalOk, Found, Kids, Closed, Down, Ctx.All, OpenInner;
    if i == 0 {
      OneCtx(s, x, x0, 0);
    } else {
      PathDown(s, key, node, pos, x, i);
      NoneLeft(s.v.g, x);
      DownFirst(s, key, node, pos, Down(s.v.g, x, 0), i - 1, x0);
    }
  }

  lemma {:induction false} FoundLengths(s: Sys, key: Key, node: seq<Ptr>, pos: seq<nat>)
    requires Found(s, key, node, pos, s.m.h)
    ensures |node| == |pos| == s.m.h + 1 && node[0] in s.m.leaf
  {
  }

  /** A search that has ended at `x0`: its sibling search finds the leaf just before in the chain, unless the leaf is the first. */
  lemma {:induction false} SiblingIsLeft(s: Sys, key: Key, node: seq<Ptr>, pos: seq<nat>, x0: Ctx)
    requires LogicalOk(s.v, s.m.h) && MemOk(s) && Found(s, key, node, pos, s.m.h) && node[s.m.h] == s.m.root && s.v.top == Top(s.m.root) && ClearSearch(s.m, node, pos)
    requires x0.All() == Lv(s.v, s.m.h, 0) && x0.e.ch == node[0]
    ensures if Turn(pos, 1) < |pos| then Sibling(s.m, node, pos).Some? && LeftOf(x0, Sibling(s.m, node, pos).value) else x0.A == []
  {
    FoundLengths(s, key, node, pos);
    hide LogicalOk, MemOk, Found, Kids, Closed, Down, Ctx.All, OpenInner, LeftOf;
    var t := Turn(pos, 1);
    if t < |pos| {
      var x := PlaceCtx(s, key, node, pos, t);
      PathDown(s, key, node, pos, x, t);
      TurnLeft(s.v.g, x, pos[t]);
      TurnedIs(s, node, pos, t);
      DownLeft(s, key, node, pos, Down(s.v.g, x, pos[t]), s.v.g[node[t]][pos[t] - 1].ch, t - 1, x0);
    } else {
      var x := PlaceCtx(s, key, node, pos, s.m.h);
      OnlyRoot(s, x);
      DownFirst(s, key, node, pos, x, s.m.h, x0);
    }
  }

  lemma {:induction false} OnlyRoot(s: Sys, x: Ctx)
    requires s.v.top == Top(s.m.root) && x.All() == Lv(s.v, s.m.h, s.m.h)
    ensures x.A == []
  {
    assert |x.All()| == 1;
  }

  lemma {:induction false} TurnedIs(s: Sys, node: seq<Ptr>, pos: seq<nat>, t: nat)
    requires t < |node| == |pos| && OpenInner(s, node[t]) && 1 <= pos[t] < |s.v.g[node[t]]|
    ensures TurnedTo(s.m, node, pos, t) == Some(s.v.g[node[t]][pos[t] - 1].ch)
  {
  }

  /**
   * The condition of the failure. Among any operations under way, when the search of `del` ends at leaf `x.e.ch` and its sibling search
   * meets no locked inner node: Part 1 leaves a lock bit that nothing will clear exactly if the tree has more than one level, the key
   * is the leaf's only one, the leaf is not the first, and the leaf before it is locked.
   */
  lemma {:induction false} RetryIff(s: Sys, key: Key, node: seq<Ptr>, pos: seq<nat>, x: Ctx)
    requires TreeInv(s) && SearchFrom(s.m, key, s.m.root, s.m.h) == Ended(node, pos) && ClearSearch(s.m, node, pos)
    requires x.All() == Lv(s.v, s.m.h, 0) && node != [] && x.e.ch == node[0]
    ensures LeavesBit(s.m, key) <==>
      s.m.h > 0 && LastKey(s.m, key, node, pos) && x.A != [] && x.A[|x.A| - 1].ch in s.m.leaf && s.m.leaf[x.A[|x.A| - 1].ch].m.lock
  {
    InvMem(s);
    SearchRight(s, key);
    FoundLengths(s, key, node, pos);
    SiblingIsLeft(s, key, node, pos, x);
    OneCtx(s, x, x, 0);
    LeavesBitIff(s.m, key);
    hide TreeInv, Found, SearchFrom, LeavesBit, Turn, Sibling, ClearSearch, LastKey, Ctx.All, Lv;
  }

  lemma {:induction false} InvMem(s: Sys)
    requires TreeInv(s)
    ensures LogicalOk(s.v, s.m.h) && MemOk(s) && s.m.inner.Keys !! s.m.leaf.Keys
  {
  }

  // ---------------------------------------------------------------- the bit stays set

  /** Thread `t` is in `del`, and its next step is Part 1, which leaves the bit of leaf `lp` set. */
  ghost predicate AboutTo(s: Sys, t: Tid, lp: Ptr) {
    && t in s.th && s.th[t].pc.Called? && s.th[t].op.Remove? && LeavesBit(s.m, s.th[t].op.key)
    && var r := SearchFrom(s.m, s.th[t].op.key, s.m.root, s.m.h); r.Ended? && r.node != [] && r.node[0] == lp && lp in s.m.leaf
  }

  /** After that step. `nobody` stands for the absent holder of the bit: a thread that takes no further step. */
  function Retried(s: Sys, t: Tid, lp: Ptr, nobody: Tid): Sys
    requires t in s.th && lp in s.m.leaf
  {
    s.(m := s.m.(leaf := SetLeafLock(s.m.leaf, lp, true)), own := Take(s.own, {lp}, nobody),
       th := s.th[nobody := Thread(s.th[t].op, Erasing(lp, Plain(s.m.leaf[lp])), 0, None)])
  }

  /** The memory is the one Part 1 leaves, and `t` is back at the start of `del`. */
  lemma {:induction false} RetriedIs(s: Sys, t: Tid, lp: Ptr, nobody: Tid)
    requires TreeInv(s) && AboutTo(s, t, lp) && nobody !in s.th
    ensures DelPart1(s.m, s.th[t].op.key) == (Retry, Retried(s, t, lp, nobody).m) && Retried(s, t, lp, nobody).th[t] == s.th[t]
    ensures lp in s.m.leaf && s.m.leaf[lp].Shape() && HasKey(Entries(s.m.leaf[lp]), s.th[t].op.key) && !s.m.leaf[lp].m.lock
  {
    InvMem(s);
    hide TreeInv, LogicalOk, MemOk, SearchFrom, Sibling, Turn, NodeOk, HasKey, Entries, CountBits, BranchTop, PathSet, LeavesBit;
    LeavesBitIff(s.m, s.th[t].op.key);
    SearchOpen(s.m, s.th[t].op.key, s.m.root, s.m.h);
  }

  lemma {:induction false} RetriedOk(s: Sys, t: Tid, lp: Ptr, nobody: Tid)
    requires TreeInv(s) && AboutTo(s, t, lp) && nobody !in s.th
    ensures TreeInv(Retried(s, t, lp, nobody))
  {
    hide TreeInv, Found, SearchFrom, CountBits, CoversAt, OpenLeaf, HasKey, Entries, EntriesOf, Plain, LeavesBit, AboutTo, DelPart1;
    RetriedIs(s, t, lp, nobody);
    RetriedAt(s, t, lp);
    var key := s.th[t].op.key;
    var s1 := s.(th := s.th[nobody := Thread(s.th[t].op, Called, 0, None)]);
    IdleJoins(s, nobody, Thread(s.th[t].op, Called, 0, None));
    SameOpen(s, s1, lp);
    EraseLockStep(s1, nobody, key, lp);
    assert Retried(s, t, lp, nobody) ==
      SetPc(s1.(m := s1.m.(leaf := SetLeafLock(s1.m.leaf, lp, true)), own := Take(s1.own, {lp}, nobody)), nobody, Erasing(lp, Plain(s1.m.leaf[lp])));
  }

  lemma {:induction false} RetriedAt(s: Sys, t: Tid, lp: Ptr)
    requires TreeInv(s) && AboutTo(s, t, lp)
    ensures t in s.th && s.th[t].op.Remove? && lp in s.m.leaf && OpenLeaf(s, lp) && CoversAt(Lv(s.v, s.m.h, 0), lp, s.th[t].op.key)
    ensures s.m.leaf[lp].Shape() && Plain(s.m.leaf[lp]) == s.m.leaf[lp] && HasKey(EntriesOf(s.m.leaf[lp]), s.th[t].op.key)
  {
    hide TreeInv, Found, SearchFrom, CountBits, CoversAt, OpenLeaf, HasKey, EntriesOf, Plain, LeavesBit, LogicalOk, MemOk, Sibling, Turn;
    var key := s.th[t].op.key;
    var r := SearchFrom(s.m, key, s.m.root, s.m.h);
    SearchRight(s, key);
    ArrivedAt(s, key, r.node, r.pos);
    PlainFull(s.m.leaf[lp]);
    InvMem(s);
    LeavesBitIff(s.m, key);
    KeyThere(s.m.leaf[lp], key);
  }

  lemma {:induction false} KeyThere(x: Leaf, key: Key)
    requires x.Shape() && HasKey(Entries(x), key)
    ensures HasKey(EntriesOf(x), key)
  {
  }

  lemma {:induction false} SameOpen(s: Sys, s1: Sys, lp: Ptr)
    requires OpenLeaf(s, lp) && s1.m == s.m && s1.v == s.v && s1.own == s.own
    ensures OpenLeaf(s1, lp)
  {
  }

  /** A thread that holds nothing may join. */
  lemma {:induction false} IdleJoins(s: Sys, u: Tid, th: Thread)
    requires TreeInv(s) && u !in s.th && th.pc.Called?
    ensures TreeInv(s.(th := s.th[u := th]))
  {
    var s' := s.(th := s.th[u := th]);
    hide LogicalOk, PcOk, HeldBy, BusyAt, NodeOk, Children;
    forall p | p in s.m.inner ensures InnerAt(s', p) { assert InnerAt(s, p); }
    forall p | p in s.m.leaf ensures LeafAt(s', p) { assert LeafAt(s, p); }
    forall t | t in s'.th ensures ThreadOk(s', t) {
      if t == u { JoinsOk(s, u, th); } else { assert ThreadOk(s, t); }
    }
  }

  lemma {:induction false} JoinsOk(s: Sys, u: Tid, th: Thread)
    requires MemOk(s) && u !in s.th && th.pc.Called?
    ensures PcOk(s.m, s.v, th) && Holds(s.own, u, th.pc)
  {
  }

  /**
   * The bit then stays set for good: in every run from there the leaf is locked, and no search, the deleting thread's own included,
   * ends at it.
   */
  lemma {:induction false} RetryStuck(s: Sys, t: Tid, lp: Ptr, nobody: Tid, states: seq<Sys>, sched: seq<(Tid, Action)>, i: nat, key: Key)
    requires TreeInv(s) && AboutTo(s, t, lp) && nobody !in s.th
    requires RunOk(states, sched) && states[0] == Retried(s, t, lp, nobody) && i < |states|
    requires forall k :: 0 <= k < |sched| ==> sched[k].0 != nobody
    ensures TreeInv(states[i]) && nobody in states[i].th && states[i].th[nobody] == states[0].th[nobody]
    ensures lp in states[i].m.leaf && states[i].m.leaf[lp].m.lock
    ensures var r := SearchFrom(states[i].m, key, states[i].m.root, states[i].m.h); r.Ended? ==> r.node != [] && r.node[0] != lp
    decreases i
  {
    hide TreeInv, AboutTo, Fire, Enabled, Moved, SearchFrom, Found;
    if i == 0 {
      RetriedOk(s, t, lp, nobody);
    } else {
      RetryStuck(s, t, lp, nobody, states, sched, i - 1, key);
      assert StepAtRun(states, sched, i - 1);
      AnyStep(states[i - 1], sched[i - 1].0, sched[i - 1].1);
      NoCrash(states[i]);
      StepMoves(states[i - 1], sched[i - 1].0, sched[i - 1].1);
    }
    ErasingHeld(states[i], nobody, lp);
    SearchRight(states[i], key);
    var r := SearchFrom(states[i].m, key, states[i].m.root, states[i].m.h);
    if r.Ended? { OpenedFirst(states[i], key, r.node, r.pos); }
  }

  lemma {:induction false} OpenedFirst(s: Sys, key: Key, node: seq<Ptr>, pos: seq<nat>)
    requires Found(s, key, node, pos, s.m.h)
    ensures node != [] && node[0] !in s.own
  {
  }

  lemma {:induction false} ErasingHeld(s: Sys, t: Tid, lp: Ptr)
    requires TreeInv(s) && t in s.th && s.th[t].pc.Erasing? && s.th[t].pc.lp == lp
    ensures lp in s.own && lp in s.m.leaf && s.m.leaf[lp].m.lock
  {
    hide LogicalOk, CoversAt, HasKey;
    InvParts(s);
    ThreadThere(s, t);
    MemKeys(s);
    OwnsOne(s, t, lp);
    assert LeafAt(s, lp);
  }

  // ---------------------------------------------------------------- a run that gets there

  /** A root at `root` above the leaves `l` and `r`, which hold the keys `j` and `k`. */
  function TwoLeaves(root: Ptr, l: Ptr, j: Key, r: Ptr, k: Key): Mem {
    Mem(root, 1, map[root := TwoKids(l, k, r)], map[l := OneKeyLeaf(j, r), r := OneKeyLeaf(k, NULL)])
  }

  lemma {:induction false} TwoLeavesWhole(root: Ptr, l: Ptr, j: Key, r: Ptr, k: Key)
    requires root != l && root != r && l != r && j < k
    ensures WholeMem(TwoLeaves(root, l, j, r, k))
  {
    var m := TwoLeaves(root, l, j, r, k);
    var g, L := GraphOf(m.inner), [IdxEntry(0, l), IdxEntry(k, r)];
    OneKeyIs(j, r);
    OneKeyIs(k, NULL);
    hide OneKeyLeaf, LeafOk, Entries, EntriesOf, CountBits;
    assert Children(TwoKids(l, k, r)) == L;
    assert Top(root)[1..] == [];
    ExpandEmpty(g);
    assert Kids(g, Top(root)[0]) == L;
    assert ExpandAll(g, Top(root)) == L + [];
    assert Tree(g, m.leaf.Keys, L, 0);
    assert LeafList(m.inner, m.root, 1) == L;
    assert Along(m.leaf, L) == [OneKeyLeaf(j, r), OneKeyLeaf(k, NULL)];
  }

  lemma {:induction false} SearchTwo(m: Mem, root: Ptr, l: Ptr, r: Ptr, k: Key, key: Key)
    requires m.root == root && m.h == 1 && root in m.inner && m.inner[root] == TwoKids(l, k, r) && l in m.leaf && r in m.leaf
    ensures SearchFrom(m, key, root, 1) ==
      if key < k then if m.leaf[l].m.lock then Walked.Blocked else Ended([l, root], [0, 0]) else if m.leaf[r].m.lock then Walked.Blocked else Ended([r, root], [0, 1])
  {
    var ks := Children(m.inner[root]);
    assert ks == [IdxEntry(0, l), IdxEntry(k, r)];
    assert ks[..1] == [IdxEntry(0, l)];
    var c := PosIn(ks, key);
    assert c == if key < k then 0 else 1;
    assert SearchFrom(m, key, ks[c].ch, 0) == if m.leaf[ks[c].ch].m.lock then Walked.Blocked else Ended([ks[c].ch], [0]);
  }

  /** The insert's search step locks the left leaf. */
  lemma {:induction false} PutSearches(s: Sys, root: Ptr, l: Ptr, j: Key, r: Ptr, k: Key, key: Key)
    requires root != l && root != r && l != r && j < k && key < k && key != j
    requires s.m == TwoLeaves(root, l, j, r, k) && 0 in s.th && 1 in s.th && s.th[1].op == Put(key, 0)
    ensures var s' := Searched(s, 1); s'.m == s.m.(leaf := SetLeafLock(s.m.leaf, l, true)) && 0 in s'.th && s'.th[0] == s.th[0]
  {
    OneKeyIs(j, r);
    hide OneKeyLeaf, TwoKids, LeafOk, IsFull, CountBits, Entries;
    SearchTwo(s.m, root, l, r, k, key);
    hide SearchFrom;
    assert LockInner(s.m.inner, PathSet([l, root], 1, 0)) == s.m.inner;
  }

  lemma {:induction false} RunExtended(states: seq<Sys>, sched: seq<(Tid, Action)>, t: Tid, a: Action)
    requires RunOk(states, sched) && Enabled(states[|states| - 1], t, a)
    ensures RunOk(states + [Fire(states[|states| - 1], t, a)], sched + [(t, a)])
  {
    var S, C := states + [Fire(states[|states| - 1], t, a)], sched + [(t, a)];
    hide Enabled, Fire;
    forall i | 0 <= i < |C| ensures StepAtRun(S, C, i) { if i < |sched| { assert StepAtRun(states, sched, i); } }
  }

  /** Thread 1 is inserting into the left leaf. */
  lemma {:induction false} InsertUnderWay(root: Ptr, l: Ptr, j: Key, r: Ptr, k: Key, key: Key) returns (states: seq<Sys>, sched: seq<(Tid, Action)>)
    requires root != l && root != r && l != r && j < k && key < k && key != j
    ensures RunOk(states, sched) && states[0].m == TwoLeaves(root, l, j, r, k) && Start(states[0], MemContents(states[0].m))
    ensures var s, m := states[|states| - 1], TwoLeaves(root, l, j, r, k);
      s.m == m.(leaf := SetLeafLock(m.leaf, l, true)) && 0 in s.th && s.th[0].pc.Idle?
  {
    var m := TwoLeaves(root, l, j, r, k);
    var th: map<Tid, Thread> := map[0 := Thread(Find(0), Idle, 0, None), 1 := Thread(Find(0), Idle, 0, None)];
    TwoLeavesWhole(root, l, j, r, k);
    StartOf(m, th);
    hide WholeMem, Start, OneKeyLeaf, TwoKids, Searched, MemContents;
    var s0 := Sys(m, th, Logical(GraphOf(m.inner), Top(m.root), m.leaf), map[], []);
    RunExtended([s0], [], 1, Call(Put(key, 0)));
    var s1 := Fire(s0, 1, Call(Put(key, 0)));
    PutSearches(s1, root, l, j, r, k, key);
    RunExtended([s0] + [s1], [] + [(1, Call(Put(key, 0)))], 1, Search);
    states, sched := [s0] + [s1] + [Fire(s1, 1, Search)], [] + [(1, Call(Put(key, 0)))] + [(1, Search)];
  }

  /** Thread 0 then deletes the only key of the right leaf. */
  lemma {:induction false} RetryHappens(root: Ptr, l: Ptr, j: Key, r: Ptr, k: Key, key: Key) returns (states: seq<Sys>, sched: seq<(Tid, Action)>)
    requires root != l && root != r && l != r && j < k && key < k && key != j
    ensures RunOk(states, sched) && states[0].m == TwoLeaves(root, l, j, r, k) && Start(states[0], MemContents(states[0].m))
    ensures AboutTo(states[|states| - 1], 0, r)
  {
    hide RunOk, Start, OneKeyLeaf, TwoKids, MemContents, AboutTo;
    states, sched := InsertUnderWay(root, l, j, r, k, key);
    RunLength(states, sched);
    var s := states[|states| - 1];
    RunExtended(states, sched, 0, Call(Remove(k)));
    states, sched := states + [Fire(s, 0, Call(Remove(k)))], sched + [(0, Call(Remove(k)))];
    AboutTwo(states[|states| - 1], root, l, r, k);
  }

  lemma {:induction false} RunLength(states: seq<Sys>, sched: seq<(Tid, Action)>)
    requires RunOk(states, sched)
    ensures |states| == |sched| + 1
  {
  }

  lemma {:induction false} AboutTwo(s: Sys, root: Ptr, l: Ptr, r: Ptr, k: Key)
    requires var m := s.m; m.root == root && m.h == 1 && m.inner == map[root := TwoKids(l, k, r)] && m.leaf.Keys == {l, r} && root !in m.leaf && m.leaf[l].m.lock
    requires s.m.leaf[r] == OneKeyLeaf(k, NULL) && 0 in s.th && s.th[0].pc.Called? && s.th[0].op == Remove(k)
    ensures AboutTo(s, 0, r)
  {
    BusyTwo(s.m, root, l, r, k);
    hide LeavesBit, SearchFrom, OneKeyLeaf, TwoKids;
  }

  lemma {:induction false} BusyTwo(m: Mem, root: Ptr, l: Ptr, r: Ptr, k: Key)
    requires m.root == root && m.h == 1 && m.inner == map[root := TwoKids(l, k, r)] && m.leaf.Keys == {l, r} && root !in m.leaf && m.leaf[l].m.lock
    requires m.leaf[r] == OneKeyLeaf(k, NULL)
    ensures LeavesBit(m, k) && SearchFrom(m, k, root, 1) == Ended([r, root], [0, 1])
  {
    SearchTwo(m, root, l, r, k, k);
    OneKeyIs(k, NULL);
    LeavesBitIff(m, k);
    var pos: seq<nat> := [0, 1];
    assert Turn(pos, 1) == 1;
    assert Children(m.inner[root])[0].ch == l;
    assert TurnedTo(m, [r, root], pos, 1) == Some(l);
    assert LastDown(m, l, 0) == Some(l);
    hide OneKeyLeaf, CountBits, Entries, SearchFrom, LeavesBit;
    assert IdxEntry(k, k) in Entries(m.leaf[r]);
  }
}
