/** The leaf part of `del` when the leaf holds only the deleted key: unlinking it from the chain, and freeing it. */
module LeafRemoval {
  import opened Types
  import opened LeafNode
  import opened Nvm
  import opened LeafOps
  import opened Levels
  import opened TreeSteps
  import opened LeafLevel
  import opened Recovery
  import opened TreeView
  import opened MemoryRun

  lemma {:induction false} SameEntries(p: Leaf, q: Leaf)
    requires LeafOk(p) && LeafOk(q) && Entries(p) == Entries(q)
    ensures EntriesOf(p) == EntriesOf(q) && p.Shape()
  {
  }

  /** The left neighbour's live pointer, once redirected, skips the leaf of the context. */
  lemma {:induction false} RedirectPast(x: Ctx, Y: seq<Leaf>, p: Leaf)
    requires Fits(x.All(), Y) && Linked(x.All(), Y) && x.A != [] && LeafOk(p)
    requires Entries(p) == Entries(Y[|x.A| - 1]) && p.NextSibling() == Y[|x.A|].NextSibling()
    ensures var Y' := Y[|x.A| - 1 := p]; Fits(x.All(), Y') && LinkedPast(x.All(), Y', |x.A|) && Union(Y') == Union(Y)
  {
    hide Entries, LeafOk, Union, EntriesOf;
    var L, j, Y' := x.All(), |x.A|, Y[|x.A| - 1 := p];
    SameEntries(p, Y[j - 1]);
    ReplaceUnion(Y, j - 1, p);
    hide Ctx.All;
    forall i | 0 <= i < |L| ensures LeafOk(Y'[i]) && EntriesOf(Y'[i]) == EntriesOf(Y[i]) {
      assert LeafOk(Y[i]);
    }
  }

  lemma {:induction false} NothingBefore(x: Ctx, Y: seq<Leaf>)
    requires Linked(x.All(), Y) && x.A == []
    ensures LinkedPast(x.All(), Y, 0)
  {
  }

  lemma {:induction false} PrunedViewOf(cells: map<Ptr, Cell>, x: Ctx, left: bool)
    ensures |View(cells, x.All())| == |x.All()| && |x.A| < |x.All()|
    ensures View(cells, Removed(x, left)) == PruneView(View(cells, x.All()), |x.A|)
  {
    RemovedAt(x, left);
    PruneAt(View(cells, x.All()), |x.A|);
    hide Removed, PruneView, Ctx.All;
  }

  lemma {:induction false} PrunedStored(s: State, x: Ctx, left: bool)
    requires Stored(s, x.All())
    ensures Stored(s, Removed(x, left))
  {
    var L, L' := x.All(), Removed(x, left);
    RemovedAt(x, left);
    hide Removed, Ctx.All, Cell.Shape;
    forall i | 0 <= i < |L'| ensures L'[i].ch in s.cells && L'[i].ch != NULL {
      assert L[if i < |x.A| then i else i + 1].ch in s.cells;
    }
  }

  lemma {:induction false} PrunedFull(Y: seq<Leaf>, j: nat)
    requires NonEmpty(Y) && j < |Y|
    ensures NonEmpty(PruneView(Y, j))
  {
    PruneAt(Y, j);
    hide PruneView, EntriesOf;
  }

  /** The leaf level without the leaf of the context: contents `C`, nothing locked. */
  predicate PrunedLevel(s: State, L: seq<IdxEntry>, h: nat, C: set<IdxEntry>) {
    LeavesOk(s, L, h) && Union(View(s.cells, L)) == C && Unlocked(View(s.cells, L))
  }

  lemma {:induction false} PrunedOk(s: State, x: Ctx, h: nat, left: bool, e: IdxEntry)
    requires Stored(s, x.All()) && Ascending(x.All()) && (!left ==> x.A != [])
    requires var Y := View(s.cells, x.All());
      && Fits(x.All(), Y) && LinkedPast(x.All(), Y, |x.A|) && Entries(Y[|x.A|]) == {e}
      && (h > 0 ==> NonEmpty(Y)) && UnlockedBut(Y, |x.A|)
    requires |s.first| > 0 && s.first[|s.first| - 1] == PtrAt(x.All(), if x.A == [] then 1 else 0)
    ensures PrunedLevel(s, Removed(x, left), h, Union(View(s.cells, x.All())) - {e})
  {
    var Y := View(s.cells, x.All());
    PrunedViewOf(s.cells, x, left);
    PrunedStored(s, x, left);
    PruneThere(x, Y, left, e);
    if h > 0 { PrunedFull(Y, |x.A|); }
    PrunedUnlocked(Y, |x.A|);
    PrunedFirst(x, left);
    hide Fits, Linked, LinkedPast, Stored, NonEmpty, Unlocked, UnlockedBut, Removed, PruneView, View, Union, Ctx.All, Entries;
    LeavesIntro(s, Removed(x, left), h);
  }

  lemma {:induction false} PrunedUnlocked(Y: seq<Leaf>, j: nat)
    requires UnlockedBut(Y, j) && j < |Y|
    ensures Unlocked(PruneView(Y, j))
  {
    PruneAt(Y, j);
    hide PruneView;
  }

  lemma {:induction false} PrunedFirst(x: Ctx, left: bool)
    ensures PtrAt(Removed(x, left), 0) == PtrAt(x.All(), if x.A == [] then 1 else 0)
  {
    RemovedAt(x, left);
  }

  lemma {:induction false} PrunedDurable(s: State, x: Ctx, left: bool)
    requires |View(s.cells, x.All())| == |x.All()| && FirstIs(s, PtrAt(x.All(), if x.A == [] then 1 else 0))
    requires forall i :: 0 <= i < |x.All()| && i != |x.A| ==> QuietAt(s, x.All(), View(s.cells, x.All()), i)
    ensures Durable(s, Removed(x, left), View(s.cells, Removed(x, left)))
  {
    var L, L', Y := x.All(), Removed(x, left), View(s.cells, x.All());
    PrunedViewOf(s.cells, x, left);
    PrunedFirst(x, left);
    RemovedAt(x, left);
    PruneAt(Y, |x.A|);
    hide Removed, PruneView, Ctx.All, Quiet, View;
    var Y' := View(s.cells, L');
    forall i | 0 <= i < |L'| ensures QuietAt(s, L', Y', i) {
      assert QuietAt(s, L, Y, if i < |x.A| then i else i + 1);
    }
  }

  // ---------------------------------------------------------------- through the left sibling

  /** The deleted leaf and its left neighbour are locked, nothing else is. */
  predicate UnlockedButTwo(Y: seq<Leaf>, j: nat) {
    forall i :: 0 <= i < |Y| && i != j && i + 1 != j ==> !Y[i].m.lock
  }

  /** The context of the left neighbour. */
  function LeftCtx(x: Ctx): Ctx
    requires x.A != []
  {
    Ctx(x.A[..|x.A| - 1], x.A[|x.A| - 1], [x.e] + x.B)
  }

  lemma {:induction false} LeftCtxAll(x: Ctx)
    requires x.A != []
    ensures LeftCtx(x).All() == x.All() && |LeftCtx(x).A| == |x.A| - 1 && LeftCtx(x).e.ch == x.A[|x.A| - 1].ch
  {
    assert x.A == x.A[..|x.A| - 1] + [x.A[|x.A| - 1]];
  }

  /** What holds before the left sibling is redirected. */
  ghost predicate UnlinkReady(s: State, h: nat, x: Ctx, e: IdxEntry, left: bool) {
    && LeavesOk(s, x.All(), h) && NoDup(x.All()) && Ascending(x.All())
    && var Y := View(s.cells, x.All());
      |x.A| < |Y| && Entries(Y[|x.A|]) == {e} && UnlockedButTwo(Y, |x.A|) && (!left ==> x.A != [])
  }

  lemma {:induction false} SiblingCell(s: State, h: nat, x: Ctx, safe: bool)
    requires LeavesOk(s, x.All(), h) && x.A != [] && (safe ==> Durable(s, x.All(), View(s.cells, x.All())))
    ensures var sib, Y := x.A[|x.A| - 1].ch, View(s.cells, x.All());
      && sib in s.cells && s.cells[sib].Shape() && s.cells[sib].Now() == Y[|x.A| - 1] && LeafOk(Y[|x.A| - 1])
      && (safe ==> Quiet(s.cells[sib]))
  {
    assert x.All()[|x.A| - 1] == x.A[|x.A| - 1];
    assert safe ==> QuietAt(s, x.All(), View(s.cells, x.All()), |x.A| - 1);
  }

  /** Step 2 of Part 2 of `del`, with a left sibling: it now points past the leaf, and is unlocked. */
  method UnlinkState(s: State, sib: Ptr, q: Ptr, ghost h: nat, ghost x: Ctx, ghost e: IdxEntry, ghost left: bool, ghost safe: bool)
    returns (s': State, ghost more: seq<State>)
    requires UnlinkReady(s, h, x, e, left) && x.A != [] && sib == x.A[|x.A| - 1].ch && sib in s.cells
    requires q == View(s.cells, x.All())[|x.A|].NextSibling()
    requires safe ==> Durable(s, x.All(), View(s.cells, x.All()))
    ensures var L, C := Removed(x, left), Union(View(s.cells, x.All()));
      && PrunedLevel(s', L, h, C - {e})
      && (safe ==> Durable(s', L, View(s'.cells, L)) && TraceOk(more, C, C - {e}))
    ensures s.cells.Keys <= s'.cells.Keys && Run(s, more, s')
  {
    SiblingCell(s, h, x, safe);
    hide Durable, View, Union, PrunedLevel, Removed, Quiet, UnlinkReady, CellSafe, LeafOk, Cell.Shape, AllShow, Steps, Run;
    var k, tr := Unlink(s.cells[sib], q, safe);
    s' := Put(s, sib, k);
    more := Lift(s, sib, tr);
    LiftRun(s, sib, tr, k);
    UnlinkLevel(s, h, x, e, left, k);
    if safe { UnlinkSafe(s, h, x, e, left, k, tr); }
  }

  ghost predicate Redirection(s: State, h: nat, x: Ctx, e: IdxEntry, left: bool, k: Cell) {
    && UnlinkReady(s, h, x, e, left) && x.A != [] && k.Shape() && k.wb == k.low && LeafOk(k.Now()) && !k.Now().m.lock
    && var Y := View(s.cells, x.All());
      Y[|x.A| - 1].Shape() && Entries(k.Now()) == Entries(Y[|x.A| - 1]) && k.Now().NextSibling() == Y[|x.A|].NextSibling()
  }

  lemma {:induction false} UnlinkLevel(s: State, h: nat, x: Ctx, e: IdxEntry, left: bool, k: Cell)
    requires Redirection(s, h, x, e, left, k)
    ensures var s', L, C := Put(s, x.A[|x.A| - 1].ch, k), Removed(x, left), Union(View(s.cells, x.All()));
      PrunedLevel(s', L, h, C - {e}) && View(s'.cells, x.All()) == View(s.cells, x.All())[|x.A| - 1 := k.Now()]
  {
    var j, p, Y, L := |x.A|, x.A[|x.A| - 1].ch, View(s.cells, x.All()), x.All();
    var s' := Put(s, p, k);
    LeavesParts(s, L, h);
    assert L[j - 1].ch == p && L[0] == x.A[0];
    ViewPut(s.cells, L, j - 1, k);
    StoredPut(s, L, p, k);
    RedirectPast(x, Y, k.Now());
    RedirectFull(Y, j, k.Now(), h);
    hide LeavesOk, Stored, Fits, Linked, LinkedPast, NonEmpty, Removed, Ctx.All, View, Union, Entries, LeafOk, PrunedLevel;
    PrunedOk(s', x, h, left, e);
  }

  lemma {:induction false} UnlinkSafe(s: State, h: nat, x: Ctx, e: IdxEntry, left: bool, k: Cell, tr: seq<Cell>)
    requires Redirection(s, h, x, e, left, k) && Durable(s, x.All(), View(s.cells, x.All())) && Quiet(k)
    requires AllShow(tr, View(s.cells, x.All())[|x.A| - 1], k.Now())
    ensures var s', L, C := Put(s, x.A[|x.A| - 1].ch, k), Removed(x, left), Union(View(s.cells, x.All()));
      Durable(s', L, View(s'.cells, L)) && TraceOk(Lift(s, x.A[|x.A| - 1].ch, tr), C, C - {e})
  {
    var j, p, Y, L, L' := |x.A|, x.A[|x.A| - 1].ch, View(s.cells, x.All()), x.All(), Removed(x, left);
    var s' := Put(s, p, k);
    UnlinkLevel(s, h, x, e, left, k);
    LeftCtxAll(x);
    LeavesParts(s, L, h);
    LeavesParts(s', L', h);
    PrunedViewOf(s'.cells, x, left);
    assert L[0] == x.A[0];
    hide LeavesOk, Stored, Fits, Linked, NonEmpty, Removed, Ctx.All, View, Union, Entries, LeafOk, Durable, AllShow, LeftCtx, PruneView, Quiet, UnlinkReady;
    UnlinkTrace(s, h, x, e, left, k, tr);
    DurablePut(s, LeftCtx(x), k);
    DurableHere(s', L, View(s'.cells, L));
    PrunedDurable(s', x, left);
  }

  lemma {:induction false} DurableHere(s: State, L: seq<IdxEntry>, Y: seq<Leaf>)
    requires Durable(s, L, Y)
    ensures |Y| == |L| && FirstIs(s, PtrAt(L, 0)) && forall i :: 0 <= i < |L| ==> QuietAt(s, L, Y, i)
  {
  }

  lemma {:induction false} RedirectFull(Y: seq<Leaf>, j: nat, p: Leaf, h: nat)
    requires 0 < j < |Y| && EntriesOf(p) == EntriesOf(Y[j - 1]) && UnlockedButTwo(Y, j) && !p.m.lock && (h > 0 ==> NonEmpty(Y))
    ensures UnlockedBut(Y[j - 1 := p], j) && (h > 0 ==> NonEmpty(Y[j - 1 := p]))
  {
  }

  lemma {:induction false} UnlinkTrace(s: State, h: nat, x: Ctx, e: IdxEntry, left: bool, k: Cell, tr: seq<Cell>)
    requires UnlinkReady(s, h, x, e, left) && x.A != []
    requires var Y := View(s.cells, x.All());
      && Durable(s, x.All(), Y) && Linked(x.All(), Y) && k.Shape() && AllShow(tr, Y[|x.A| - 1], k.Now())
      && var Y' := PruneView(Y[|x.A| - 1 := k.Now()], |x.A|); Linked(Removed(x, left), Y') && Union(Y') == Union(Y) - {e}
    ensures var C := Union(View(s.cells, x.All())); TraceOk(Lift(s, x.A[|x.A| - 1].ch, tr), C, C - {e})
  {
    var p, Y := x.A[|x.A| - 1].ch, View(s.cells, x.All());
    var T := Lift(s, p, tr);
    LeftCtxAll(x);
    hide CrashSafe, Linked, Durable, View, Lift, LeftCtx, Removed, PruneView, Union, Ctx.All;
    forall i | 0 <= i < |T| ensures CrashSafe(T[i], Union(Y), Union(Y) - {e}) {
      LiftAt(s, p, tr, i);
      assert Shows(tr[i], Y[|x.A| - 1], k.Now());
      DurablePut(s, LeftCtx(x), tr[i]);
      UnlinkCrashSafe(T[i], x, Y, left, k.Now(), e);
    }
  }

  // ---------------------------------------------------------------- the first leaf

  /** `setFirstLeaf`: a store to the persistent root pointer, `clwb`, `sfence` */
  method MoveFirst(s: State, q: Ptr, ghost h: nat, ghost x: Ctx, ghost e: IdxEntry, ghost left: bool, ghost safe: bool)
    returns (s': State, ghost more: seq<State>)
    requires UnlinkReady(s, h, x, e, left) && x.A == []
    requires q == View(s.cells, x.All())[|x.A|].NextSibling()
    requires safe ==> Durable(s, x.All(), View(s.cells, x.All()))
    ensures var L, C := Removed(x, left), Union(View(s.cells, x.All()));
      && PrunedLevel(s', L, h, C - {e})
      && (safe ==> Durable(s', L, View(s'.cells, L)) && TraceOk(more, C, C - {e}))
    ensures s'.cells == s.cells && Run(s, more, s')
  {
    hide Run;
    var s1 := StoreFirst(s, q);
    var s2 := FlushFirst(s1);
    s' := FenceFirst(s2);
    more := [] + [s1] + [s2] + [s'];
    LeavesParts(s, x.All(), h);
    FirstRun(s, q);
    FirstLevel(s, q, h, x, e, left);
    if safe { FirstSafe(s, q, h, x, e, left); }
  }

  lemma {:induction false} FirstLevel(s: State, q: Ptr, h: nat, x: Ctx, e: IdxEntry, left: bool)
    requires UnlinkReady(s, h, x, e, left) && x.A == [] && q == View(s.cells, x.All())[0].NextSibling()
    ensures var s', C := FenceFirst(FlushFirst(StoreFirst(s, q))), Union(View(s.cells, x.All()));
      PrunedLevel(s', Removed(x, left), h, C - {e})
  {
    var s', Y := FenceFirst(FlushFirst(StoreFirst(s, q))), View(s.cells, x.All());
    LeavesParts(s, x.All(), h);
    NothingBefore(x, Y);
    assert q == PtrAt(x.All(), 1);
    assert Stored(s', x.All());
    assert UnlockedBut(Y, 0);
    hide LeavesOk, Stored, Fits, Linked, LinkedPast, NonEmpty, Removed, Ctx.All, View, Union, Entries, PrunedLevel, NoDup, Ascending;
    PrunedOk(s', x, h, left, e);
  }

  lemma {:induction false} FirstSafe(s: State, q: Ptr, h: nat, x: Ctx, e: IdxEntry, left: bool)
    requires UnlinkReady(s, h, x, e, left) && x.A == [] && q == View(s.cells, x.All())[0].NextSibling()
    requires Durable(s, x.All(), View(s.cells, x.All()))
    ensures var s1 := StoreFirst(s, q);
      var s2 := FlushFirst(s1);
      var s' := FenceFirst(s2);
      var L, C := Removed(x, left), Union(View(s.cells, x.All()));
      && Durable(s', L, View(s'.cells, L))
      && CrashSafe(s1, C, C - {e}) && CrashSafe(s2, C, C - {e}) && CrashSafe(s', C, C - {e})
  {
    var s1 := StoreFirst(s, q);
    var s2 := FlushFirst(s1);
    var s' := FenceFirst(s2);
    var L, L', Y := x.All(), Removed(x, left), View(s.cells, x.All());
    FirstLevel(s, q, h, x, e, left);
    LeavesParts(s, L, h);
    LeavesParts(s', L', h);
    PrunedViewOf(s.cells, x, left);
    DurableHere(s, L, Y);
    assert L[0] == x.e && q == PtrAt(L, 1);
    assert s'.cells == s.cells;
    FirstWindow(s, x.e.ch, q);
    hide LeavesOk, Stored, Fits, Linked, NonEmpty, Removed, Ctx.All, View, Union, Entries, PruneView, CrashSafe, Durable, UnlinkReady, Quiet, PrunedLevel;
    FirstQuiet(s, s1, L, Y);
    FirstQuiet(s, s2, L, Y);
    FirstQuiet(s, s', L, Y);
    FirstCrashSafe(s1, x, Y, left, e);
    FirstCrashSafe(s2, x, Y, left, e);
    FirstCrashSafe(s', x, Y, left, e);
    PrunedDurable(s', x, left);
  }

  lemma {:induction false} FirstWindow(s: State, p: Ptr, q: Ptr)
    requires FirstIs(s, p)
    ensures var s1 := StoreFirst(s, q);
      var s2 := FlushFirst(s1);
      var s' := FenceFirst(s2);
      && (forall t :: s1.firstLow <= t < |s1.first| ==> s1.first[t] == p || s1.first[t] == q)
      && (forall t :: s2.firstLow <= t < |s2.first| ==> s2.first[t] == p || s2.first[t] == q)
      && FirstIs(s', q)
  {
  }

  lemma {:induction false} FirstQuiet(s: State, s': State, L: seq<IdxEntry>, Y: seq<Leaf>)
    requires s'.cells == s.cells && |Y| == |L| && forall i :: 0 <= i < |L| ==> QuietAt(s, L, Y, i)
    ensures forall i :: 0 <= i < |L| ==> QuietAt(s', L, Y, i)
  {
    hide Quiet;
    forall i | 0 <= i < |L| ensures QuietAt(s', L, Y, i) { assert QuietAt(s, L, Y, i); }
  }

  // ---------------------------------------------------------------- freeing the leaf

  function Pow2(n: nat): (r: nat)
    ensures r > 0
  {
    if n == 0 then 1 else 2 * Pow2(n - 1)
  }

  function Bit(v: nat, i: nat): bool { v / Pow2(i) % 2 == 1 }

  /** The header as it reads when its first word holds the free-list pointer `v`. */
  function Scribbled(m: Meta, v: nat): Meta
    requires MetaShape(m)
  {
    Meta(seq(LEAF_KEY_NUM, i requires 0 <= i < LEAF_KEY_NUM => Bit(v, i)), Bit(v, 14), if Bit(v, 15) then 1 else 0,
         seq(6, i requires 0 <= i < 6 => v / Pow2(16 + 8 * i) % 256) + m.fgpt[6..])
  }

  /** What `nvmpool_free_node(lp)` does to the leaf's memory: the free-list link overwrites the first word. */
  method ScribbleLeaf(s: State, lp: Ptr, link: Ptr, ghost h: nat, ghost L: seq<IdxEntry>, ghost C: set<IdxEntry>, ghost D: set<IdxEntry>,
                      ghost safe: bool)
    returns (s': State, ghost more: seq<State>)
    requires PrunedLevel(s, L, h, D) && !Has(L, lp) && lp in s.cells
    requires safe ==> Durable(s, L, View(s.cells, L))
    ensures PrunedLevel(s', L, h, D) && View(s'.cells, L) == View(s.cells, L)
    ensures safe ==> Durable(s', L, View(s'.cells, L)) && TraceOk(more, C, D)
    ensures Run(s, more, s')
  {
    hide LeafOk, Quiet, View, Union, Fits, Linked, Scribbled, Unlocked, Durable, Run, NonEmpty;
    LeavesParts(s, L, h);
    CellShape(s, L, lp);
    var v := if link < 0 then 0 else link;
    var x := s.cells[lp].Now();
    ScribbledWord(x, v);
    var k := Store(s.cells[lp], x.(m := Scribbled(x.m, v)));
    s' := Put(s, lp, k);
    more := [s'];
    OneLeafEvent(s, lp, k);
    RunOne(s, s');
    ViewElse(s.cells, L, lp, k);
    StoredPut(s, L, lp, k);
    hide LeafOk, Quiet, View, Union, Fits, Linked, Stored, Scribbled, Cell.Shape, Unlocked;
    LeavesIntro(s', L, h);
    if safe { ElsewhereDurable(s, L, lp, k, C, D); }
  }

  lemma {:induction false} ScribbledWord(x: Leaf, v: nat)
    requires x.Shape()
    ensures OneWord(x, x.(m := Scribbled(x.m, v)))
  {
    var y := x.(m := Scribbled(x.m, v));
    hide Bit;
    assert y.m.fgpt[6..] == x.m.fgpt[6..];
    assert WordZero(x, y);
  }

  lemma {:induction false} CellShape(s: State, L: seq<IdxEntry>, p: Ptr)
    requires Stored(s, L) && p in s.cells
    ensures s.cells[p].Shape() && s.cells[p].wb == s.cells[p].low
  {
  }

  /** Memory outside the chain plays no part in recovery. */
  lemma {:induction false} ElsewhereDurable(s: State, L: seq<IdxEntry>, p: Ptr, k: Cell, C: set<IdxEntry>, D: set<IdxEntry>)
    requires Durable(s, L, View(s.cells, L)) && Linked(L, View(s.cells, L)) && !Has(L, p) && Union(View(s.cells, L)) == D
    requires View(Put(s, p, k).cells, L) == View(s.cells, L)
    ensures Durable(Put(s, p, k), L, View(s.cells, L)) && CrashSafe(Put(s, p, k), C, D)
  {
    var s', Y := Put(s, p, k), View(s.cells, L);
    hide Quiet, View, Linked, Union, IsImage, Recovers;
    forall i | 0 <= i < |L| ensures QuietAt(s', L, Y, i) {
      assert QuietAt(s, L, Y, i) && L[i].ch != p;
    }
    DurableRecovers(s', L, Y);
  }

  lemma {:induction false} GoneFromList(s: State, h: nat, x: Ctx, e: IdxEntry, left: bool)
    requires UnlinkReady(s, h, x, e, left)
    ensures !Has(Removed(x, left), x.e.ch)
  {
    RemovedOrdered(x, left);
  }

  /** Clearing one of several valid slots leaves an entry. */
  lemma {:induction false} StillSome(y: Leaf, z: Leaf, pos: nat)
    requires LeafOk(y) && y.Used(pos) && LeafOk(z) && Entries(z) == Entries(y) - {y.ent[pos]}
    ensures CountBits(y.m.bitmap) > 1 ==> Entries(z) != {}
  {
    CountEntries(y, pos);
    if CountBits(y.m.bitmap) > 1 {
      var j :| 0 <= j < LEAF_KEY_NUM && j != pos && y.m.bitmap[j];
      assert y.ent[j] in Entries(y);
      assert if j < pos then y.ent[j].k != y.ent[pos].k else y.ent[pos].k != y.ent[j].k;
      assert y.ent[j] in Entries(z);
    }
  }

  /** Step 2 of Part 2 of `del` on the leaf memory: unlink the leaf from its left sibling or from the head of the chain, then free it. */
  method CutState(s: State, lp: Ptr, sib: Option<Ptr>, link: Ptr, ghost h: nat, ghost x: Ctx, ghost e: IdxEntry, ghost left: bool, ghost safe: bool)
    returns (s': State, ghost more: seq<State>)
    requires UnlinkReady(s, h, x, e, left) && lp == x.e.ch && lp in s.cells && |s.cells[lp].h| > 0
    requires s.cells[lp].Now() == View(s.cells, x.All())[|x.A|] && s.cells[lp].Now().Shape()
    requires if sib.Some? then x.A != [] && sib.value == x.A[|x.A| - 1].ch && sib.value in s.cells else x.A == []
    requires safe ==> Durable(s, x.All(), View(s.cells, x.All()))
    ensures var L, C := Removed(x, left), Union(View(s.cells, x.All()));
      && PrunedLevel(s', L, h, C - {e})
      && (safe ==> Durable(s', L, View(s'.cells, L)) && TraceOk(more, C, C - {e}))
    ensures Run(s, more, s')
  {
    ghost var L, C := Removed(x, left), Union(View(s.cells, x.All()));
    var q := s.cells[lp].Now().next[s.cells[lp].Now().m.alt];
    GoneFromList(s, h, x, e, left);
    hide UnlinkReady, View, Union, PrunedLevel, Removed, Durable, TraceOk, Cell.Shape, Run;
    if sib.Some? {
      s', more := UnlinkState(s, sib.value, q, h, x, e, left, safe);
    } else {
      s', more := MoveFirst(s, q, h, x, e, left, safe);
    }
    ghost var more2, s1 := [], s';
    s', more2 := ScribbleLeaf(s', lp, link, h, L, C, C - {e}, safe);
    RunJoin(s, more, s1, more2, s');
    if safe { TraceJoin(more, more2, C, C - {e}); }
    more := more + more2;
  }
}
