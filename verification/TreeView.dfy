/** The leaf level of a tree as read from NVM, and how it changes when one leaf's memory changes. */
module TreeView {
  import opened Types
  import opened LeafNode
  import opened Nvm
  import opened LeafOps
  import opened LeafSplit
  import opened Levels
  import opened TreeSteps
  import opened LeafLevel
  import opened Recovery
  import opened MemoryRun

  function NowAt(cells: map<Ptr, Cell>, p: Ptr): Leaf {
    if p in cells && |cells[p].h| > 0 then cells[p].Now() else Leaf(Meta([], false, 0, []), [], [])
  }

  /** The current contents of the leaves along the list. */
  function View(cells: map<Ptr, Cell>, L: seq<IdxEntry>): seq<Leaf> {
    seq(|L|, i requires 0 <= i < |L| => NowAt(cells, L[i].ch))
  }

  predicate NonEmpty(Y: seq<Leaf>) {
    forall i :: 0 <= i < |Y| ==> EntriesOf(Y[i]) != {}
  }

  /** No write-back is under way, and every leaf of the list is in memory. */
  predicate Stored(s: State, L: seq<IdxEntry>) {
    && s.Shape() && (forall p :: p in s.cells ==> s.cells[p].wb == s.cells[p].low) && s.firstWb == s.firstLow
    && forall i :: 0 <= i < |L| ==> L[i].ch in s.cells && L[i].ch != NULL
  }

  /** The leaf level of a tree of height `h`; only a root leaf may be empty. */
  predicate LeavesOk(s: State, L: seq<IdxEntry>, h: nat) {
    && Stored(s, L) && Fits(L, View(s.cells, L)) && Linked(L, View(s.cells, L))
    && s.first[|s.first| - 1] == PtrAt(L, 0) && (h > 0 ==> NonEmpty(View(s.cells, L)))
  }

  predicate Unlocked(Y: seq<Leaf>) {
    forall i :: 0 <= i < |Y| ==> !Y[i].m.lock
  }

  /** All leaves but leaf `j` are unlocked. */
  predicate UnlockedBut(Y: seq<Leaf>, j: nat) {
    forall i :: 0 <= i < |Y| && i != j ==> !Y[i].m.lock
  }

  lemma {:induction false} ViewPut(cells: map<Ptr, Cell>, L: seq<IdxEntry>, j: nat, k: Cell)
    requires NoDup(L) && j < |L| && |k.h| > 0
    ensures View(cells[L[j].ch := k], L) == View(cells, L)[j := k.Now()]
  {
    assert forall i | 0 <= i < |L| && i != j :: L[i].ch != L[j].ch by {
      forall i | 0 <= i < |L| && i != j ensures L[i].ch != L[j].ch {
        assert if i < j then L[i].ch != L[j].ch else L[j].ch != L[i].ch;
      }
    }
  }

  lemma {:induction false} ViewElse(cells: map<Ptr, Cell>, L: seq<IdxEntry>, p: Ptr, k: Cell)
    requires !Has(L, p)
    ensures View(cells[p := k], L) == View(cells, L)
  {
  }

  lemma {:induction false} StoredPut(s: State, L: seq<IdxEntry>, p: Ptr, k: Cell)
    requires Stored(s, L) && k.Shape() && k.wb == k.low
    ensures Stored(Put(s, p, k), L)
  {
  }

  /** The leaf of the context gets a new version with the same sibling. */
  lemma {:induction false} LeafPut(s: State, x: Ctx, h: nat, k: Cell)
    requires LeavesOk(s, x.All(), h) && NoDup(x.All()) && k.Shape() && k.wb == k.low
    requires var Y' := View(s.cells, x.All())[|x.A| := k.Now()];
      Fits(x.All(), Y') && Linked(x.All(), Y') && (h > 0 ==> EntriesOf(k.Now()) != {})
    ensures LeavesOk(Put(s, x.e.ch, k), x.All(), h)
    ensures View(Put(s, x.e.ch, k).cells, x.All()) == View(s.cells, x.All())[|x.A| := k.Now()]
  {
    var L := x.All();
    assert L[|x.A|] == x.e;
    ViewPut(s.cells, L, |x.A|, k);
    StoredPut(s, L, x.e.ch, k);
    hide Fits, Linked, Stored, View, EntriesOf, Cell.Shape;
  }

  // ---------------------------------------------------------------- traces

  ghost predicate TraceOk(tr: seq<State>, C: set<IdxEntry>, D: set<IdxEntry>) {
    forall i :: 0 <= i < |tr| ==> CrashSafe(tr[i], C, D)
  }

  lemma {:induction false} TraceJoin(a: seq<State>, b: seq<State>, C: set<IdxEntry>, D: set<IdxEntry>)
    requires TraceOk(a, C, D) && TraceOk(b, C, D)
    ensures TraceOk(a + b, C, D)
  {
    hide CrashSafe;
  }

  lemma {:induction false} DurablePut(s: State, x: Ctx, k: Cell)
    requires Durable(s, x.All(), View(s.cells, x.All())) && NoDup(x.All()) && |k.h| > 0
    ensures DurableBut(Put(s, x.e.ch, k), x.All(), View(s.cells, x.All()), |x.A|)
    ensures Quiet(k) ==> Durable(Put(s, x.e.ch, k), x.All(), View(s.cells, x.All())[|x.A| := k.Now()])
  {
    var L, j, Y := x.All(), |x.A|, View(s.cells, x.All());
    assert L[j] == x.e && QuietAt(s, L, Y, j);
    var s' := Put(s, x.e.ch, k);
    CtxApart(x);
    hide Quiet;
    forall i | 0 <= i < |L| && i != j ensures QuietAt(s', L, Y, i) && L[i].ch != x.e.ch {
      assert QuietAt(s, L, Y, i);
      assert if i < j then L[i].ch != L[j].ch else L[j].ch != L[i].ch;
    }
    var Y' := Y[j := k.Now()];
    if Quiet(k) {
      forall i | 0 <= i < |L| ensures QuietAt(s', L, Y', i) {
        if i != j { assert QuietAt(s', L, Y, i); }
      }
    }
  }

  /** Changing one leaf, crash-safely for the leaf, is crash-safe for the tree. */
  lemma {:induction false} LiftSafe(s: State, x: Ctx, z: Leaf, tr: seq<Cell>)
    requires Durable(s, x.All(), View(s.cells, x.All())) && NoDup(x.All())
    requires var Y := View(s.cells, x.All()); Linked(x.All(), Y) && Linked(x.All(), Y[|x.A| := z]) && AllShow(tr, Y[|x.A|], z)
    ensures var Y := View(s.cells, x.All()); TraceOk(Lift(s, x.e.ch, tr), Union(Y), Union(Y[|x.A| := z]))
  {
    var L, Y := x.All(), View(s.cells, x.All());
    assert L[|x.A|] == x.e;
    var T := Lift(s, x.e.ch, tr);
    hide CrashSafe, Linked, Durable, View, Lift;
    forall i | 0 <= i < |T| ensures CrashSafe(T[i], Union(Y), Union(Y[|x.A| := z])) {
      LiftAt(s, x.e.ch, tr, i);
      assert Shows(tr[i], Y[|x.A|], z);
      DurablePut(s, x, tr[i]);
      ChangeSafe(T[i], L, Y, |x.A|, z);
    }
  }

  lemma {:induction false} LiftAt(s: State, p: Ptr, tr: seq<Cell>, i: nat)
    requires i < |Lift(s, p, tr)|
    ensures |Lift(s, p, tr)| == |tr| && Lift(s, p, tr)[i] == Put(s, p, tr[i]) && p in Lift(s, p, tr)[i].cells
    ensures Lift(s, p, tr)[i].cells[p] == tr[i]
  {
  }

  lemma {:induction false} AllSafeShow(tr: seq<Cell>, y: Leaf, z: Leaf)
    requires AllSafe(tr, y, z)
    ensures AllShow(tr, y, z)
  {
    forall i | 0 <= i < |tr| ensures Shows(tr[i], y, z) { SafeShows(tr[i], y, z); }
  }

  /** One leaf's memory goes through `tr` to `k`: the level follows, and crashes on the way are covered. */
  lemma {:induction false} LeafStep(s: State, x: Ctx, h: nat, k: Cell, tr: seq<Cell>, safe: bool)
    requires LeavesOk(s, x.All(), h) && NoDup(x.All()) && k.Shape() && k.wb == k.low
    requires var Y' := View(s.cells, x.All())[|x.A| := k.Now()];
      Fits(x.All(), Y') && Linked(x.All(), Y') && (h > 0 ==> EntriesOf(k.Now()) != {})
    requires safe ==> Durable(s, x.All(), View(s.cells, x.All())) && Quiet(k) && AllShow(tr, View(s.cells, x.All())[|x.A|], k.Now())
    ensures var Y, Y', s' := View(s.cells, x.All()), View(s.cells, x.All())[|x.A| := k.Now()], Put(s, x.e.ch, k);
      && LeavesOk(s', x.All(), h) && View(s'.cells, x.All()) == Y'
      && (safe ==> Durable(s', x.All(), Y') && TraceOk(Lift(s, x.e.ch, tr), Union(Y), Union(Y')))
  {
    LeafPut(s, x, h, k);
    hide LeavesOk, Fits, Linked, NonEmpty;
    if safe {
      DurablePut(s, x, k);
      LeavesParts(s, x.All(), h);
      LiftSafe(s, x, k.Now(), tr);
    }
  }

  lemma {:induction false} LeavesParts(s: State, L: seq<IdxEntry>, h: nat)
    requires LeavesOk(s, L, h)
    ensures Stored(s, L) && Fits(L, View(s.cells, L)) && Linked(L, View(s.cells, L)) && (h > 0 ==> NonEmpty(View(s.cells, L)))
    ensures |s.first| > 0 && s.first[|s.first| - 1] == PtrAt(L, 0)
  {
  }

  /** The lock bit of a leaf plays no part in the level's contents. */
  lemma {:induction false} RelockFits(L: seq<IdxEntry>, Y: seq<Leaf>, j: nat, b: bool)
    requires Fits(L, Y) && Linked(L, Y) && j < |L|
    ensures var Y' := Y[j := Relocked(Y[j], b)];
      Fits(L, Y') && Linked(L, Y') && Union(Y') == Union(Y) && EntriesOf(Y'[j]) == EntriesOf(Y[j]) && LeafOk(Y'[j])
  {
    var z, x := Relocked(Y[j], b), Ctx(L[..j], L[j], L[j + 1..]);
    assert x.All() == L;
    RelockedOk(Y[j], b);
    hide Fits, Linked, Entries, LeafOk, Union, Relocked, Ctx.All;
    forall e | e in Entries(z) ensures x.e.k <= e.k && Below(e.k, x.B) { CoversRange(x, Y, e); }
    Replace(x, Y, z);
    ReplaceUnion(Y, j, z);
  }

  // ---------------------------------------------------------------- a leaf splits

  lemma {:induction false} SplitViewOf(s: State, x: Ctx, r: IdxEntry, c: Pair)
    requires NoDup(x.All()) && !Has(x.All(), r.ch) && |c.l.h| > 0 && |c.n.h| > 0
    ensures View(PutPair(s, x.e.ch, r.ch, c).cells, After(x, r)) == SplitView(View(s.cells, x.All()), |x.A|, c.l.Now(), c.n.Now())
  {
    var L, L', Y, j := x.All(), After(x, r), View(s.cells, x.All()), |x.A|;
    var s' := PutPair(s, x.e.ch, r.ch, c);
    AfterAt(x, r);
    ViewPut(s.cells, L, j, c.l);
    ViewElse(Put(s, x.e.ch, c.l).cells, L, r.ch, c.n);
    SplitAt(Y, j, c.l.Now(), c.n.Now());
    hide After, SplitView, Ctx.All, NoDup;
    var V, W := View(s'.cells, L'), View(s'.cells, L);
    assert W == Y[j := c.l.Now()];
    assert |V| == |Y| + 1;
    forall i | 0 <= i < |L'| ensures V[i] == SplitView(Y, j, c.l.Now(), c.n.Now())[i] {
      if i <= j { assert V[i] == W[i]; } else if i > j + 1 { assert V[i] == W[i - 1]; }
    }
  }

  /** The level after a finished split. */
  lemma {:induction false} SplitStep(s: State, x: Ctx, h: nat, r: IdxEntry, c: Pair, e: IdxEntry)
    requires LeavesOk(s, x.All(), h) && NoDup(x.All()) && !Has(x.All(), r.ch) && r.ch != NULL && Covers(x, e.k)
    requires c.l.Shape() && c.l.wb == c.l.low && Quiet(c.n) && (h == 0 ==> |x.All()| == 1)
    requires SplitDone(View(s.cells, x.All())[|x.A|], e, r.k, c.l.Now(), c.n.Now()) && c.l.Now().NextSibling() == r.ch
    ensures var s', Y := PutPair(s, x.e.ch, r.ch, c), View(s.cells, x.All());
      && View(s'.cells, After(x, r)) == SplitView(Y, |x.A|, c.l.Now(), c.n.Now())
      && LeavesOk(s', After(x, r), h + 1) && Union(View(s'.cells, After(x, r))) == Union(Y) + {e}
    ensures x.e.k < r.k && Below(r.k, x.B)
  {
    var Y := View(s.cells, x.All());
    assert |x.A| < |Y| == |x.All()|;
    hide LeavesOk, Fits, Linked, Stored, View, SplitView, After, NonEmpty, Union, Quiet, LeafOk, Entries, Covers, SplitDone, NoDup, Has;
    LeavesParts(s, x.All(), h);
    SplitSides(Y[|x.A|], e, r.k, c.l.Now(), c.n.Now());
    QuietShape(c.n);
    SplitKeyRange(x, Y, c.l.Now(), c.n.Now(), r, e);
    SplitViewOf(s, x, r, c);
    SplitThere(x, Y, c.l.Now(), c.n.Now(), r, e);
    SplitStored(s, x, r, c);
    SplitFull(Y, |x.A|, c.l.Now(), c.n.Now(), h);
    SplitFirst(s, x, h, r, c);
    LeavesIntro(PutPair(s, x.e.ch, r.ch, c), After(x, r), h + 1);
  }

  lemma {:induction false} QuietShape(k: Cell)
    requires Quiet(k)
    ensures k.Shape() && k.wb == k.low && LeafOk(k.Now())
  {
  }

  lemma {:induction false} LeavesIntro(s: State, L: seq<IdxEntry>, h: nat)
    requires Stored(s, L) && Fits(L, View(s.cells, L)) && Linked(L, View(s.cells, L)) && (h > 0 ==> NonEmpty(View(s.cells, L)))
    requires |s.first| > 0 && s.first[|s.first| - 1] == PtrAt(L, 0)
    ensures LeavesOk(s, L, h)
  {
  }

  lemma {:induction false} LeavesLower(s: State, L: seq<IdxEntry>, h: nat)
    requires LeavesOk(s, L, h + 1)
    ensures LeavesOk(s, L, h)
  {
  }

  lemma {:induction false} SplitFirst(s: State, x: Ctx, h: nat, r: IdxEntry, c: Pair)
    ensures PutPair(s, x.e.ch, r.ch, c).first == s.first && PtrAt(After(x, r), 0) == PtrAt(x.All(), 0)
  {
    AfterAt(x, r);
  }

  /** What the outcome of a split says about the two leaves. */
  lemma {:induction false} SplitSides(y: Leaf, e: IdxEntry, splitKey: Key, w: Leaf, n: Leaf)
    requires SplitDone(y, e, splitKey, w, n)
    ensures LeafOk(w) && LeafOk(n) && Entries(w) + Entries(n) == Entries(y) + {e} && n.NextSibling() == y.NextSibling()
    ensures (forall f :: f in Entries(w) ==> f.k < splitKey) && (forall f :: f in Entries(n) ==> splitKey <= f.k)
    ensures Entries(w) != {} && Entries(n) != {}
  {
  }

  lemma {:induction false} SplitStored(s: State, x: Ctx, r: IdxEntry, c: Pair)
    requires Stored(s, x.All()) && r.ch != NULL && c.l.Shape() && c.l.wb == c.l.low && Quiet(c.n)
    ensures Stored(PutPair(s, x.e.ch, r.ch, c), After(x, r))
  {
    AfterAt(x, r);
    assert c.n.Shape() && c.n.wb == c.n.low;
    hide After, Ctx.All, Quiet, Cell.Shape;
    var L, L', s' := x.All(), After(x, r), PutPair(s, x.e.ch, r.ch, c);
    forall i | 0 <= i < |L'| ensures L'[i].ch in s'.cells && L'[i].ch != NULL {
      if i <= |x.A| { assert L[i].ch in s.cells; } else if i > |x.A| + 1 { assert L[i - 1].ch in s.cells; }
    }
  }

  /** A split leaves no leaf empty, provided no other leaf was. */
  lemma {:induction false} SplitFull(Y: seq<Leaf>, j: nat, w: Leaf, n: Leaf, h: nat)
    requires j < |Y| && LeafOk(w) && LeafOk(n) && Entries(w) != {} && Entries(n) != {}
    requires if h > 0 then NonEmpty(Y) else |Y| == 1
    ensures NonEmpty(SplitView(Y, j, w, n))
  {
    SplitAt(Y, j, w, n);
    hide SplitView, Entries, LeafOk;
  }

  lemma {:induction false} SplitKeyRange(x: Ctx, Y: seq<Leaf>, w: Leaf, n: Leaf, r: IdxEntry, e: IdxEntry)
    requires Fits(x.All(), Y) && Covers(x, e.k) && SplitDone(Y[|x.A|], e, r.k, w, n)
    ensures x.e.k < r.k && Below(r.k, x.B)
  {
    var f :| f in Entries(w);
    assert f in Entries(Y[|x.A|]) + {e};
    if f != e { CoversRange(x, Y, f); }
    var f' :| f' in Entries(n) && f'.k == r.k && f' in Entries(Y[|x.A|]);
    CoversRange(x, Y, f');
  }

  lemma {:induction false} SplitUnlocked(Y: seq<Leaf>, j: nat, w: Leaf, n: Leaf, e: IdxEntry, splitKey: Key)
    requires j < |Y| && UnlockedBut(Y, j) && SplitDone(Y[j], e, splitKey, w, n)
    ensures var Y' := SplitView(Y, j, w, n); UnlockedBut(Y', j) && (!w.m.lock ==> Unlocked(Y'))
  {
    SplitAt(Y, j, w, n);
    hide SplitView, LeafOk, Entries;
  }

  lemma {:induction false} KnownShape(s: State, L: seq<IdxEntry>, p: Ptr, raw: RawLeaf)
    requires Stored(s, L)
    ensures (if p in s.cells then s.cells[p] else Cell([raw], [0, 0, 0, 0], [0, 0, 0, 0])).Shape()
  {
  }

  /** Crashes during a split are covered. */
  lemma {:induction false} SplitTraceOk(s: State, x: Ctx, h: nat, r: IdxEntry, tr: seq<Pair>, z: Leaf, w: Leaf, n: Leaf, e: IdxEntry)
    requires Durable(s, x.All(), View(s.cells, x.All())) && LeavesOk(s, x.All(), h) && NoDup(x.All())
    requires !Has(x.All(), r.ch) && r.ch != NULL
    requires var y := View(s.cells, x.All())[|x.A|];
      && SplitMiddle(y, e, z, n) && SplitDone(y, e, r.k, w, n)
      && forall i :: 0 <= i < |tr| ==> SplitSafe(tr[i], y, z, w, n)
    requires z.NextSibling() == r.ch && w.NextSibling() == r.ch
    ensures var Y := View(s.cells, x.All()); TraceOk(LiftPair(s, x.e.ch, r.ch, tr), Union(Y), Union(Y) + {e})
  {
    var L, Y, T := x.All(), View(s.cells, x.All()), LiftPair(s, x.e.ch, r.ch, tr);
    assert L[|x.A|] == x.e;
    LeavesParts(s, L, h);
    hide LeavesOk, Linked, Fits;
    forall i | 0 <= i < |T| ensures CrashSafe(T[i], Union(Y), Union(Y) + {e}) {
      SplitMoment(s, x, r, tr[i], z, w, n, e);
    }
  }

  lemma {:induction false} SplitMoment(s: State, x: Ctx, r: IdxEntry, c: Pair, z: Leaf, w: Leaf, n: Leaf, e: IdxEntry)
    requires Durable(s, x.All(), View(s.cells, x.All())) && Linked(x.All(), View(s.cells, x.All())) && NoDup(x.All())
    requires !Has(x.All(), r.ch) && r.ch != NULL
    requires var y := View(s.cells, x.All())[|x.A|];
      SplitMiddle(y, e, z, n) && SplitDone(y, e, r.k, w, n) && SplitSafe(c, y, z, w, n)
    requires z.NextSibling() == r.ch && w.NextSibling() == r.ch
    ensures var Y := View(s.cells, x.All()); CrashSafe(PutPair(s, x.e.ch, r.ch, c), Union(Y), Union(Y) + {e})
  {
    var L, Y, s1, s2 := x.All(), View(s.cells, x.All()), Put(s, x.e.ch, c.l), PutPair(s, x.e.ch, r.ch, c);
    assert L[|x.A|] == x.e;
    assert c.l.Shape();
    DurablePut(s, x, c.l);
    assert x.e.ch != r.ch && s2.cells[x.e.ch] == c.l && s2.cells[r.ch] == c.n;
    hide Linked, SplitDone, SplitMiddle, SplitSafe, Quiet, View;
    forall i | 0 <= i < |L| && i != |x.A| ensures QuietAt(s2, L, Y, i) {
      assert QuietAt(s1, L, Y, i) && L[i].ch != r.ch;
    }
    assert DurableBut(s2, L, Y, |x.A|);
    hide QuietAt, DurableBut;
    SplitSides(Y[|x.A|], e, r.k, w, n);
    SplitCrashSafe(s2, x, Y, z, w, n, r, e);
  }

  /** After a durable split the longer chain is durable. */
  lemma {:induction false} SplitDurable(s: State, x: Ctx, h: nat, r: IdxEntry, c: Pair)
    requires Durable(s, x.All(), View(s.cells, x.All())) && NoDup(x.All()) && !Has(x.All(), r.ch) && r.ch != NULL
    requires Quiet(c.l) && Quiet(c.n)
    ensures Durable(PutPair(s, x.e.ch, r.ch, c), After(x, r), View(PutPair(s, x.e.ch, r.ch, c).cells, After(x, r)))
  {
    var L, Y, L' := x.All(), View(s.cells, x.All()), After(x, r);
    var s1, s2 := Put(s, x.e.ch, c.l), PutPair(s, x.e.ch, r.ch, c);
    SplitViewOf(s, x, r, c);
    AfterAt(x, r);
    SplitAt(Y, |x.A|, c.l.Now(), c.n.Now());
    DurablePut(s, x, c.l);
    var Y1, Y2 := Y[|x.A| := c.l.Now()], View(s2.cells, L');
    hide After, SplitView, View, Quiet, Ctx.All;
    forall i | 0 <= i < |L'| ensures QuietAt(s2, L', Y2, i) {
      if i <= |x.A| {
        assert QuietAt(s1, L, Y1, i);
      } else if i > |x.A| + 1 {
        assert QuietAt(s1, L, Y1, i - 1);
      }
    }
    assert PtrAt(L', 0) == PtrAt(L, 0);
  }

  /** The leaf level after a split at position `j`: contents `C`, and no leaf locked except a split root leaf. */
  predicate SplitLevel(s: State, L: seq<IdxEntry>, h: nat, j: nat, C: set<IdxEntry>) {
    && LeavesOk(s, L, h + 1) && Union(View(s.cells, L)) == C
    && if h > 0 then Unlocked(View(s.cells, L)) else UnlockedBut(View(s.cells, L), j)
  }

  lemma {:induction false} SplitOutcome(s: State, x: Ctx, h: nat, r: IdxEntry, c: Pair, e: IdxEntry, tr: seq<Pair>, z: Leaf, safe: bool)
    requires LeavesOk(s, x.All(), h) && NoDup(x.All()) && !Has(x.All(), r.ch) && r.ch != NULL && Covers(x, e.k)
    requires c.l.Shape() && c.l.wb == c.l.low && Quiet(c.n) && (h == 0 ==> |x.All()| == 1)
    requires var y := View(s.cells, x.All())[|x.A|];
      && SplitDone(y, e, r.k, c.l.Now(), c.n.Now()) && SplitMiddle(y, e, z, c.n.Now())
      && (safe ==> forall i :: 0 <= i < |tr| ==> SplitSafe(tr[i], y, z, c.l.Now(), c.n.Now()))
    requires c.l.Now().NextSibling() == r.ch && z.NextSibling() == r.ch && c.l.Now().m.lock == (h == 0)
    requires UnlockedBut(View(s.cells, x.All()), |x.A|)
    requires safe ==> Durable(s, x.All(), View(s.cells, x.All())) && Quiet(c.l)
    ensures var s', L', Y := PutPair(s, x.e.ch, r.ch, c), After(x, r), View(s.cells, x.All());
      && SplitLevel(s', L', h, |x.A|, Union(Y) + {e})
      && (safe ==> Durable(s', L', View(s'.cells, L')) && TraceOk(LiftPair(s, x.e.ch, r.ch, tr), Union(Y), Union(Y) + {e}))
    ensures x.e.k < r.k && Below(r.k, x.B)
  {
    QuietShape(c.n);
    assert |x.A| < |View(s.cells, x.All())|;
    hide LeavesOk, NoDup, Has, Covers, Quiet, SplitDone, SplitMiddle, SplitSafe, View, Union, Durable, LiftPair, TraceOk, After, UnlockedBut, Unlocked;
    SplitStep(s, x, h, r, c, e);
    SplitUnlocked(View(s.cells, x.All()), |x.A|, c.l.Now(), c.n.Now(), e, r.k);
    if safe {
      SplitDurable(s, x, h, r, c);
      SplitTraceOk(s, x, h, r, tr, z, c.l.Now(), c.n.Now(), e);
    }
  }

  /** Step 2 of Part 2 of `insert` on the leaf memory: the leaf of the context splits. */
  method SplitState(s: State, h: nat, lp: Ptr, newp: Ptr, e: IdxEntry, ghost x: Ctx, ghost safe: bool)
    returns (s': State, splitKey: Key, ghost more: seq<State>)
    requires LeavesOk(s, x.All(), h) && NoDup(x.All()) && Ascending(x.All()) && !Has(x.All(), newp) && newp != NULL
    requires lp == x.e.ch && lp in s.cells && (h == 0 ==> |x.All()| == 1)
    requires var Y := View(s.cells, x.All());
      && Covers(x, e.k) && !HasKey(Union(Y), e.k) && |x.A| < |Y| && IsFull(Y[|x.A|]) && Y[|x.A|].m.lock && UnlockedBut(Y, |x.A|)
      && s.cells[lp].Shape() && s.cells[lp].wb == s.cells[lp].low && s.cells[lp].Now() == Y[|x.A|] && LeafOk(Y[|x.A|])
      && (safe ==> Durable(s, x.All(), Y) && Quiet(s.cells[lp]))
    ensures x.e.k < splitKey && Below(splitKey, x.B)
    ensures var L, C := After(x, IdxEntry(splitKey, newp)), Union(View(s.cells, x.All()));
      && SplitLevel(s', L, h, |x.A|, C + {e})
      && (safe ==> Durable(s', L, View(s'.cells, L)) && TraceOk(more, C, C + {e}))
    ensures Run(s, more, s')
  {
    ghost var Y := View(s.cells, x.All());
    LeavesParts(s, x.All(), h);
    KeyThere(x, Y, e.k);
    hide Fits, Linked, Quiet, CellSafe, View, Union, Durable, HasKey, Covers, LeavesOk, Stored,
      SplitDone, SplitMiddle, SplitSafe, LeafOk, IsFull, Entries, After, NoDup, Ascending, SplitLevel, UnlockedBut;
    var raw: RawLeaf := *;
    var kn := if newp in s.cells then s.cells[newp] else Cell([raw], [0, 0, 0, 0], [0, 0, 0, 0]);
    KnownShape(s, x.All(), newp, raw);
    var kl', kn';
    ghost var z, tr;
    kl', kn', splitKey, z, tr := SplitLeaf(s.cells[lp], kn, newp, e, h > 0, safe);
    ghost var T := FromPool(s, lp, newp, kn, tr, Y[|x.A|], z, kl'.Now(), kn'.Now(), Pair(kl', kn'), safe);
    hide Cell.Shape, Shows, PutPair, LiftPair, Run;
    SplitOutcome(s, x, h, IdxEntry(splitKey, newp), Pair(kl', kn'), e, T, z, safe);
    s' := PutPair(s, lp, newp, Pair(kl', kn'));
    more := LiftPair(s, lp, newp, T);
  }

  /** The pool hands out the new leaf, with contents `kn`, before the split's own events. */
  lemma {:induction false} FromPool(s: State, lp: Ptr, newp: Ptr, kn: Cell, tr: seq<Pair>, y: Leaf, z: Leaf, w: Leaf, n: Leaf, d: Pair, safe: bool) returns (T: seq<Pair>)
    requires lp in s.cells && lp != newp && kn.Shape() && PairSteps(Pair(s.cells[lp], kn), tr, d) && s.cells[lp].Shape() && s.cells[lp].Now() == y
    requires if newp in s.cells then kn == s.cells[newp] else |kn.h| == 1
    requires safe ==> Quiet(s.cells[lp]) && forall i :: 0 <= i < |tr| ==> SplitSafe(tr[i], y, z, w, n)
    ensures Run(s, LiftPair(s, lp, newp, T), PutPair(s, lp, newp, d))
    ensures safe ==> forall i :: 0 <= i < |T| ==> SplitSafe(T[i], y, z, w, n)
  {
    hide PairSteps, Shows, Quiet, Run, LiftPair, PutPair, Cell.Shape;
    var c := Pair(s.cells[lp], kn);
    if newp in s.cells {
      T := tr;
      LiftPairRun(s, lp, newp, c, tr, d);
    } else {
      T := [c] + tr;
      HandOutRun(s, lp, newp, c, tr, d);
      if safe { QuietShows(c.l, y); }
    }
  }

  lemma {:induction false} QuietShows(k: Cell, y: Leaf)
    requires Quiet(k) && k.Shape() && k.Now() == y
    ensures Shows(k, y, y)
  {
    SafeShows(k, y, y);
  }
}
